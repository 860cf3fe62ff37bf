/** The in-memory logic of `controllers/userController.js`: the request checks
    of `registerUser`, `loginUser` and `resetPassword`, the conditional
    overwrite of `updateUserDetails`, and the wishlist kept by `addWishlist`
    and `removeWishlist`.

    As for products, each handler works on its own freshly loaded user
    document, so the document it saves is modelled as its return value. */
module UserController {
  import opened Common
  import opened ProductModel

  datatype WishlistItem = WishlistItem(product: ObjectId, poster: string)

  /** `{ public_id, url }`; the empty object `{}` has neither. */
  datatype Avatar = Avatar(publicId: Option<string>, url: Option<string>)

  /** The user document, limited to the paths these handlers read or write. */
  datatype User = User(
    id: ObjectId,
    fullName: string,
    email: string,
    gender: string,
    phoneNo: string,
    country: Option<string>,
    city: Option<string>,
    street: Option<string>,
    address: Option<string>,
    phone: Option<string>,
    password: string,
    resetPasswordToken: Option<string>,
    resetPasswordExpire: Option<int>,
    avatar: Option<Avatar>,
    wishlist: seq<WishlistItem>)

  // ---------------------------------------------------------------------------
  // registerUser

  datatype RegisterBody = RegisterBody(
    fullName: Option<string>,
    phoneNo: Option<string>,
    gender: Option<string>,
    email: Option<string>,
    password: Option<string>,
    confirmPassword: Option<string>)

  const FillAllDetails := Failure(Some(400), "Please fill all details")
  const PasswordsDiffer := Failure(Some(400), "Password and Confirm Password Doesn't Match")

  predicate RegisterFilled(b: RegisterBody)
  {
    && FilledStr(b.fullName) && FilledStr(b.phoneNo) && FilledStr(b.gender)
    && FilledStr(b.email) && FilledStr(b.password) && FilledStr(b.confirmPassword)
  }

  /** A registration goes through only with all six fields and matching
      passwords; a missing field is reported before a mismatch. */
  function CheckRegister(b: RegisterBody): (r: Outcome)
    ensures r.Pass? <==> RegisterFilled(b) && b.password == b.confirmPassword
    ensures !RegisterFilled(b) ==> r == Fail(FillAllDetails)
    ensures RegisterFilled(b) && b.password != b.confirmPassword ==> r == Fail(PasswordsDiffer)
  {
    if !FilledStr(b.fullName) || !FilledStr(b.phoneNo) || !FilledStr(b.gender) ||
       !FilledStr(b.email) || !FilledStr(b.password) || !FilledStr(b.confirmPassword)
    then Fail(FillAllDetails)
    else if b.password.value != b.confirmPassword.value then Fail(PasswordsDiffer)
    else Pass
  }

  // ---------------------------------------------------------------------------
  // loginUser

  datatype LoginBody = LoginBody(email: Option<string>, password: Option<string>)

  const MissingCredentials := Failure(Some(400), "Please Enter Email & Password")
  const InvalidCredentials := Failure(Some(401), "Invalid email or password")

  /** `found` is the user `findOne({ email })` returns; `passwordMatches` is
      what `comparePassword` answers for it. */
  function LoginUser(b: LoginBody, found: Option<User>, passwordMatches: bool): (r: Result<User>)
    ensures r.Ok? <==> FilledStr(b.email) && FilledStr(b.password) && found.Some? && passwordMatches
    ensures r.Ok? ==> r.value == found.value
    ensures !(FilledStr(b.email) && FilledStr(b.password)) ==> r == Err(MissingCredentials)
  {
    if !FilledStr(b.email) || !FilledStr(b.password) then Err(MissingCredentials)
    else if found.None? then Err(InvalidCredentials)
    else if !passwordMatches then Err(InvalidCredentials)
    else Ok(found.value)
  }

  /** An unknown email and a wrong password get the same answer, so a caller
      cannot tell which accounts exist. */
  lemma LoginHidesFailureCause(b: LoginBody, u: User, matches: bool)
    requires FilledStr(b.email) && FilledStr(b.password)
    ensures LoginUser(b, None, matches) == LoginUser(b, Some(u), false) == Err(InvalidCredentials)
  {
  }

  // ---------------------------------------------------------------------------
  // resetPassword

  datatype ResetBody = ResetBody(password: Option<string>, confirmPassword: Option<string>)

  const ResetTokenInvalid := Failure(Some(400), "Reset Password Token is invalid or has been expired")
  const EnterPassword := Failure(Some(400), "Please Enter Password")
  const ResetPasswordsDiffer := Failure(Some(400), "Password does not password")

  /** The query `{ resetPasswordToken: hash, resetPasswordExpire: { $gt: now } }`:
      a missing expiry never compares greater. */
  predicate ResetTokenLive(u: User, hash: string, now: int)
  {
    u.resetPasswordToken == Some(hash) && u.resetPasswordExpire.Some? && u.resetPasswordExpire.value > now
  }

  /** `findOne` over the users collection: the first user the query matches. */
  function FindResetUser(users: seq<User>, hash: string, now: int): (r: Option<User>)
    ensures r.Some? ==> r.value in users && ResetTokenLive(r.value, hash, now)
    ensures r.None? ==> forall k :: 0 <= k < |users| ==> !ResetTokenLive(users[k], hash, now)
  {
    if users == [] then None
    else if ResetTokenLive(users[0], hash, now) then Some(users[0])
    else FindResetUser(users[1..], hash, now)
  }

  predicate ResetPasswordsOk(b: ResetBody)
  {
    FilledStr(b.password) && FilledStr(b.confirmPassword) && b.password == b.confirmPassword
  }

  /** `hash` is the SHA-256 digest of the token in the URL. On success the
      matching user gets the new password and both reset paths are cleared. */
  function ResetPassword(users: seq<User>, hash: string, now: int, b: ResetBody): (r: Result<User>)
    ensures (forall k :: 0 <= k < |users| ==> !ResetTokenLive(users[k], hash, now)) ==> r == Err(ResetTokenInvalid)
    ensures r.Ok? <==> ResetPasswordsOk(b) && exists k :: 0 <= k < |users| && ResetTokenLive(users[k], hash, now)
    ensures r.Ok? ==>
      exists k :: 0 <= k < |users| && ResetTokenLive(users[k], hash, now) &&
        r.value == users[k].(password := b.password.value, resetPasswordToken := None, resetPasswordExpire := None)
  {
    var found := FindResetUser(users, hash, now);
    if found.None? then Err(ResetTokenInvalid)
    else if !FilledStr(b.password) || !FilledStr(b.confirmPassword) then Err(EnterPassword)
    else if b.password.value != b.confirmPassword.value then Err(ResetPasswordsDiffer)
    else Ok(found.value.(password := b.password.value, resetPasswordToken := None, resetPasswordExpire := None))
  }

  // ---------------------------------------------------------------------------
  // updateUserDetails

  datatype DetailsBody = DetailsBody(
    fullName: Option<string>,
    email: Option<string>,
    gender: Option<string>,
    country: Option<string>,
    city: Option<string>,
    street: Option<string>,
    address: Option<string>,
    phone: Option<string>)

  /** The result of the update: each field takes the input when it is truthy.
      `uploaded` is the avatar built from the image store's answer when a file
      came with the request. */
  function ApplyDetails(u: User, b: DetailsBody, uploaded: Option<Avatar>): User
  {
    u.(fullName := if FilledStr(b.fullName) then b.fullName.value else u.fullName,
       email := if FilledStr(b.email) then b.email.value else u.email,
       country := if FilledStr(b.country) then b.country else u.country,
       address := if FilledStr(b.address) then b.address else u.address,
       gender := if FilledStr(b.gender) then b.gender.value else u.gender,
       city := if FilledStr(b.city) then b.city else u.city,
       street := if FilledStr(b.street) then b.street else u.street,
       phone := if FilledStr(b.phone) then b.phone else u.phone,
       avatar := if uploaded.Some? then uploaded else if u.avatar.None? then Some(Avatar(None, None)) else u.avatar)
  }

  /** `updateUserDetails`: one conditional assignment per field, then the avatar. */
  method UpdateUserDetails(found: Option<User>, b: DetailsBody, uploaded: Option<Avatar>) returns (r: Result<User>)
    ensures found.None? ==> r == Err(TypeError)
    ensures found.Some? ==> r == Ok(ApplyDetails(found.value, b, uploaded))
  {
    if found.None? {
      return Err(TypeError);
    }
    var user := found.value;
    var fullName, email, country, address := user.fullName, user.email, user.country, user.address;
    var gender, city, street, phone := user.gender, user.city, user.street, user.phone;
    if FilledStr(b.fullName) { fullName := b.fullName.value; }
    if FilledStr(b.email) { email := b.email.value; }
    if FilledStr(b.country) { country := b.country; }
    if FilledStr(b.address) { address := b.address; }
    if FilledStr(b.gender) { gender := b.gender.value; }
    if FilledStr(b.city) { city := b.city; }
    if FilledStr(b.street) { street := b.street; }
    if FilledStr(b.phone) { phone := b.phone; }
    var avatar := user.avatar;
    if avatar.None? { avatar := Some(Avatar(None, None)); }
    if uploaded.Some? { avatar := uploaded; }
    r := Ok(user.(fullName := fullName, email := email, country := country, address := address,
                  gender := gender, city := city, street := street, phone := phone, avatar := avatar));
  }

  /** A field changes only when its input is truthy, and a truthy input is
      always written; an uploaded avatar replaces the stored one, which is
      otherwise kept (or created empty); the id, password, reset paths and
      wishlist never change. */
  lemma ApplyDetailsFieldwise(u: User, b: DetailsBody, uploaded: Option<Avatar>)
    ensures var v := ApplyDetails(u, b, uploaded);
      && (v.fullName != u.fullName ==> Some(v.fullName) == b.fullName)
      && (v.email != u.email ==> Some(v.email) == b.email)
      && (v.gender != u.gender ==> Some(v.gender) == b.gender)
      && (v.country != u.country ==> v.country == b.country && FilledStr(b.country))
      && (v.city != u.city ==> v.city == b.city && FilledStr(b.city))
      && (v.street != u.street ==> v.street == b.street && FilledStr(b.street))
      && (v.address != u.address ==> v.address == b.address && FilledStr(b.address))
      && (v.phone != u.phone ==> v.phone == b.phone && FilledStr(b.phone))
      && (FilledStr(b.fullName) ==> v.fullName == b.fullName.value)
      && (FilledStr(b.email) ==> v.email == b.email.value)
      && (FilledStr(b.gender) ==> v.gender == b.gender.value)
      && (FilledStr(b.country) ==> v.country == b.country)
      && (FilledStr(b.city) ==> v.city == b.city)
      && (FilledStr(b.street) ==> v.street == b.street)
      && (FilledStr(b.address) ==> v.address == b.address)
      && (FilledStr(b.phone) ==> v.phone == b.phone)
      && (uploaded.Some? ==> v.avatar == uploaded)
      && (uploaded.None? && u.avatar.Some? ==> v.avatar == u.avatar)
      && (uploaded.None? && u.avatar.None? ==> v.avatar == Some(Avatar(None, None)))
      && v.id == u.id && v.password == u.password && v.phoneNo == u.phoneNo
      && v.resetPasswordToken == u.resetPasswordToken && v.resetPasswordExpire == u.resetPasswordExpire
      && v.wishlist == u.wishlist
      && v.avatar.Some?
  {
  }

  /** Sending the same update twice leaves the user as sending it once. */
  lemma ApplyDetailsIdempotent(u: User, b: DetailsBody, uploaded: Option<Avatar>)
    ensures ApplyDetails(ApplyDetails(u, b, uploaded), b, uploaded) == ApplyDetails(u, b, uploaded)
  {
  }

  // ---------------------------------------------------------------------------
  // The wishlist

  const WishProductNotFound := Failure(None, "Product Not Found")
  const AlreadyWishlisted := Failure(Some(409), "Already Added to Wishlist")

  predicate Wishlisted(w: seq<WishlistItem>, pid: ObjectId)
  {
    exists i :: 0 <= i < |w| && w[i].product == pid
  }

  /** No product appears twice in a wishlist. */
  predicate NoDuplicateProducts(w: seq<WishlistItem>)
  {
    forall i, j :: 0 <= i < j < |w| ==> w[i].product != w[j].product
  }

  /** What `addWishlist` saves. The product lookup is checked first; a missing
      user, and a product without images (`images[0].url`), throw. */
  function AddWishlistOutcome(user: Option<User>, product: Option<Product>): (r: Result<User>)
    ensures product.None? ==> r == Err(WishProductNotFound)
    ensures product.Some? && user.Some? && Wishlisted(user.value.wishlist, product.value.id) ==> r == Err(AlreadyWishlisted)
    ensures r.Ok? <==> user.Some? && product.Some? && !Wishlisted(user.value.wishlist, product.value.id) && |product.value.images| > 0
    ensures r.Ok? ==> r.value == user.value.(wishlist := user.value.wishlist + [WishlistItem(product.value.id, product.value.images[0].url)])
    ensures r.Ok? ==> Wishlisted(r.value.wishlist, product.value.id)
    ensures r.Ok? && NoDuplicateProducts(user.value.wishlist) ==> NoDuplicateProducts(r.value.wishlist)
  {
    if product.None? then Err(WishProductNotFound)
    else if user.None? then Err(TypeError)
    else if Wishlisted(user.value.wishlist, product.value.id) then Err(AlreadyWishlisted)
    else if |product.value.images| == 0 then Err(TypeError)
    else
      var w := user.value.wishlist + [WishlistItem(product.value.id, product.value.images[0].url)];
      assert w[|w| - 1].product == product.value.id;
      Ok(user.value.(wishlist := w))
  }

  /** `addWishlist`: look for the product in the list, then push. */
  method AddWishlist(user: Option<User>, product: Option<Product>) returns (r: Result<User>)
    ensures r == AddWishlistOutcome(user, product)
  {
    if product.None? {
      return Err(WishProductNotFound);
    }
    if user.None? {
      return Err(TypeError);
    }
    var p, u := product.value, user.value;
    var i := 0;
    while i < |u.wishlist|
      invariant 0 <= i <= |u.wishlist|
      invariant forall k :: 0 <= k < i ==> u.wishlist[k].product != p.id
    {
      if u.wishlist[i].product == p.id {
        return Err(AlreadyWishlisted);
      }
      i := i + 1;
    }
    if |p.images| == 0 {
      return Err(TypeError);
    }
    r := Ok(u.(wishlist := u.wishlist + [WishlistItem(p.id, p.images[0].url)]));
  }

  /** `wishlist.filter(item => item.product !== pid)`. */
  function WithoutProduct(w: seq<WishlistItem>, pid: ObjectId): seq<WishlistItem>
  {
    if w == [] then []
    else (if w[0].product != pid then [w[0]] else []) + WithoutProduct(w[1..], pid)
  }

  /** What `removeWishlist` saves: every entry for the product goes, the rest stay. */
  function RemoveWishlist(user: Option<User>, product: Option<Product>): (r: Result<User>)
    ensures product.None? ==> r == Err(WishProductNotFound)
    ensures r.Ok? <==> user.Some? && product.Some?
    ensures r.Ok? ==>
      && r.value == user.value.(wishlist := r.value.wishlist)
      && !Wishlisted(r.value.wishlist, product.value.id)
      && (forall x :: x in r.value.wishlist <==> x in user.value.wishlist && x.product != product.value.id)
  {
    if product.None? then Err(WishProductNotFound)
    else if user.None? then Err(TypeError)
    else
      var w := WithoutProduct(user.value.wishlist, product.value.id);
      WithoutProductMembers(user.value.wishlist, product.value.id);
      assert forall i :: 0 <= i < |w| ==> w[i] in w;
      Ok(user.value.(wishlist := w))
  }

  lemma {:induction false} WithoutProductMembers(w: seq<WishlistItem>, pid: ObjectId)
    ensures forall x :: x in WithoutProduct(w, pid) <==> x in w && x.product != pid
  {
    if w != [] {
      WithoutProductMembers(w[1..], pid);
      assert w == [w[0]] + w[1..];
    }
  }

  /** The entries that stay keep their order. */
  lemma {:induction false} WithoutProductConcat(a: seq<WishlistItem>, b: seq<WishlistItem>, pid: ObjectId)
    ensures WithoutProduct(a + b, pid) == WithoutProduct(a, pid) + WithoutProduct(b, pid)
  {
    if a != [] {
      WithoutProductConcat(a[1..], b, pid);
      assert (a + b)[1..] == a[1..] + b;
    } else {
      assert a + b == b;
    }
  }

  lemma {:induction false} WithoutProductAbsent(w: seq<WishlistItem>, pid: ObjectId)
    requires forall k :: 0 <= k < |w| ==> w[k].product != pid
    ensures WithoutProduct(w, pid) == w
  {
    if w != [] {
      WithoutProductAbsent(w[1..], pid);
    }
  }

  /** Removing a product twice is the same as removing it once. */
  lemma RemoveWishlistIdempotent(u: User, p: Product)
    ensures var once := RemoveWishlist(Some(u), Some(p));
      RemoveWishlist(Some(once.value), Some(p)) == once
  {
    var once := RemoveWishlist(Some(u), Some(p));
    WithoutProductAbsent(once.value.wishlist, p.id);
  }

  /** Removal keeps a duplicate-free wishlist duplicate-free. */
  lemma {:induction false} WithoutProductKeepsNoDuplicates(w: seq<WishlistItem>, pid: ObjectId)
    requires NoDuplicateProducts(w)
    ensures NoDuplicateProducts(WithoutProduct(w, pid))
  {
    if w != [] {
      var tail := WithoutProduct(w[1..], pid);
      WithoutProductKeepsNoDuplicates(w[1..], pid);
      WithoutProductMembers(w[1..], pid);
      if w[0].product != pid {
        var out := [w[0]] + tail;
        forall i, j | 0 <= i < j < |out|
          ensures out[i].product != out[j].product
        {
          if i == 0 {
            assert out[j] in tail;
            var m :| 0 <= m < |w[1..]| && w[1..][m] == out[j];
            assert w[m + 1] == out[j];
          } else {
            assert out[i] == tail[i - 1] && out[j] == tail[j - 1];
          }
        }
      }
    }
  }

  /** Adding a product and then removing it gives back the user as it was. */
  lemma AddThenRemoveRestores(u: User, p: Product)
    requires AddWishlistOutcome(Some(u), Some(p)).Ok?
    ensures RemoveWishlist(Some(AddWishlistOutcome(Some(u), Some(p)).value), Some(p)) == Ok(u)
  {
    var item := WishlistItem(p.id, p.images[0].url);
    var added := u.(wishlist := u.wishlist + [item]);
    assert AddWishlistOutcome(Some(u), Some(p)) == Ok(added);
    WithoutProductConcat(u.wishlist, [item], p.id);
    WithoutProductAbsent(u.wishlist, p.id);
    assert WithoutProduct([item], p.id) == [];
    assert WithoutProduct(added.wishlist, p.id) == u.wishlist;
  }
}
