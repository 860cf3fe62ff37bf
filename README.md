# Verified model of the JAVABC store controllers

This project models the in-memory logic of an Express/Mongoose e-commerce
backend: the product document and its review table, the user's wishlist and
account checks, and the order status rules and stock bookkeeping. Each request
handler loads its own copy of a document by id, changes it and saves it. No
other code holds a reference to that copy. So a handler is modelled as a
function or method that takes the looked-up document as an `Option` and
returns the document it saves, or the error it passes to `next`. The one piece
of shared mutable state the model keeps is the products collection that
`newOrder` decrements item by item (`OrderController.ProductStore`).

Modules, one per source file:

- `Common`: `Option`, `Result`, `Outcome`, the `Failure` (status code and
  message) of an `ErrorHandler`, and JavaScript truthiness of request fields.
- `ProductModel` (`models/productModel.js`): the `Product`, `Review` and
  `Image` records, the `trim` setter on `name`, the `required` validators, the
  defaults, and the review aggregate (`numOfReviews` is the count, `ratings`
  the mean rating or 0).
- `ProductController` (`controllers/productController.js`): the
  `createProduct` field check, `createProductReview` (update-or-append, then
  re-average) and `deleteReview` (filter by id, then re-average).
- `UserController` (`controllers/userController.js`): the register, login and
  reset-password checks, the conditional overwrite of `updateUserDetails`,
  and the wishlist (`addWishlist`, `removeWishlist`).
- `OrderController` (`controllers/orderController.js`): the `newOrder` field
  check, `updateStock` over every order item, and the status rules of
  `updateOrder` and `cancelOrder`.

Some conventions:

- A request field is an `Option`: `None` is an undefined field.
- A string field is truthy when it is non-empty. A number is truthy when it is
  non-zero. An object or array is truthy whenever it is present, even when it
  is empty.
- Some source lines read a property of `null`: the product in
  `createProductReview`, the user in the wishlist handlers, or `images[0]` of a
  product with no images. These become `Err(TypeError)`, a failure without a
  status code.

The code has no catalog cache: `getAllProducts`, `getAllCategories` and
`getAdminProducts` query the database on every call
(`controllers/productController.js:97-140`), and no product write invalidates
anything. The model has no cache either.

## Model

| member | source | states |
|---|---|---|
| `ProductModel.TrimIsInfix` | models/productModel.js:4-8 | the stored name is the input with only white space cut from its two ends |
| `ProductModel.TrimHasNoEdgeSpace` | models/productModel.js:7 | a stored name neither starts nor ends with JavaScript white space |
| `ProductModel.TrimIdempotent` | models/productModel.js:7 | trimming an already trimmed name changes nothing |
| `ProductModel.CreateDocument` | models/productModel.js:3-106 | a document is created exactly when every required path is filled, and otherwise a validation error results; a created document is well-formed (non-empty required strings, a trimmed name, complete image and review entries) |
| `ProductModel.CreateAppliesDefaults` | models/productModel.js:31-106 | when left undefined, `ratings` and `numOfReviews` become 0, `stock` becomes 1, `sub_category2` becomes "" and `createdAt` becomes now; supplied values are kept |
| `ProductModel.MeanTimesCount` | controllers/productController.js:289-295 | the stored mean times the number of reviews is the sum of their ratings |
| `ProductModel.NewProductAggregate` | models/productModel.js:31-102 | a product created without ratings, a count or reviews already satisfies the review aggregate invariant |
| `ProductController.CheckCreateProduct` | controllers/productController.js:52-62 | `createProduct` passes exactly when name, description, price, category, stock, sub_category and size are all non-empty, so sub_category2 is optional; otherwise it fails with 404 "All Field Required" |
| `ProductController.ReviewOutcome` | controllers/productController.js:260-297 | a missing comment, rating or productId gives 400 and saves nothing; on success the user has a review, ratings times count equals the rating sum, only reviews, ratings and numOfReviews differ from the loaded product, the new review list is the update-or-append of the old one, and numOfReviews becomes the new length only on an append |
| `ProductController.TotalRating` | controllers/productController.js:289-293 | the accumulation loop yields the sum of all ratings in the list |
| `ProductController.FindReviewBy` | controllers/productController.js:275-277 | the search loop finds a review exactly when the user has one |
| `ProductController.CreateProductReview` | controllers/productController.js:260-303 | the handler with its loops (search, in-place rewrite, push, running total) returns exactly the outcome `ReviewOutcome` describes |
| `ProductController.ReviseByAt` | controllers/productController.js:280-283 | the rewrite keeps the length, changes every review by that user and leaves all other reviews as they were |
| `ProductController.UpsertRevisesExisting` | controllers/productController.js:279-283 | when the user has a review, the list length is unchanged and only that user's rating and comment are replaced; id, author, name and avatar stay |
| `ProductController.UpsertAppendsNew` | controllers/productController.js:284-287 | when the user has no review, exactly one new review is appended at the end and the earlier ones are untouched |
| `ProductController.UpsertKeepsOneReviewPerUser` | controllers/productController.js:275-287 | if the table held at most one review per user before a submission, it still does afterwards, and the user now has one |
| `ProductController.SubmitReviewAggregate` | controllers/productController.js:275-295 | after a submission the list is non-empty and ratings times count equals the rating sum; an append sets numOfReviews to the new length; a consistent aggregate stays consistent |
| `ProductController.DeleteReviewOutcome` | controllers/productController.js:320-359 | an absent product gives 404; a missing review id throws only when there are reviews to test; on success exactly the reviews with another id remain, numOfReviews is their count, ratings is their mean or 0, and nothing else changes |
| `ProductController.DeleteReview` | controllers/productController.js:320-365 | the handler with its running-total loop returns exactly the outcome `DeleteReviewOutcome` describes |
| `ProductController.WithoutReviewMembers` | controllers/productController.js:327-329 | a review survives the filter exactly when its id differs from the given one |
| `ProductController.WithoutReviewConcat` | controllers/productController.js:327-329 | filtering distributes over concatenation, so the surviving reviews keep their original order |
| `ProductController.WithoutReviewIdempotent` | controllers/productController.js:327-329 | deleting the same review id twice equals deleting it once |
| `ProductController.WithoutReviewAbsent` | controllers/productController.js:327-329 | deleting an id that no review carries leaves the list unchanged |
| `ProductController.WithoutReviewKeepsOneReviewPerUser` | controllers/productController.js:327-329 | deletion keeps the table at one review per user |
| `ProductController.SubmitThenDeleteRestores` | controllers/productController.js:284-329 | appending a first review and then deleting it by its new id gives back the original list |
| `UserController.CheckRegister` | controllers/userController.js:16-29 | registration passes exactly when all six fields are non-empty and the passwords are equal; a missing field is reported (400) before a mismatch (400) |
| `UserController.LoginUser` | controllers/userController.js:48-62 | login succeeds exactly when email and password are given, the user exists and the password matches; a missing field gives 400 |
| `UserController.LoginHidesFailureCause` | controllers/userController.js:54-62 | an unknown email and a wrong password both give the same 401 "Invalid email or password" |
| `UserController.FindResetUser` | controllers/userController.js:132-135 | the lookup finds a user whose stored token hash matches and whose expiry is later than now, and finds none only when no user qualifies |
| `UserController.ResetPassword` | controllers/userController.js:132-156 | without a live token it fails with 400; it succeeds exactly when a live token exists and the two passwords are non-empty and equal; the saved user is a matching one with the new password and both reset paths cleared |
| `UserController.UpdateUserDetails` | controllers/userController.js:220-253 | the sequence of conditional assignments produces `ApplyDetails` of the loaded user; a missing user throws |
| `UserController.ApplyDetailsFieldwise` | controllers/userController.js:222-253 | a field changes only when its input is truthy, and every truthy input is written to its field; an uploaded avatar replaces the stored one, which is otherwise kept, or created empty when there was none; id, password, reset paths and wishlist never change |
| `UserController.ApplyDetailsIdempotent` | controllers/userController.js:222-234 | sending the same profile update twice gives the same user as sending it once |
| `UserController.AddWishlistOutcome` | controllers/userController.js:310-328 | an absent product gives "Product Not Found"; a product already listed gives 409 and saves nothing; otherwise exactly one entry (product id, first image url) is appended, and a duplicate-free wishlist stays duplicate-free |
| `UserController.AddWishlist` | controllers/userController.js:310-336 | the handler with its search loop returns exactly the outcome `AddWishlistOutcome` describes |
| `UserController.RemoveWishlist` | controllers/userController.js:339-352 | an absent product gives "Product Not Found"; otherwise every entry for the product is gone, every other entry stays, and nothing else in the user changes |
| `UserController.WithoutProductMembers` | controllers/userController.js:348-350 | an entry survives the filter exactly when it is for another product |
| `UserController.WithoutProductConcat` | controllers/userController.js:348-350 | the surviving entries keep their original order |
| `UserController.WithoutProductAbsent` | controllers/userController.js:348-350 | removing a product that is not listed leaves the wishlist unchanged |
| `UserController.RemoveWishlistIdempotent` | controllers/userController.js:348-352 | removing a product twice equals removing it once |
| `UserController.WithoutProductKeepsNoDuplicates` | controllers/userController.js:348-352 | removal keeps a duplicate-free wishlist duplicate-free |
| `UserController.AddThenRemoveRestores` | controllers/userController.js:325-352 | a successful add followed by a remove of the same product gives back the original user |
| `OrderController.CheckNewOrder` | controllers/orderController.js:20-30 | an order passes exactly when the shipping info, items and payment info are present and the five amounts are non-zero; otherwise it fails with 400 |
| `OrderController.NewOrderCheckEdges` | controllers/orderController.js:20-30 | a discount of 0 is refused, while an empty item list passes |
| `OrderController.StockAfterItemsSubtractsTotals` | controllers/orderController.js:45-47 | running `updateStock` for every item lowers each product's stock by the total quantity ordered of it, changes nothing else and adds no product |
| `OrderController.StockHasNoLowerBound` | controllers/orderController.js:126-131 | a quantity above the stock leaves a negative stock |
| `OrderController.ProductStore.UpdateStock` | controllers/orderController.js:126-132 | the product's stock drops by exactly the quantity; an unknown product changes nothing |
| `OrderController.ProductStore.NewOrder` | controllers/orderController.js:20-47 | a refused body leaves the stock untouched; an accepted one leaves it as `updateStock` over every item, in order, makes it |
| `OrderController.UpdateOrder` | controllers/orderController.js:105-117 | an absent order gives 404 and a delivered one gives 400; otherwise the status becomes the requested one, `deliveredAt` is set to now only when that status is "Delivered", and nothing else changes |
| `OrderController.CancelOrder` | controllers/orderController.js:151-160 | any existing order, a delivered one included, becomes "cancelled" and nothing else changes; an absent order gives 404 |
| `OrderController.DeliveredIsFinalForUpdates` | controllers/orderController.js:109-111 | no sequence of status updates changes a delivered order at all |
| `OrderController.DeliveredAtComesFromDelivery` | controllers/orderController.js:113-117 | after any sequence of requests, the delivery time is the original one or the time carried by one of the run's updates to "Delivered" |
| `OrderController.CancelReopensDeliveredOrder` | controllers/orderController.js:151-160 | a delivered order can be cancelled, after which `updateOrder` accepts a new status for it |

## Left out

- A catalog cache: the code has none, as said above.
- Database calls are not modelled as such. A lookup is an `Option` parameter. A save is the handler's returned document. Mongoose's validation on `save` and the `runValidators` pass of `deleteReview`'s `findByIdAndUpdate` are not modelled.
- The `Product.create` step of `createProduct` is not modelled, only its field check. It passes `price` and `stock` but none of `keyFeatures`, `specification`, `baseprice` or `discountedprice`, which the schema requires.
- `models/UserModel.js` and `models/orderModel.js` are not part of this model. So are `User.create` in `registerUser`, `Order.create` in `newOrder`, and any schema defaults of users and orders.
- Image upload and deletion at the image host: a user avatar's upload result is the `uploaded` parameter of `UpdateUserDetails`. The upload loops of `createProduct` and `updateProduct` are not modelled.
- External calls become parameters:
  - `comparePassword` becomes `passwordMatches`.
  - The SHA-256 hash of the reset token becomes `hash`.
  - `Date.now()` becomes `now`.
- Not modelled at all:
  - hashing of the password on save;
  - `sendEmail`, `sendToken` and JWT issuance, with `logout` and `forgotPassword`;
  - the error middleware that turns a `Failure` into an HTTP response.
- These handlers only read or write the database and are not modelled:
  - `getAllProducts`, `getAllCategories`, `getAdminProducts`, `getProductDetails`, `getProductReviews`, `updateProduct` and `deleteProduct`, including the wishlist `$pull` in `deleteProduct`;
  - `getUserDetails`, `updatePassword`, `getAllUser`, `getSingleUser` and `updateUserRole`;
  - `myOrders`, `getAllOrders` and `deleteOrder`.
- `getSingleOrder` is not modelled. It reads `order.user` before checking that the order exists.
- The `pin_code` branch of `updateUserDetails` (controllers/userController.js:229) is not modelled. It assigns from an undeclared `postal_code`, so a truthy `pin_code` throws a ReferenceError before the user is saved.
- `ApiFeatures` search, filtering and pagination: that source is not part of this model.
- `controllers/paymentController.js`: a single call to the payment provider, and its amount conversion is floating point.
- Concurrency: `newOrder` starts every `updateStock` without awaiting it. The model runs them one after another. Interleavings, including two concurrent decrements of one product that lose an update, are not modelled.
- Floating point: `ratings` is an exact real mean of integer ratings, and prices, amounts and quantities are integers. NaN is not modelled.
- Request values of an unexpected JSON type are not modelled, for instance a number where a string is expected. Neither is `null` as distinct from an undefined field.
- The `maxLength` options on the Number paths `baseprice`, `discountedprice` and `stock`: Mongoose defines `maxLength` only for strings, so they validate nothing and are not modelled.
