# go-sqlc-starter: the order, cart, review, address and catalogue services in Dafny

This project models the service layer of a Go e-commerce back end that keeps
its data in PostgreSQL through sqlc-generated queries. It covers:

- **Orders.** Checkout turns the caller's cart into a PENDING order, inside one
  transaction. Orders then move through a status machine:
  - the customer may cancel a PENDING order;
  - the admin may move PAID to PROCESSING, and PROCESSING to SHIPPED with a
    receipt number;
  - the customer completes an order.
- **Carts.** One cart per user, with items whose quantity is set, incremented
  and decremented. A decrement that reaches zero is meant to remove the item.
  As written, the service hands the repository's row-id delete a product id,
  so the row stays at zero; the model keeps both versions (see Findings).
- **Reviews.** A review needs a completed purchase and is allowed once per
  product. Only its author may change or delete it.
- **Addresses.** A user has at most one primary address; setting a new primary
  clears the old one in the same transaction.
- **The catalogue.** Categories, brands and products: admin lists with paging
  and sorting, public lists, the patch-style product update, and the
  image-store orchestration of Create, Update and Delete with its
  compensating deletes. The older category service is modelled too.
- **The pure helpers the services use:**
  - slug generation and sort-parameter parsing;
  - Cloudinary public-id extraction and client-type detection;
  - the nullable-column helpers;
  - the application error type, its mapping to HTTP replies, and the
    validation-error mappers.
- **What the HTTP handlers decide themselves.** The order and product handlers:
  page and limit clamping, the pagination envelope, the required-field check,
  and the status each error is answered with.

**How the model is built.**

- **One module per Go file.** Each module is a Dafny file named after the Go
  file it models.
- **Services are classes.** A service that changes the database is a `class`
  whose `map` fields are its tables. Its methods state the new tables and the
  result for every path: success, each error, and each injected failure.
- **Transactions are snapshots.** A transaction is a snapshot of the tables
  that is put back when any step before the commit fails.
- **Failures are parameters.**
  - The failure of a repository call, a transaction step or an image-store call
    is a parameter (`Option<Error>` per step).
  - Rows returned by SQL that is not part of the model are parameters too, and
    so are generated ids, order numbers and slug suffixes.
- **Pure code becomes functions with lemmas.** Slug, sort, Cloudinary,
  platform, null helpers, error mapping, validation mapping and the admin
  transition rule are functions. Lemmas state their specifications:
  - a reference definition and idempotence for slugs;
  - round trips for UUIDs, strconv and client-type headers;
  - first-match rules for the validation mappers.
- **Money is whole cents.** Prices and totals are integers.
- **Go's integer conversions are explicit.** `int32(x)` and 64-bit `int`
  arithmetic wrap in the model as they do in Go.

## Model

| member | source | states |
|---|---|---|
| AppErrors.New | internal/pkg/apperror/error.go:18-24 | builds an AppError with nothing wrapped, whose Error() text is its message |
| AppErrors.Wrap | internal/pkg/apperror/error.go:27-34 | keeps the wrapped error, and Error() then reports the wrapped error's text instead of the message |
| AppErrors.ToHTTP | internal/pkg/apperror/http.go:12-37 | nil gives 200 with empty code and message; an AppError gives its own status, code text and message; any other error gives 500 INTERNAL_ERROR "internal server error" |
| AppErrors.ToHTTPWrappedLosesStatus | internal/pkg/apperror/http.go:22-36 | an AppError keeps its status through ToHTTP, but the same error wrapped with fmt.Errorf is answered 500 |
| AppErrors.InvalidField | internal/pkg/apperror/validation_error.go:5-11 | INVALID_INPUT, status 400, nothing wrapped, text "<field> is invalid" |
| AppErrors.RequiredField | internal/pkg/apperror/validation_error.go:13-19 | INVALID_INPUT, status 400, nothing wrapped, text "<field> is required" |
| AppErrors.MapValidationError | internal/pkg/apperror/validation_mapper.go:10-25 | the reply is 400 INVALID_INPUT; its message is the lower-cased name of the first failing field plus " is required" for the required tag, or " is invalid" for any other tag; a non-validator error gives "Invalid input" |
| AppErrors.MapValidationErrorFirstOnly | internal/pkg/apperror/validation_mapper.go:11-12 | field errors after the first one never change the result |
| Nulls.NewNullString | internal/dbgen/querier_helpers.go:9-20 | NULL exactly for the empty string; otherwise valid and carrying the input unchanged |
| Nulls.NewNullInt32 | internal/dbgen/querier_helpers.go:23-28 | always valid, carrying its argument |
| Nulls.NewNullBool | internal/dbgen/querier_helpers.go:30-32 | always valid, carrying its argument |
| Nulls.ToTextSpec | internal/dbgen/querier_helpers.go:34-45 | NULL exactly when the input is all white space; otherwise valid and carrying the untrimmed input |
| Nulls.ToTextStricter | internal/dbgen/querier_helpers.go:9-45 | a valid ToText is a valid NewNullString, and the two differ exactly on non-empty all-white-space input |
| Uuids.ParseSpec | internal/api/v1/cart/cart_service.go:48-54 | uuid.Parse succeeds exactly on the 36-character hyphenated form, yields a canonical lower-case value, and ignores letter case |
| Uuids.FormatParse | internal/api/v1/order/order_service.go:379-399 | printing a UUID and parsing the text gives the same UUID back |
| Uuids.ParseErrorText | internal/api/v1/address/address_controller.go:23-27 | the text sent back for a malformed id is "invalid UUID format" exactly when its UTF-8 byte length is one uuid.Parse knows; otherwise it is "invalid UUID length: " and that byte length |
| Uuids.ParseErrorCountsBytes | internal/api/v1/address/address_service.go:36-40 | the length in the error counts bytes, as Go's len does: a single "é" is reported as length 2 |
| Uuids.ParseErrorShortId | internal/api/v1/address/address_service.go:36-40 | the three-character id "abc" is refused with "invalid UUID length: 3" |
| Uuids.ParseOrNil | internal/api/v1/address/address_service.go:56 | a discarded parse error leaves uuid.Nil; a well-formed id gives its parsed value |
| Repo.FirstNonZeroIsFirst | internal/api/v1/category/category_service.go:58-63 | the total is 0 or the first non-zero window count; every count before it is 0, and a total of 0 means every count is 0 |
| Repo.FirstNonZeroAppend | internal/api/v1/category/category_service.go:58-63 | the `if total == 0 { total = row.TotalCount }` loop step: a non-zero total found earlier stays, and otherwise the new row's count is taken |
| Repo.UniformTotalsAgree | internal/api/v1/order/order_service.go:141-144 | when every row carries the same window count, the first-row, last-row and first-non-zero readings agree |
| Repo.PagingFor | internal/category/category_service.go:41-42 | limit and offset reach the query as int32; they are unchanged when they fit in 32 bits |
| Repo.OffsetWraps | internal/category/category_service.go:41 | page 214748366 with limit 10 reaches the query as the negative offset -2147483646 |
| Slugs.GenerateSlugSpec | internal/pkg/utils/slug.go:10-30 | GenerateSlug's five regex and trim stages equal the reference definition: the maximal [a-z0-9] runs of the lower-cased text, joined by '-' |
| Slugs.GenerateSlugCanonical | internal/pkg/utils/slug.go:13-27 | every slug holds only a-z, 0-9 and '-', does not start or end with '-', and has no "--" |
| Slugs.GenerateSlugEmpty | internal/pkg/utils/slug.go:16-23 | text with no letter or digit gives the empty slug |
| Slugs.GenerateSlugIdempotent | internal/pkg/utils/slug.go:10-30 | slugging a slug changes nothing |
| Slugs.DashedLower | internal/category/category_service.go:30 | the slug keeps the name's length; each space becomes '-' and each letter is lower-cased, so it holds no upper-case letter and no space |
| Slugs.DashedLowerKeepsRuns | internal/category/category_service.go:30 | two spaces in a row give "--", so the result need not be a canonical slug |
| SortParser.ToSnakeCase | internal/pkg/httpx/sort_parser.go:44-53 | the appending loop yields the snake_case form; the result has no upper-case letter and is one character longer per upper-case letter after the first position |
| SortParser.SnakeLength | internal/pkg/httpx/sort_parser.go:47-50 | output length = input length + upper-case letters after position 0 |
| SortParser.SnakeNoUpper | internal/pkg/httpx/sort_parser.go:45-52 | no prefix of the output holds an upper-case letter |
| SortParser.SnakeIdentity | internal/pkg/httpx/sort_parser.go:45-52 | on text without upper-case letters, every prefix of the output is the same prefix of the input |
| SortParser.SnakeOfLower | internal/pkg/httpx/sort_parser.go:44-53 | toSnakeCase is the identity on text without upper-case letters |
| SortParser.ParseSortSpec | internal/pkg/httpx/sort_parser.go:18-41 | a legacy value with exactly one ':' wins, giving the snake-cased left part and the lower-cased right part; any other legacy value is ignored, and sort_col (verbatim) and sort_dir fall back to the defaults; the direction is always lower-case |
| Platform.HeaderRoundTrip | internal/pkg/platform/client.go:16-26 | sending a client type's own name as the header, in any letter case, yields that client type whatever the User-Agent |
| Platform.ResolveSpec | internal/pkg/platform/client.go:15-38 | WebAdmin exactly for the web-admin header; without a known header, a React Native, Expo or OkHttp User-Agent gives Mobile and anything else WebCustomer |
| Platform.IsWebClientSpec | internal/pkg/platform/client.go:40-42 | IsWebClient holds exactly for the client types other than Mobile |
| Cloudinary.ExtractFailures | internal/api/v1/cloudinary/cloudinary_service.go:80-92 | "invalid cloudinary url" exactly when the path does not split on "/image/upload/" into two parts; "invalid cloudinary path" exactly when the remainder has no '/'; success otherwise |
| Cloudinary.ExtractSuccess | internal/api/v1/cloudinary/cloudinary_service.go:83-95 | a successful extraction has split the path into exactly two parts at the marker and read the id from the second |
| Cloudinary.IdAfterMarkerValue | internal/api/v1/cloudinary/cloudinary_service.go:89-95 | the public id with the extension put back is the remainder after the first '/' |
| Cloudinary.ExtractDecomposition | internal/api/v1/cloudinary/cloudinary_service.go:72-99 | a successful path is prefix + "/image/upload/" + a version without '/' + "/" + the id + the extension, with no other marker |
| Cloudinary.NoExtensionKept | internal/api/v1/cloudinary/cloudinary_service.go:95 | a remainder without an extension is returned as it is once the version is dropped |
| Cloudinary.ExtractExample | internal/api/v1/cloudinary/cloudinary_service.go:72-99 | ".../image/upload/v17/shop/phone.png" gives "shop/phone": version segment and extension dropped, folder kept |
| CartValidation.FieldRule | internal/api/v1/cart/errors/cart_validation.go:10-20 | ProductID and Price give ErrInvalidCartInput; Qty gives ErrQtyMustBeGreaterThanZero for the min tag and ErrInvalidQty otherwise; every other field is skipped |
| CartValidation.MapFieldErrors | internal/api/v1/cart/errors/cart_validation.go:8-25 | the result is always one of the three cart errors, each answered 400 |
| CartValidation.MapValidationError | internal/api/v1/cart/errors/cart_validation.go:5-26 | always a cart error; a non-validator error gives ErrInvalidCartInput |
| CartValidation.FirstKnownDecides | internal/api/v1/cart/errors/cart_validation.go:8-22 | the first known field in list order decides, whatever comes after it |
| CartValidation.NoKnownField | internal/api/v1/cart/errors/cart_validation.go:25 | a list without a known field gives ErrInvalidCartInput |
| Carts.ParseUserID | internal/api/v1/cart/cart_service.go:48-54 | succeeds exactly on a well-formed id, giving its canonical UUID; otherwise ErrInvalidUserID |
| Carts.ParseProductID | internal/api/v1/cart/cart_service.go:56-62 | succeeds exactly on a well-formed id, giving its canonical UUID; otherwise ErrInvalidProductID |
| Carts.FindProduct | internal/api/v1/cart/cart_service.go:192-196 | the first row of the product, or None exactly when no row has it |
| Carts.RemoveProduct | internal/api/v1/cart/cart_service.go:286 | exactly the rows of other products remain |
| Carts.AddQty | internal/api/v1/cart/cart_service.go:192-196 | only the chosen row changes, and its quantity moves by the given amount |
| Carts.DecrementLeavesPositive | internal/api/v1/cart/cart_service.go:253-267 | with the delete corrected to remove the product's rows: a decrement that reports no error leaves the product with a positive quantity or no row; a miss is ErrCartItemNotFound; any other update error is swallowed, so only the delete's error can be reported |
| Carts.Details | internal/api/v1/cart/cart_service.go:126-137 | one response item per row, in row order |
| Carts.CartService.CartOnly | internal/api/v1/cart/cart_service.go:64-73 | the user's cart; a missing cart is ErrCartNotFound, any other lookup error passes through |
| Carts.CartService.GetOrCreateCart | internal/api/v1/cart/cart_service.go:75-86 | an existing cart is reused and nothing is created; a cart is created only when the lookup fails; item rows are untouched |
| Carts.CartService.Create | internal/api/v1/cart/cart_service.go:92-99 | a malformed user id is refused with nothing changed; on success the user has a cart and no second one was made |
| Carts.CartService.Count | internal/api/v1/cart/cart_service.go:101-113 | the number of rows in the user's cart; a malformed id or a missing cart is refused |
| Carts.CartService.Detail | internal/api/v1/cart/cart_service.go:115-138 | a malformed id is refused; otherwise one item per row of the user's cart, in order |
| Carts.CartService.AddItem | internal/api/v1/cart/cart_service.go:140-166 | validation, then the user id, then the product id are checked before any write; an existing cart is reused, otherwise a cart is created for this user only and a create error is returned as is; the insert's error is returned as is, with the created cart kept; on success exactly one row is appended to that cart |
| Carts.CartService.UpdateRow | internal/api/v1/cart/cart_service.go:192-200 | the product's first row moves by the delta and is returned; a miss is ErrNoRows with nothing changed |
| Carts.CartService.Target | internal/api/v1/cart/cart_service.go:177-190 | the user id, then the product id, then the cart lookup, in that order |
| Carts.CartService.Bump | internal/api/v1/cart/cart_service.go:192-202 | a missing item is ErrCartItemNotFound with nothing changed; otherwise only the product's row moves |
| Carts.CartService.UpdateQty | internal/api/v1/cart/cart_service.go:168-203 | a validation failure or a quantity of 0 or less is refused before the repository is reached; otherwise the quantity is added to the product's row; an update error of ErrNoRows is ErrCartItemNotFound and any other passes through with nothing changed |
| Carts.CartService.Increment | internal/api/v1/cart/cart_service.go:205-233 | one more of the product in its row; a missing item or an ErrNoRows update is ErrCartItemNotFound, and any other update error passes through with nothing changed |
| Carts.CartService.Decrement | internal/api/v1/cart/cart_service.go:235-268 | one less of the product, and, with the corrected delete, the row is removed once its quantity is 0 or less |
| Carts.CartService.DecrementIn | internal/api/v1/cart/cart_service.go:253-267 | the update-then-maybe-delete sequence on a known cart, stated by DecrementRows with the corrected delete |
| Carts.CartService.DeleteRows | internal/api/v1/cart/cart_service.go:286 | the corrected DeleteCartItem call: on success no row of the product remains in the cart |
| Carts.CartService.DeleteItem | internal/api/v1/cart/cart_service.go:270-287 | with the corrected delete, every row of the product leaves the user's cart, or nothing changes on failure |
| Carts.CartService.Delete | internal/api/v1/cart/cart_service.go:289-301 | the user's cart and all its rows go; on any failure nothing changes |
| Carts.RemoveRowId | internal/api/v1/cart/cart_repo.go:57-62 | DeleteCartItem as the repository runs it: exactly the rows whose own id differs from the argument remain |
| Carts.RemoveRowIdMiss | internal/api/v1/cart/cart_service.go:270-287 | as written, DeleteItem removes nothing from a cart none of whose row ids equals the product id |
| Carts.DecrementAsWrittenKeepsZeroRow | internal/api/v1/cart/cart_service.go:253-267 | as written, decrementing a product held once reports success and leaves its row at quantity zero, while the corrected decrement leaves it no row |
| Carts.DecrementAsWrittenExample | internal/api/v1/cart/cart_service.go:264 | a one-row cart with one unit: the as-written decrement keeps the row at quantity zero |
| Carts.AddQtyKeepsValid | internal/api/v1/cart/cart_service.go:192-196 | changing quantities or dropping rows keeps every stored product id canonical |
| Carts.FindProductAfterAddQty | internal/api/v1/cart/cart_service.go:192-196 | after a quantity change the product's first row is the same row |
| Orders.SumTotal | internal/api/v1/order/order_service.go:73-77 | the running-sum loop gives Σ price × qty over the cart lines |
| Orders.ItemFor | internal/api/v1/order/order_service.go:96-105 | an item row keeps the line's quantity and unit price, and its line total is price × qty |
| Orders.ItemsFor | internal/api/v1/order/order_service.go:96-110 | one item row per cart line, in cart order |
| Orders.OrderTotalMatchesLines | internal/api/v1/order/order_service.go:73-110 | the order total equals the sum of its items' line totals |
| Orders.TotalNonNegative | internal/api/v1/order/order_service.go:73-77 | no negative price or quantity means no negative total |
| Orders.ItemsKeepProducts | internal/api/v1/order/order_service.go:96-105 | each item's product id, printed by the cart and parsed back, is the cart row's product |
| Orders.NewOrder | internal/api/v1/order/order_service.go:83-89 | a new order is PENDING, carries the computed total and has no receipt number |
| Orders.MapOrder | internal/api/v1/order/order_service.go:379-399 | the response carries the order's id, number, status and total, and one item per item row in order |
| Orders.MapOrderIdentifies | internal/api/v1/order/order_service.go:379-399 | the response id parses back to the order's UUID |
| Orders.AdminTransition | internal/api/v1/order/order_service.go:313-328 | allowed exactly for PAID to PROCESSING, and PROCESSING to SHIPPED with a non-empty receipt; ErrReceiptRequired exactly for PROCESSING to SHIPPED without one; ErrInvalidStatusTransition otherwise |
| Orders.AdminNeverCompletes | internal/api/v1/order/order_service.go:313-328 | the admin can never set COMPLETED, CANCELLED or PENDING |
| Orders.MapRows | internal/api/v1/order/order_service.go:141-144 | one response per row in order, and the total read from the last row (0 with no rows) |
| Orders.AdminFilterFor | internal/api/v1/order/order_service.go:158-164 | int32 paging; status and search are NULL exactly when blank |
| Orders.OrderService.InsertItems | internal/api/v1/order/order_service.go:96-110 | the item loop stops at the first failing insert; when none fails the order gets one row per cart line |
| Orders.OrderService.Checkout | internal/api/v1/order/order_service.go:48-126 | an empty cart is ErrCartEmpty and nothing is written; a failed insert or commit is ErrOrderFailed; a failed cart delete is the wrapped "failed to clear cart" error; any failure leaves no order or item; success stores one PENDING order with the cart's total and one item per line; the cart is already gone when the commit fails |
| Orders.OrderService.PlaceOrder | internal/api/v1/order/order_service.go:78-126 | the transaction part of Checkout, with the same outcomes per failing step |
| Orders.OrderService.OpenOrder | internal/api/v1/order/order_service.go:58-110 | begin, order insert and item inserts succeed together or leave the order store as it was; a taken order id counts as a failed insert |
| Orders.OrderService.ClearAndCommit | internal/api/v1/order/order_service.go:112-125 | a failed cart delete is the wrapped "failed to clear cart" error, a failed commit ErrOrderFailed, both roll the order store back; the cart is deleted whenever its delete succeeded |
| Orders.OrderService.PlaceAtomically | internal/api/v1/order/order_service.go:78-126 | the corrected transaction: a failure of any step restores the order store and the cart together |
| Orders.OrderService.CheckoutAtomic | internal/api/v1/order/order_service.go:78-126 | Checkout with the cart delete inside the transaction: any failure leaves orders, items and the cart as they were |
| Orders.OrderService.Cancel | internal/api/v1/order/order_service.go:214-252 | only a PENDING order becomes CANCELLED; any other status is ErrCannotCancel with no write; there is no owner check |
| Orders.OrderService.UpdateStatusByAdmin | internal/api/v1/order/order_service.go:293-341 | a missing order is ErrOrderNotFound; AdminTransition decides; the receipt is never stored; a success is an allowed admin move |
| Orders.OrderService.UpdateStatusByCustomer | internal/api/v1/order/order_service.go:344-376 | a non-owner gets ErrUnauthorized with no write; the owner's requested status is written whatever the current status |
| Orders.OrderService.CompleteChecked | internal/api/v1/order/order_service.go:344-376 | a success means the caller owns a SHIPPED order that is now COMPLETED; the owner of an order in any other status gets ErrInvalidStatusTransition |
| Orders.OrderService.Detail | internal/api/v1/order/order_service.go:191-210 | a malformed id is ErrInvalidOrderID and a failed read ErrOrderNotFound; otherwise the order with all its item rows |
| Orders.OrderService.List | internal/api/v1/order/order_service.go:129-155 | asks for the caller (uuid.Nil when the id does not parse) with int32 paging; one response per row and the last row's total |
| Orders.OrderService.ListAdmin | internal/api/v1/order/order_service.go:157-188 | the blank-aware filter, one response per row, the last row's total |
| OrderController.Atoi | internal/api/v1/order/order_controller.go:78-79 | `n, _ := strconv.Atoi(s)` always lies in the int64 range |
| OrderController.AtoiNonNumeric | internal/api/v1/order/order_controller.go:78-79 | a string whose digits do not start right after an optional sign reads as 0 |
| OrderController.AtoiItoa | internal/api/v1/order/order_controller.go:78-79 | Atoi reads back every int64 that Itoa writes |
| OrderController.Clamp | internal/api/v1/order/order_controller.go:80-86 | page and limit stay in range; page is kept exactly when at least 1; limit is kept exactly when in [1,100] and otherwise becomes the fallback |
| OrderController.CustomerPaging | internal/api/v1/order/order_controller.go:78-86 | the customer list always gets a page of at least 1 and a limit in [1,100] |
| OrderController.AdminPaging | internal/api/v1/order/order_controller.go:159-167 | the admin list always gets a page of at least 1 and a limit in [1,100] |
| OrderController.ClampIdempotent | internal/api/v1/order/order_controller.go:80-86 | clamping a clamped pair changes nothing |
| OrderController.PagingKeepsInRange | internal/api/v1/order/order_controller.go:78-86 | in-range page and limit pass through both handlers unchanged |
| OrderController.PagingDefaults | internal/api/v1/order/order_controller.go:159-167 | absent or non-numeric values give page 1, with limit 10 for customers and 20 for admins |
| OrderController.Checkout | internal/api/v1/order/order_controller.go:25-61 | without a user in the context the reply is 401; a body that does not bind is 400; otherwise the service's order is sent with 201, or its error is answered through ToHTTP |
| OrderController.CheckoutSkipsServiceWithoutUser | internal/api/v1/order/order_controller.go:28-38 | an unauthenticated checkout does not depend on the service |
| OrderController.List | internal/api/v1/order/order_controller.go:65-108 | the service gets the clamped page and limit; the envelope echoes them with the service's total; errors go through ToHTTP |
| OrderController.ListAdmin | internal/api/v1/order/order_controller.go:155-192 | as List, with the admin fallback and the status and search echoed |
| OrderController.ListEchoesInRange | internal/api/v1/order/order_controller.go:100-107 | for in-range page and limit, the envelope reports exactly them and the service's total |
| OrderController.ById | internal/api/v1/order/order_controller.go:112-149 | an empty id is a 400 before the service is reached; otherwise the service's value is sent with 200, or its error is answered through ToHTTP |
| OrderController.CustomerStatusCall | internal/api/v1/order/order_controller.go:214-229 | the customer endpoint always asks for COMPLETED; an unparsable user id becomes uuid.Nil |
| OrderController.StatusReply | internal/api/v1/order/order_controller.go:204-210 | every service error becomes a bare 400 carrying the error text |
| OrderController.StatusReplyNotFoundIs400 | internal/api/v1/order/order_controller.go:204-208 | a missing order is answered 400 although its own status is 404 |
| OrderController.StatusReplyMapped | internal/api/v1/order/order_controller.go:204-208 | each application error is answered with its own HTTP status |
| OrderController.StatusReplyMappedAgrees | internal/api/v1/order/order_controller_test.go:566-586 | the mapped reply answers a missing order with 404 and agrees with StatusReply on every 400 error and on success |
| OrderController.UpdateStatusByAdmin | internal/api/v1/order/order_controller.go:196-211 | a body that does not bind is a bare 400; otherwise the status reply of the service |
| Reviews.RatingTag | internal/api/v1/review/review_dto.go:8 | the rating passes exactly when it is in [1,5] |
| Reviews.CommentTag | internal/api/v1/review/review_dto.go:9 | the comment passes exactly when it has 10 to 1000 characters |
| Reviews.FieldErrorsOf | internal/api/v1/review/review_dto.go:8-9 | no field error exactly when both fields pass; a bad rating is listed first |
| Reviews.Validate | internal/api/v1/review/review_service.go:50-52 | the request is accepted exactly for a rating in [1,5] and a comment of 10 to 1000 characters; a rejection is a 400 |
| Reviews.ValidateReportsRatingFirst | internal/api/v1/review/review_service.go:50-52 | a bad rating is the one reported: "rating is required" for 0, "rating is invalid" otherwise |
| Reviews.Window | internal/api/v1/review/review_service.go:130-135 | page below 1 becomes 1 and a limit outside [1,50] becomes 10; in-range values are kept |
| Reviews.WindowIdempotent | internal/api/v1/review/review_service.go:130-135 | normalising a normalised window changes nothing |
| Reviews.MapReviewRows | internal/api/v1/review/review_service.go:161-173 | one response per row, in order |
| Reviews.MapUserRows | internal/api/v1/review/review_service.go:212-223 | one response per row, in order |
| Reviews.ReviewService.CreateCheck | internal/api/v1/review/review_service.go:49-90 | Create's guards pass exactly for a valid request, a parsable user, an existing product, no earlier review, a purchase and a completed order, which is the one cited |
| Reviews.ReviewService.CreateGuardOrder | internal/api/v1/review/review_service.go:69-90 | an existing review wins over a missing purchase, which wins over a missing completed order |
| Reviews.ReviewService.Create | internal/api/v1/review/review_service.go:49-126 | a refused guard writes nothing; a failed transaction writes nothing; otherwise one verified-purchase review citing the completed order is stored |
| Reviews.ReviewService.Insert | internal/api/v1/review/review_service.go:92-125 | the transaction of Create: all or nothing |
| Reviews.ReviewService.CheckEligibility | internal/api/v1/review/review_service.go:234-295 | an empty user id is answered at once with CanReview false; CanReview holds exactly when not reviewed and purchased; already reviewed implies purchased |
| Reviews.ReviewService.EligibilityAgreesWithCreate | internal/api/v1/review/review_service.go:234-295 | an eligible user is refused by Create only for a missing completed order; Create's refusals for an existing review or a missing purchase are reported as such by CheckEligibility |
| Reviews.ReviewService.Owned | internal/api/v1/review/review_service.go:303-325 | the review exists and the caller wrote it; a miss is ErrReviewNotFound, another read failure ErrReviewFailed, another author ErrUnauthorizedReview |
| Reviews.ReviewService.Update | internal/api/v1/review/review_service.go:298-358 | validation, then the owner guard, before any write; on success only rating and comment change |
| Reviews.ReviewService.Delete | internal/api/v1/review/review_service.go:361-407 | the owner guard before any write; on success exactly that review is gone |
| Reviews.ReviewService.GetByProductSlug | internal/api/v1/review/review_service.go:129-181 | a missing product is ErrProductNotFound; the query gets the normalised window; the reply echoes it with the count and one response per row |
| Reviews.ReviewService.GetByUserID | internal/api/v1/review/review_service.go:184-231 | a malformed user id is refused; otherwise as GetByProductSlug |
| Addresses.ResponseEchoesRequest | internal/api/v1/address/address_service.go:144-159 | a written address reads back as its request, with blank optional fields empty |
| Addresses.Unset | internal/api/v1/address/address_service.go:66-70 | every address of the user loses its primary flag, and no other address changes |
| Addresses.PutKeepsOnePrimary | internal/api/v1/address/address_service.go:66-84 | writing one's own address keeps at most one primary per user |
| Addresses.PutNonPrimaryIsLocal | internal/api/v1/address/address_service.go:66 | a non-primary write touches no other address |
| Addresses.TxError | internal/api/v1/address/address_service.go:58-91 | the write succeeds exactly when begin, the unset (for a primary), the write and the commit all succeed and the row exists |
| Addresses.AdminWindow | internal/api/v1/address/address_service.go:201-206 | page 0 or less becomes 1 and limit 0 or less becomes 20; positive values are kept; there is no upper bound |
| Addresses.AddressService.Write | internal/api/v1/address/address_service.go:58-91 | the unset and the write commit together, or the store is as before |
| Addresses.AddressService.Create | internal/api/v1/address/address_service.go:55-94 | the new address is stored with the caller's other primaries cleared, or nothing changes; one primary per user is kept |
| Addresses.AddressService.Update | internal/api/v1/address/address_service.go:96-136 | the caller's primaries are cleared and then the row is written by id alone, whoever owns it |
| Addresses.AddressService.UpdateOwned | internal/api/v1/address/address_service.go:96-136 | writing only the caller's own address keeps one primary per user |
| Addresses.AddressService.Delete | internal/api/v1/address/address_service.go:138-142 | only a row matching both the address id and the caller goes; other users' addresses are untouched |
| Addresses.AddressService.List | internal/api/v1/address/address_service.go:36-53 | a malformed user id is uuid.Parse's error, whose text depends on the id's length; otherwise one response per row, in order |
| Addresses.AddressService.ListAdmin | internal/api/v1/address/address_service.go:195-226 | the defaulted window in int32, one response per row, and the last row's total (0 with no rows) |
| Addresses.UpdateAsWrittenBreaksOnePrimary | internal/api/v1/address/address_service.go:108-126 | a caller marking another user's address primary leaves that user with two primaries |
| Catalog.ResponseOf | internal/api/v1/category/category_service.go:308-316 | the reply copies id, name, slug and image URL, and always has an empty description and isActive false |
| Catalog.NameTag | internal/api/v1/category/category_dto.go:9 | the name passes exactly with 2 to 100 characters |
| Catalog.Rejection | internal/api/v1/category/category_service.go:136-138 | a request is refused exactly when the validator reports a field error |
| Catalog.CreateValidation | internal/api/v1/category/category_dto.go:9-11 | accepted exactly for a 2-100 character name, a description of at most 500 and an empty or valid image URL; a bad name is the one reported |
| Catalog.NameReported | internal/api/v1/category/category_dto.go:9 | a bad name is the first field error, so the reply reads "name is required" for an empty name and "name is invalid" otherwise |
| Catalog.UpdateNeedsActiveFlag | internal/api/v1/category/category_dto.go:18 | an update without is_active is always refused |
| Catalog.UpdatePlan | internal/api/v1/category/category_service.go:197-269 | an update that goes through had a parsable id of a stored row |
| Catalog.DeletePlan | internal/api/v1/category/category_service.go:271-297 | a delete that goes through had a parsable id of a stored row |
| Catalog.CreateWithoutFile | internal/api/v1/category/category_service.go:157-182 | without a file the image store is never called and no URL is stored |
| Catalog.CreateUploadFailure | internal/api/v1/category/category_service.go:162-166 | a failed upload is ErrImageUploadFailed after exactly one upload, and the insert is rolled back |
| Catalog.CreateCommitFailure | internal/api/v1/category/category_service.go:185-192 | a failed commit after an upload deletes that upload; category reports ErrImageDeleteFailed, brand ErrBrandFailed |
| Catalog.CreateAttachFailure | internal/api/v1/brand/brand_service.go:171-175 | a failed URL update deletes the upload; brand reports ErrImageDeleteFailed, category ErrImageUploadFailed |
| Catalog.FailedCreateCleansUp | internal/api/v1/category/category_service.go:162-192 | a failed Create that uploaded an image ends by deleting that upload |
| Catalog.CreateStoresUploadedURL | internal/api/v1/category/category_service.go:157-194 | a successful Create makes exactly one upload and stores its URL |
| Catalog.UpdateWithoutFileKeepsImage | internal/api/v1/category/category_service.go:251-253 | without a file the stored image URL is kept and the image store is not called |
| Catalog.UpdateUploadFailure | internal/api/v1/category/category_service.go:221-248 | with a file, the old image is deleted first, whatever that reports; a failed upload then aborts before the row is written |
| Catalog.UpdateWriteFailure | internal/api/v1/brand/brand_service.go:243-258 | a failed write is the driver error for categories and ErrBrandFailed for brands |
| Catalog.DeleteImageFailureKeepsRow | internal/api/v1/category/category_service.go:284-296 | when deleting the image fails, that error is returned and the row is kept |
| Catalog.DeleteRemovesImageFirst | internal/api/v1/brand/brand_service.go:276-288 | a row is soft-deleted only after its image, if any, was deleted by its public id |
| Catalog.DeleteStoredSuccess | internal/api/v1/category/category_service.go:283-296 | once the row is read, Delete succeeds only if the image, when there is one, was destroyed by its public id and the write succeeded |
| Catalog.CatalogService.GetByID | internal/api/v1/category/category_service.go:123-133 | a malformed id gives ErrInvalidUUID; any repository error is reported as not found; otherwise the stored row's reply |
| Catalog.CatalogService.Create | internal/api/v1/category/category_service.go:135-195 | the row is stored exactly when the plan succeeds, with the uploaded URL; the image-store calls are the plan's |
| Catalog.CatalogService.AttachImage | internal/api/v1/category/category_service.go:157-192 | the upload, URL write and commit, call by call, are the plan's upload step: a failed URL write or a failed commit after a non-empty URL deletes the upload |
| Catalog.CatalogService.ReplaceImageOf | internal/api/v1/category/category_service.go:218-253 | the image step, call by call, is the plan's |
| Catalog.CatalogService.Update | internal/api/v1/category/category_service.go:197-269 | the row is rewritten exactly when the plan succeeds, keeping its stored active flag |
| Catalog.CatalogService.Delete | internal/api/v1/category/category_service.go:271-297 | the row is soft-deleted exactly when the plan succeeds |
| Catalog.CatalogService.DeleteStoredOf | internal/api/v1/category/category_service.go:283-296 | the image delete and the soft delete, call by call, are the plan's |
| Catalog.CatalogService.Restore | internal/api/v1/category/category_service.go:299-306 | a malformed id returns the parse error; otherwise the deletion mark is cleared and the row returned |
| Catalog.SortOf | internal/api/v1/category/category_service.go:88-98 | both halves of the sort are lower-case |
| Catalog.SortOfSpec | internal/api/v1/category/category_service.go:88-98 | exactly one ':' gives the lower-cased column and direction around it; anything else gives created_at desc |
| Catalog.AdminQueryFor | internal/api/v1/category/category_service.go:78-98 | a limit below 1 becomes 10; a negative offset becomes 0; in-range values are kept; the brand offset is never negative |
| Catalog.AdminOffset | internal/api/v1/category/category_service.go:82-85 | the offset is (page-1)*limit whenever that fits in int32 and is not negative, 0 whenever it is negative but fits; for brands it is never negative |
| Catalog.AdminOffsetNarrowing | internal/api/v1/brand/brand_service.go:74-81 | a far page reaches the category query as a negative offset but the brand query as 0 |
| Catalog.ListAdmin | internal/api/v1/category/category_service.go:76-121 | the normalised query, one response per row in order, the first row's total |
| Catalog.ListPublic | internal/api/v1/category/category_service.go:51-72 | unnormalised paging, one response per row, the first non-zero total |
| Products.ProductSlug | internal/api/v1/product/product_service.go:105 | the slug is the dashed, lower-cased name, a '-' and the five-character suffix |
| Products.MergeRules | internal/api/v1/product/product_service.go:164-200 | each field changes only when supplied: texts when non-empty, price when positive, stock when non-zero, the flag when present, the category when it parses; id, slug and image never change |
| Products.MergeEmpty | internal/api/v1/product/product_service.go:164-200 | an empty request writes the row back unchanged |
| Products.MergeIdempotent | internal/api/v1/product/product_service.go:164-200 | applying a request twice writes what applying it once does |
| Products.MergeSigns | internal/api/v1/product/product_service.go:186-191 | a negative stock is written as given, a negative price is ignored |
| Products.CategoryFilter | internal/api/v1/product/product_service.go:55 | the category filter is set exactly when the id parses |
| Products.PublicQueryFor | internal/api/v1/product/product_service.go:38-59 | a zero maximum price becomes 999999999.00; the category filter only for a parsable id; int32 paging |
| Products.ListPublic | internal/api/v1/product/product_service.go:38-67 | one response per row, the first non-zero total |
| Products.ListAdmin | internal/api/v1/product/product_service.go:69-92 | the query and one response per row, the first non-zero total |
| Products.ProductService.GetByIDAdmin | internal/api/v1/product/product_service.go:126-149 | a malformed id is "invalid product id"; a miss is sql.ErrNoRows; otherwise the stored row in its category |
| Products.ProductService.Create | internal/api/v1/product/product_service.go:94-124 | a malformed category id, then a missing category, refuse before any insert; success stores the row and reads it back |
| Products.ProductService.Update | internal/api/v1/product/product_service.go:151-210 | a missing product is "product not found" with no write; success writes the merged row |
| Products.ProductService.Delete | internal/api/v1/product/product_service.go:212-218 | soft delete by id; an unknown id is no error and changes nothing |
| Products.ProductService.Restore | internal/api/v1/product/product_service.go:220-232 | clears the deletion mark and reads the row back |
| Products.CreateReadsBack | internal/api/v1/product/product_service.go:105-123 | a created product reads back with its name, slug, price, stock, sku, category name and the active flag |
| ProductController.MakePagination | internal/api/v1/product/product_controller.go:321-333 | total, page and page size are echoed; a limit of 0 or less gives 0 pages |
| ProductController.PagesCoverTotal | internal/api/v1/product/product_controller.go:324 | the page count is the ceiling of total / limit: enough pages for every row and none to spare |
| ProductController.GetPublicList | internal/api/v1/product/product_controller.go:24-63 | page and limit default to 1 and 10 without a clamp; the path category wins over the query one; the sort defaults to newest; a failure is FETCH_ERROR 500 |
| ProductController.PublicListDefaults | internal/api/v1/product/product_controller.go:24-63 | with no query the envelope reports page 1 of size 10 |
| ProductController.Create | internal/api/v1/product/product_controller.go:102-180 | a bad price, then a bad stock, then a missing field are refused with 400 before the service; success is 201; service errors go through ToHTTP |
| ProductController.CreateSkipsServiceWhenMissing | internal/api/v1/product/product_controller.go:146-155 | without every required field the service is not called |
| ProductController.ZeroStockRefused | internal/api/v1/product/product_controller.go:146-155 | a zero stock counts as missing |
| ProductController.GetByID | internal/api/v1/product/product_controller.go:183-197 | every service error is a 404, success a 200 |
| ProductController.GetByIDHidesServerErrors | internal/api/v1/product/product_controller.go:184-195 | an internal 500 error still reaches the client as 404 |
| LegacyCategory.FieldsOf | internal/category/category_service.go:30 | the slug is the dashed, lower-cased name; description and image are NULL when empty |
| LegacyCategory.Create | internal/category/category_service.go:29-38 | one insert of those fields; the reply maps the returned row with its error |
| LegacyCategory.GetByID | internal/category/category_service.go:62-69 | a malformed id is the parse error before any repository call |
| LegacyCategory.Update | internal/category/category_service.go:71-86 | a malformed id is the parse error; otherwise the same fields as Create under the parsed id |
| LegacyCategory.Delete | internal/category/category_service.go:88-94 | a malformed id is the parse error; otherwise the repository's error |
| LegacyCategory.Restore | internal/category/category_service.go:96-103 | a malformed id is the parse error; otherwise the restore call's reply |
| LegacyCategory.SlugDerivedAlike | internal/category/category_service.go:30-77 | Create and Update derive the same slug from the same name; it keeps the name's length and has no upper-case letter or space |
| LegacyCategory.SlugCollision | internal/category/category_service.go:30 | "Smart Phone" and "smart-phone" get the same slug |
| LegacyCategory.ParseErrorBeforeRepo | internal/category/category_service.go:63-92 | a malformed id reaches no repository on any by-id operation |
| LegacyCategory.GetByIDAsksForTheId | internal/category/category_service.go:62-69 | a printed id read back asks for that same id |
| LegacyCategory.RowResponse | internal/category/category_service.go:53-57 | a listed row's response has a zero creation time |
| LegacyCategory.GetAll | internal/category/category_service.go:40-60 | int32 paging; one response per row in order; the first non-zero total |
| LegacyCategory.FirstPagePaging | internal/category/category_service.go:41-42 | page 1 of 10 asks for ten rows from offset 0 |

## Left out

- HTTP plumbing is left out: gin binding, context keys, JSON envelopes, routing, server start-up and shutdown, authentication, JWT, the audit loggers and the seeders. The controllers are modelled only for what they decide themselves.
- The SQL behind the repositories is not part of the model. Each repository is a map or a given list of rows; each call's failure is a parameter.
- Cloudinary uploads and deletes are network calls. They are modelled as calls the service makes, with an injected outcome.
- Cloudinary.ExtractPublicID takes the URL path: `url.Parse` is a library call. The folder argument is never read by the Go function.
- Floating point is left out: prices and totals are whole cents. `"%.2f"`, `strconv.ParseFloat`, `fmt.Sscanf` and the review repository's rating type switch are not modelled.
- Generated values are inputs: uuid.New, the order number, the slug suffix and timestamps.
- Transaction isolation and concurrent status updates are not modelled. Each transaction is an atomic commit or restore.
- Letter-case folding is ASCII only, whereas Go's strings.ToLower is Unicode-aware.
- uuid.Parse is modelled on the 36-character hyphenated form only. Go also accepts the urn:uuid: prefix, braces and the 32-digit form.
- Uuids.ParseError: a malformed id of 32, 36, 38 or 45 bytes gets "invalid UUID format". Go gives some of those layouts a more specific text (a bad urn prefix, a bad hex digit with its position); those texts are not modelled.
- The code and message of ErrInvalidUserID come from an auth errors package that is not part of this model. They are assumed.
- The validator's `url` check is the `urlOk` parameter.
- Carts.CartService.UpdateQty: the SQL of UpdateCartItemQty is not shown. The model follows the comments at cart_service.go:221 and 251-252 and adds the passed quantity to the row, so UpdateQty is additive.
- Carts.CartService.AddItem appends a new row. Whether the SQL merges with an existing row of the product is not visible.
- Orders.OrderService.Checkout: the address snapshot is a function of the address id. Reading the address table is not modelled.
- Orders.OrderService.List: the order rows the SQL returns are given, not computed from the store.
- Addresses.AddressService.Delete removes the row from the map. Go calls SoftDeleteAddress; the unseen SQL queries, UnsetPrimaryByUser among them, are taken to skip deleted rows.
- Carts.CartService.GetOrCreateCart: when the lookup fails with an error other than ErrNoRows, Go creates a cart even if the user has one. The map holds one cart per user, so the model replaces the old one; it cannot express two carts for a user.
- Carts.CartService.AddItem and UpdateQty: the `invalid` parameter stands for the validator's verdict. The cart request types carry only `binding:` tags, which validator.New().Struct does not read, so in Go that verdict is always a pass.
- Reviews.ReviewService.Delete removes the row from the map. The Go code marks it deleted, and the unseen SQL queries are taken to skip deleted rows.
- Reviews.ReviewService.GetByProductSlug: the author names and the count come from queries this model does not see; they are inputs.
- Catalog.CatalogService.GetByID does not model the SQL's filtering of deleted rows.
- Catalog.CatalogService.Create takes the table's default for is_active to be true; the schema is not part of this model.
- Catalog.CatalogService.Create: the compensating delete uses the file name without the upload folder, as the Go code does. The folder constant is not part of this model.
- Catalog.AdminQueryFor: the category request DTO has no Sort field, although category_service.go:92 reads one. It has no Slug field either, although category_service.go:148 reads one. The model follows the service code in both cases.
- Products.ProductService.GetByIDAdmin: the join SQL is not part of this model. A product whose category row is missing is taken to be found with an empty category name; an inner join would report it as not found instead.
- Products.ProductService.Create takes the table's default for is_active to be true.
- LegacyCategory.GetAll leaves CreatedAt at its zero value, as the Go code does.
- ProductController.Create: the controller calls a product service signature that differs from the one product_service.go defines. The model passes the request it builds to a service parameter.
- ProductController.Create: the multipart file handling and its INVALID_FORM and FILE_ERROR replies are not modelled.
- ProductController.Create: the int32 range check of Sscanf is folded into the Malformed case of a form number.
- ProductController.GetPublicList does not parse prices: min_price and max_price are float query values, so they are left at 0.
- The remaining product handlers (GetAdminList, GetBySlug, Update, Delete, Restore) are not modelled. They only bind the request and pass it to the service.
- OrderController.CustomerStatusCall: the handler panics when user_id is missing from the context, because of an unchecked type assertion. The panic is not modelled.

## Findings

| source | as written | input that shows it | evidently intended | confidence | as-written member | corrected member |
|---|---|---|---|---|---|---|
| internal/api/v1/order/order_service.go:115-123 | The cart is cleared through the cart service, outside the order transaction, before the commit. | A cart with items and a failing Commit: the order is rolled back but the cart is already gone. | Clear the cart inside the transaction, so a failed commit keeps it. | medium, not executed | Orders.OrderService.Checkout | Orders.OrderService.CheckoutAtomic |
| internal/api/v1/order/order_service.go:366 | The customer's requested status is written whatever the current status. | The owner of a CANCELLED or PENDING order asks for COMPLETED: the order becomes COMPLETED. | Only a SHIPPED order can be completed. | medium, not executed | Orders.OrderService.UpdateStatusByCustomer | Orders.OrderService.CompleteChecked |
| internal/api/v1/order/order_controller.go:204-208 | Every service error of the admin status endpoint is answered 400. | An unknown order id: ErrOrderNotFound, whose own status is 404, is answered 400. order_controller_test.go:566-586 expects 404. | Answer each error with its own HTTP status. | high, not executed | OrderController.StatusReplyNotFoundIs400 | OrderController.StatusReplyMappedAgrees |
| internal/api/v1/address/address_service.go:108-126 | Update clears the caller's primaries, then writes the row by address id alone. | User b has a primary address x and another address y; user a updates y with is_primary true. User b ends with two primaries. | Scope the write to the caller's own address, as Delete does. | high, not executed | Addresses.UpdateAsWrittenBreaksOnePrimary | Addresses.AddressService.UpdateOwned |
| internal/api/v1/cart/cart_service.go:264-286 | Decrement and DeleteItem pass the product id to the repository's DeleteItem, whose second argument is the row id (cart_repo.go:57-62). | A cart row with its own id r, product p and quantity 1, where r is not p: Decrement of p reports success and the row stays with quantity 0; DeleteItem of p removes nothing. | Delete the cart's rows of the product. | high, not executed | Carts.DecrementAsWrittenKeepsZeroRow | Carts.CartService.DeleteRows |
