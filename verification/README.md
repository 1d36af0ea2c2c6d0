# Motorcycle shop: a verified model of its core

This project models the logic of a small motorcycle shop: an Express backend
with a per-user cart kept in a key-value cache, orders and catalogue kept in
SQL tables, and the browser scripts of the storefront. It models these parts:

- **Cart store** (`cart.dfy`, module `Cart`). The cache is a map from user id
  to a stored cart document with its 24-hour expiry. Add, update, remove and
  clear are methods of `CartStore`. Its invariant `Valid` holds for every
  stored cart: it is not empty, its `total` is the sum of price × quantity,
  it has one line per product and its TTL is `CartTtl`. An emptied cart is
  deleted, not stored.
- **Checkout and orders** (`orders.dfy`, module `Orders`). `OrderDb` holds the
  `orders` and `order_items` tables and the id sequence. `CreateOrder` turns a
  stored cart into one order row plus one item row per cart line inside a
  transaction. The failing statement is a parameter, and every failure rolls
  the tables back. The status update and the order-history reads are also
  modelled.
- **Administrator sessions** (`admin_auth.dfy`): the live-token set, login,
  logout and the two guards.
- **Categories** (`categories.dfy`) and **customer accounts** (`users.dfy`):
  the guarded inserts, updates and deletes, and the sign-in rules.
- **Products and images** (`products.dfy`): the folder-name sanitiser, the
  image upload loop, the image URL and disk paths, deletion with its cascade,
  and the catalogue reads.
- **Upload middleware** (`uploads.dfy`): the file filter, file names,
  destination folders and size limits.
- **Browser scripts**:
  - `storefront.dfy`: the catalogue filter and `truncateText`.
  - `category_pages.dfy`: the home page of categories. Both copies of that
    script are modelled, told apart by `PageCopy`.
  - `client_auth.dfy`: the local-storage session, the authorised fetch and the
    cart badge.
- `common.dfy` holds shared helpers:
  - JavaScript string operations and `parseInt`.
  - Decimal printing, with its round trip through `parseInt`.
  - Order-preserving filtering.
  - Insertion sort by a total order, used to model `ORDER BY`.

The cache, the database, the file system, the clock, the random generator,
the network, password hashing and token signing are not modelled as
services. Each becomes a parameter of the operation that uses it, or a
function fixed when the object is built.

## Model

| member | source | states |
|---|---|---|
| Cart.CartStore.constructor | backend/src/controllers/cartController.js:1-3 | The store starts with no carts and satisfies its invariant. |
| Cart.FindLine | backend/src/controllers/cartController.js:35 | `findIndex`: the index of the product's first line; none exactly when no line has the product. |
| Cart.AddItem | backend/src/controllers/cartController.js:35-41 | A product with a line gets `quantity` more on that line, and no other line changes. A new product gets exactly one line, appended at the end. One line per product is preserved. |
| Cart.SetQuantity | backend/src/controllers/cartController.js:71-78 | Quantity 0 keeps exactly the other products' lines, in order, each as often as before. Any other quantity sets the product's line and changes nothing else. An absent product leaves the lines unchanged. |
| Cart.RemoveProduct | backend/src/controllers/cartController.js:107-108 | Keeps exactly the lines whose product id differs from the parsed parameter, in order and each as often as before. An unparsable parameter keeps every line. |
| Cart.CartStore.GetCart | backend/src/controllers/cartController.js:5-20 | A user without a stored cart gets `{items: [], total: 0}`. Otherwise the stored cart is returned. Nothing is written. |
| Cart.CartStore.AddToCart | backend/src/controllers/cartController.js:22-52 | A falsy product id, name or price gives 400 and leaves the store unchanged. Otherwise the cart is stored as `AddItem` of the old lines, with quantity 1 by default, the recomputed total and the 24-hour TTL. The store invariant is kept. |
| Cart.CartStore.UpdateCartItem | backend/src/controllers/cartController.js:54-94 | A falsy product id or a negative quantity gives 400, and no stored cart gives 404; the store is unchanged in both cases. Otherwise the new lines are `SetQuantity` of the old ones. An empty result deletes the key; any other result is stored with its total and TTL. |
| Cart.CartStore.RemoveFromCart | backend/src/controllers/cartController.js:96-123 | No stored cart gives 404. Otherwise the lines become `RemoveProduct` of the old ones, and an empty result deletes the key. |
| Cart.CartStore.StoreOrDelete | backend/src/controllers/cartController.js:80-89 | The shared tail: no lines deletes the key; otherwise the cart is stored with total `Total(items)` and TTL `CartTtl`. |
| Cart.CartStore.ClearCart | backend/src/controllers/cartController.js:125-135 | The user's key is deleted whether or not it existed. |
| Cart.StoreKeepsValid | backend/src/controllers/cartController.js:45 | Writing a well-formed cart keeps every stored cart well-formed. |
| Cart.SetAtKeepsShape | backend/src/controllers/cartController.js:74-77 | Changing the quantity of the product's first line keeps every product id in place. With one line per product, only that line changes. |
| Cart.SubsequenceKeepsUnique | backend/src/controllers/cartController.js:71-72 | Filtering lines keeps one line per product and introduces no line. |
| Cart.TotalAfterSetAt | backend/src/controllers/cartController.js:80 | Changing one line's quantity moves the total by that line's price times the change. |
| Cart.AddChangesTotal | backend/src/controllers/cartController.js:37-43 | An add raises the total by the added quantity times the price of the existing line, or times the new price when the product has no line yet. |
| Cart.MergeChangesTotal | backend/src/controllers/cartController.js:37-43 | Merging `quantity` into line `i` raises the total by that line's price times `quantity`. |
| Cart.AddTwiceIsAddSum | backend/src/controllers/cartController.js:35-41 | Adding a product twice gives the same lines as adding the summed quantity once. |
| Cart.AddTwiceToLine | backend/src/controllers/cartController.js:38 | Two merges into an existing line add up. |
| Cart.AddTwiceToNewLine | backend/src/controllers/cartController.js:38-40 | An append followed by a merge gives one new line with the summed quantity. |
| Cart.AddItemMerges | backend/src/controllers/cartController.js:37-38 | A product that has a line is merged into that line. |
| Cart.FindLineAt | backend/src/controllers/cartController.js:35 | `findIndex` answers `i` when line `i` is the product's and no earlier line is. |
| Cart.ScenarioAddSameProductTwice | backend/src/controllers/cartController.js:22-45 | One CBR at 500000 followed by two more gives one line of three and a total of 1500000. |
| Orders.ParseStatus | backend/src/controllers/orderController.js:168-170 | Exactly `pending`, `completed` and `cancelled` are accepted, each naming its own status. |
| Orders.Snapshots | backend/src/controllers/orderController.js:32-37 | One item row per cart line, in cart order, carrying the order id and the line's product id, name, price and quantity. |
| Orders.OrderIndex | backend/src/controllers/orderController.js:172-175 | The row with the id; none exactly when no row has it. |
| Orders.OrderDb.constructor | backend/src/controllers/orderController.js:1-2 | Empty tables that satisfy the table invariant. |
| Orders.OrderDb.CreateOrder | backend/src/controllers/orderController.js:4-60 | No stored cart, or an empty one, gives 400 and writes nothing. A failure anywhere rolls both tables back. Success appends one `completed` order for the user with the stored total, appends one item row per cart line, and deletes the cart key. The table invariant and the cart-store invariant are kept. |
| Orders.OrderDb.UpdateOrderStatus | backend/src/controllers/orderController.js:163-189 | An unknown status gives 400 and an unknown id gives 404, both with no change. Otherwise only that order's status changes. |
| Orders.CommitKeepsValid | backend/src/controllers/orderController.js:25-41 | The committed order and its item rows keep ids ascending and every item attached to an order. |
| Orders.OrdersOf | backend/src/controllers/orderController.js:64-67 | Exactly the user's orders, newest first. |
| Orders.ItemsOf | backend/src/controllers/orderController.js:71-74 | Exactly the item rows of the order, in table (insertion) order and with their multiplicities: a subsequence of the table that holds each of the order's rows as often as the table does. |
| Orders.GetOrders | backend/src/controllers/orderController.js:62-91 | One view per order of `OrdersOf`, in that order: the caller's orders only, newest first. The items of each view are `ItemsOf` its order, so exactly its own rows in table order. |
| Orders.GetOrderById | backend/src/controllers/orderController.js:93-126 | Found only when an order with the id belongs to the caller; otherwise 404. |
| Orders.OtherUsersOrderNotFound | backend/src/controllers/orderController.js:97-104 | Another user's order is 404 even when asked for by its exact id. |
| Orders.GetAllOrders | backend/src/controllers/orderController.js:128-161 | Every order, newest first, with its owner's user name when the join finds one. Its items are `ItemsOf` that order, so exactly its own rows in table order. |
| Orders.ScenarioCheckout | backend/src/controllers/orderController.js:32-37 | Three CBR at 500000 become one item row with quantity 3. |
| AdminAuth.ExtractToken | backend/src/middleware/adminAuth.js:63 | No header gives no token. A header without `Bearer ` is the token itself. Otherwise the first occurrence of `Bearer `, wherever it stands, is cut out: `Token Bearer abc` gives `Token abc`. |
| AdminAuth.ExtractBearer | backend/src/middleware/adminAuth.js:63 | `Bearer <t>` presents exactly `t`. |
| AdminAuth.LoggedOut | backend/src/middleware/adminAuth.js:33-44 | Logout removes the presented token and no other. |
| AdminAuth.SessionToken | backend/src/middleware/adminAuth.js:17 | Session tokens start with `session_` and are never empty. |
| AdminAuth.AdminSessions.constructor | backend/src/middleware/adminAuth.js:4-10 | The credentials are read from the environment, defaulting to `admin` / `admin123`, and no session is live. |
| AdminAuth.AdminSessions.Login | backend/src/middleware/adminAuth.js:12-31 | The configured pair adds one new token and returns it. Any other pair gives 401 and leaves the set unchanged. |
| AdminAuth.AdminSessions.Logout | backend/src/middleware/adminAuth.js:33-44 | Always reports success. The new set is `LoggedOut` of the old one. |
| AdminAuth.AdminSessions.CheckAuth | backend/src/middleware/adminAuth.js:46-60 | Authenticated, with the configured user name, exactly when a non-empty extracted token is live. |
| AdminAuth.AdminSessions.RequireAuth | backend/src/middleware/adminAuth.js:62-72 | `next` is called exactly when a non-empty extracted token is live; otherwise 401. |
| AdminAuth.LoginThenAdmitted | backend/src/middleware/adminAuth.js:15-24 | The token a successful login returns is admitted at once. |
| AdminAuth.LogoutRevokes | backend/src/middleware/adminAuth.js:33-44 | A token admitted before logout is refused after it, and every other live token survives. |
| Categories.UploadedImagePath | backend/src/controllers/categoryController.js:46-49 | `/images/categories/<filename>` for an uploaded file; null without one. |
| Categories.ImageFile | backend/src/controllers/categoryController.js:122-123 | No file for a null or empty image path. Otherwise the folder joined with the path. |
| Categories.UploadedImageFile | backend/src/controllers/categoryController.js:80 | The file of an uploaded category image is the folder, then `/images/categories/`, then the file name. |
| Categories.IdIndex | backend/src/controllers/categoryController.js:106-109 | The row with the id; none exactly when no row has it. |
| Categories.CountNamed | backend/src/controllers/categoryController.js:111-118 | The number of products whose category is the name, the number the 400 message prints; zero exactly when none carries the name. |
| Categories.LexLeIsTotal | backend/src/controllers/categoryController.js:143 | The name order is total, so sorting by it is well defined. |
| Categories.GetCategoryNames | backend/src/controllers/categoryController.js:140-149 | One name per category, sorted by name. |
| Categories.GetAllCategories | backend/src/controllers/categoryController.js:5-15 | Every row exactly once, sorted by name. |
| Categories.GetCategoryById | backend/src/controllers/categoryController.js:17-31 | The row with the id, or 404 exactly when there is none. |
| Categories.CategoryTable.constructor | backend/src/controllers/categoryController.js:1-3 | An empty table that satisfies the table invariant, with the folder the delete handler unlinks under (`__dirname/../../../frontend/public`). |
| Categories.CategoryTable.Create | backend/src/controllers/categoryController.js:33-61 | An empty name gives 400, and a taken name gives 400; neither inserts. Otherwise exactly one row is appended with the next id and the uploaded image path. Unique names stay unique. |
| Categories.CategoryTable.Update | backend/src/controllers/categoryController.js:63-100 | An empty name gives 400 and an unknown id gives 404, both with no change. Otherwise only that row changes. It keeps its image without an upload. With an upload, the old image's file under `/app/frontend-images` is unlinked, when there was one. |
| Categories.CategoryTable.Delete | backend/src/controllers/categoryController.js:102-138 | An unknown id gives 404. A category a product still uses gives 400 with the product count and deletes nothing. Otherwise exactly that row is removed, and its image's file under the public folder is unlinked when it has one. |
| Categories.RemoveRow | backend/src/controllers/categoryController.js:131 | Removing one row keeps ids ascending and below the sequence, and its id is then gone. |
| Users.RegistrationError | backend/src/controllers/authController.js:10-16 | 400 for a missing field; otherwise 400 for a password shorter than 6 characters; otherwise no error. |
| Users.FindByUsername | backend/src/controllers/authController.js:61-65 | The first row with the user name; none exactly when no row has it. |
| Users.FindById | backend/src/controllers/authController.js:93-96 | A row with the id; none exactly when no row has it. |
| Users.UserTable.constructor | backend/src/controllers/authController.js:1-5 | An empty table. The hash always verifies against the password it was made from. |
| Users.UserTable.Register | backend/src/controllers/authController.js:7-51 | The field checks, then 400 with no insert when the user name or the e-mail is taken. Otherwise exactly one row is appended, storing the hash of the password, and a token is issued for the new id. Names and e-mails stay distinct. |
| Users.UserTable.Login | backend/src/controllers/authController.js:53-89 | 400 for a missing field. An unknown user name and a wrong password get the same 401. Otherwise a token for the user's id is issued. |
| Users.UserTable.GetProfile | backend/src/controllers/authController.js:91-107 | 404 exactly when no row has the id; otherwise the public fields of that row. |
| Users.FindAfterInsert | backend/src/controllers/authController.js:28-64 | The row a registration appends is the one a later lookup by that user name finds. |
| Users.LoginAfterRegister | backend/src/controllers/authController.js:28-74 | After registering, signing in with the same password finds the new row and its hash verifies. |
| Products.Utf16Length | backend/src/controllers/productController.js:173 | The length of the name in UTF-16 units: at least its number of characters, and equal to it when no character lies outside the Basic Multilingual Plane. |
| Products.ReplaceDisallowed | backend/src/controllers/productController.js:173 | The result holds only kept characters and `_`, and has the name's UTF-16 length: a regular expression without the `u` flag replaces each UTF-16 unit, so a character outside the Basic Multilingual Plane becomes `__`. Otherwise every character outside `a-zA-Z0-9а-яА-Я` becomes `_`, one for one. |
| Products.CollapseSpaces | backend/src/controllers/productController.js:174 | Collapsing white space never lengthens the string. |
| Products.LowerKept | backend/src/controllers/productController.js:175 | A kept character lower-cases to a safe one, and `_` stays. |
| Products.Lower | backend/src/controllers/productController.js:175 | Lower-casing works character by character and keeps the length. |
| Products.CollapseWithoutSpaces | backend/src/controllers/productController.js:174 | The white-space step leaves a string without white space unchanged. |
| Products.SafeName | backend/src/controllers/productController.js:172-175 | The folder name has the product name's UTF-16 length and holds only small Latin and Cyrillic letters, digits and `_`. |
| Products.SafeNameCharwise | backend/src/controllers/productController.js:172-175 | The white-space step changes nothing, so the folder name is the lower-cased replacement and has the name's UTF-16 length. For a name inside the Basic Multilingual Plane, each character is kept and lower-cased or becomes `_`, position by position. |
| Products.SafeNameAstral | backend/src/controllers/productController.js:173 | A leading character outside the Basic Multilingual Plane, such as an emoji, gives `__` before the rest of the folder name. |
| Products.ReplaceDisallowedAppend | backend/src/controllers/productController.js:173 | The replacement works character by character, so it distributes over concatenation. |
| Products.LowerAppend | backend/src/controllers/productController.js:175 | Lower-casing distributes over concatenation. |
| Products.SafeNameIsLowerReplaced | backend/src/controllers/productController.js:172-175 | The folder name is the lower-cased replacement: the white-space step never changes anything. |
| Products.SafeNameAppend | backend/src/controllers/productController.js:172-175 | The folder name of a concatenation is the concatenation of the folder names, so a character outside the Basic Multilingual Plane gives `__` wherever it stands. |
| Products.SafeNameAlphabet | backend/src/controllers/productController.js:172-175 | A sanitised name holds only small Latin and Cyrillic letters, digits and `_`. |
| Products.SafeNameIdempotent | backend/src/controllers/productController.js:172-175 | Sanitising a sanitised name changes nothing. |
| Products.SafeNameYo | backend/src/controllers/productController.js:173 | `ё` and `Ё` lie outside the kept ranges and become `_`. |
| Products.BikeImagePath | backend/src/controllers/productController.js:181 | Every product image URL starts with `/images/bikes/`. |
| Products.StripImagesPrefix | backend/src/controllers/productController.js:132 | A leading `/images/` is removed, and only when it leads the path. |
| Products.StripBikeImagePath | backend/src/controllers/productController.js:181 | A product image URL maps to `bikes/<safe>/<file>` on disk. |
| Products.ProductIndex | backend/src/controllers/productController.js:166-169 | The row with the id; none exactly when no row has it. |
| Products.ImageIndex | backend/src/controllers/productController.js:223-230 | The image row with the id; none exactly when no row has it. |
| Products.ImagesOf | backend/src/controllers/productController.js:126-129 | Exactly the product's image rows, in table (insertion) order and with their multiplicities: a subsequence of the table that holds each of the product's rows as often as the table does. |
| Products.ImagesNotOf | backend/src/controllers/productController.js:141 | Exactly the image rows of other products, in order. These are what the cascade keeps. |
| Products.InDisplayOrder | backend/src/controllers/productController.js:207 | A permutation of the rows, sorted by display order. |
| Products.PrimaryImage | backend/src/controllers/productController.js:15 | An image with the smallest display order; none exactly when there are no images. |
| Products.View | backend/src/controllers/productController.js:14-21 | `image_url` is the path of one of the product's images with the smallest display order, or null without images. The images are the product's own, in display order. |
| Products.Chosen | backend/src/controllers/productController.js:26-29 | With a category, exactly the products of that category; without one, all of them. Id order is kept. |
| Products.Views | backend/src/controllers/productController.js:13-22 | One view per chosen row, in the same order. |
| Products.ViewsShowChosen | backend/src/controllers/productController.js:31 | The views show exactly the chosen rows, in ascending id order. |
| Products.ListProducts | backend/src/controllers/productController.js:9-39 | Exactly the products in the category (all without one), in id order, each with its primary image and its images. |
| Products.GetProductById | backend/src/controllers/productController.js:42-67 | The product's view, or 404 exactly when no row has the id. |
| Products.GetProductImages | backend/src/controllers/productController.js:203-216 | A permutation of `ImagesOf` the product (same multiset), sorted by display order. |
| Products.RemoveProductRow | backend/src/controllers/productController.js:141 | Deleting one product row keeps ids ascending and removes that id. |
| Products.CascadeKeepsImagesAttached | backend/src/controllers/productController.js:141 | After the cascade, every remaining image belongs to a remaining product. |
| Products.OtherProductSurvives | backend/src/controllers/productController.js:141 | Deleting one product row keeps every other product. |
| Products.NoProductNoImages | backend/src/controllers/productController.js:126-145 | A product that does not exist has no image rows, so a 404 delete unlinks nothing. |
| Products.DeleteKeepsValid | backend/src/controllers/productController.js:141 | Deleting a product together with its images keeps the catalogue invariant. |
| Products.KeptImagesValid | backend/src/controllers/productController.js:141 | The images the cascade keeps still have ascending ids below the sequence. |
| Products.DeleteImageKeepsValid | backend/src/controllers/productController.js:240 | Deleting one image row keeps the catalogue invariant and removes that id. |
| Products.Catalog.constructor | backend/src/controllers/productController.js:6 | `IMAGES_PATH` from the environment, defaulting to `/app/frontend-images`, and empty tables. |
| Products.Catalog.CreateProduct | backend/src/controllers/productController.js:83-97 | Exactly one row is appended with the next id and the given fields. |
| Products.Catalog.UpdateProduct | backend/src/controllers/productController.js:100-119 | An unknown id gives 404 with no change. Otherwise only that row's fields change. |
| Products.Catalog.UploadImages | backend/src/controllers/productController.js:158-200 | No files gives 400 and an unknown product gives 404, both with no insert. Otherwise file `i` becomes an image row with display order `i` and URL `/images/bikes/<safe>/<file>`, one row per file. |
| Products.Catalog.UnlinkAll | backend/src/controllers/productController.js:131-139 | One file per image row, in order: `IMAGES_PATH` joined with the row's URL without its leading `/images/`. |
| Products.Catalog.DeleteProduct | backend/src/controllers/productController.js:122-152 | Every file of the product is unlinked, at `IMAGES_PATH` joined with its URL without `/images/`, and failures are ignored. An unknown id then gives 404. Otherwise exactly that row goes, with its image rows. |
| Products.Catalog.RemoveProductAt | backend/src/controllers/productController.js:141 | Removes exactly the product row at that position together with its image rows, and keeps the catalogue invariant. |
| Products.Catalog.DeleteProductImage | backend/src/controllers/productController.js:219-247 | An unknown image id gives 404 and unlinks nothing. Otherwise the file `IMAGES_PATH` joined with the URL without `/images/` is unlinked and exactly that row goes. |
| Products.Catalog.RemoveImageAt | backend/src/controllers/productController.js:240 | Removes exactly the image row at that position, keeps the catalogue invariant and leaves the products alone. |
| Uploads.ParseLimit | backend/src/middleware/uploads.js:8-9 | `parseInt(env) \|\| fallback`: unset, unparsable and zero all give the fallback. Any other parsed number is used. |
| Uploads.ParseLimitOfNumber | backend/src/middleware/uploads.js:8-9 | A positive decimal number replaces the default. |
| Uploads.LimitDefaults | backend/src/middleware/uploads.js:8-9 | The defaults are 5 MiB and 10 files, and `0` falls back to the default. |
| Uploads.LastIndexOf | backend/src/middleware/uploads.js:69 | The last position of the character; none when it does not occur. |
| Uploads.ExtName | backend/src/middleware/uploads.js:69 | `path.extname`: empty, or a dot-led tail of the name that holds no other dot and is shorter than the name. |
| Uploads.ExtNameOf | backend/src/middleware/uploads.js:69 | `base.ext` has extension `.ext`. |
| Uploads.LastIndexOfAt | backend/src/middleware/uploads.js:69 | The last occurrence is where the character occurs with none after it. |
| Uploads.MatchesAllowed | backend/src/middleware/uploads.js:68 | The unanchored test passes exactly when one of the five words occurs at some position, so never for fewer than 3 characters. |
| Uploads.FileFilter | backend/src/middleware/uploads.js:67-77 | A file is accepted exactly when one of `jpeg`, `jpg`, `png`, `gif`, `webp` occurs somewhere in its lower-cased extension and one occurs somewhere in its MIME type. An accepted file has an extension of at least 3 characters. |
| Uploads.MatchesAt | backend/src/middleware/uploads.js:68 | An allowed word found anywhere makes the test pass. |
| Uploads.ExtensionOf | backend/src/middleware/uploads.js:69 | The extension keeps its case. |
| Uploads.LowerJpg | backend/src/middleware/uploads.js:68-70 | `.JPG` lower-cases to `.jpg`, which passes, as does `image/jpeg`. |
| Uploads.AcceptsUpperCaseJpg | backend/src/middleware/uploads.js:67-77 | A `.JPG` file declared as `image/jpeg` is accepted. |
| Uploads.LowerPngtxt | backend/src/middleware/uploads.js:68-70 | `.pngtxt` and `text/x-gif` both contain an allowed word. |
| Uploads.AcceptsByContainment | backend/src/middleware/uploads.js:67-77 | The test is not anchored: `x.pngtxt` declared as `text/x-gif` is accepted. |
| Uploads.RefusesWithoutExtension | backend/src/middleware/uploads.js:67-77 | A name without an extension is refused whatever its MIME type. |
| Uploads.CategoryFileName | backend/src/middleware/uploads.js:19-22 | Category file names keep the original extension. |
| Uploads.ProductFileName | backend/src/middleware/uploads.js:61-64 | Product file names start with `image_` and end with `.png`. |
| Uploads.ProductDestination | backend/src/middleware/uploads.js:26-60 | A missing product id or an unknown product is an error. Otherwise the folder is the bikes path joined with the sanitised product name. |
| Uploads.DestinationMatchesImagePath | backend/src/middleware/uploads.js:43-48 | The folder the storage writes to and the folder the image URLs name hold the same sanitised name. |
| Storefront.TruncateText | frontend/js/app.js:148-151 | Text that fits is unchanged. Otherwise the first `maxLength` characters are followed by `...`, for a length of `maxLength + 3`. |
| Storefront.TruncateBound | frontend/js/app.js:148-151 | The result is never longer than `maxLength + 3`. It is shorter than the text only when the text is at least three characters over the limit; one or two over, the `...` makes it longer. |
| Storefront.CategoryName | frontend/js/app.js:48 | An object's `.name`, otherwise the value itself. |
| Storefront.Visible | frontend/js/app.js:97-102 | `all` shows every product. Any other category shows exactly the products of that category, in their order and each as often as in the list. |
| Storefront.ProductGrid.constructor | frontend/js/app.js:5-9 | The filter starts at `all`, every product is shown and no button is active. |
| Storefront.ProductGrid.FilterByCategory | frontend/js/app.js:87-103 | `currentFilter` becomes the category. A button is active exactly when its data-category equals it, or for `all` when it has none. The grid shows `Visible`. |
| Storefront.ButtonActive | frontend/js/app.js:92 | A button with a non-empty category is active exactly for that category. A button without one is active only for `all`; one with an empty category also for the empty filter. |
| Storefront.ButtonOwnCategory | frontend/js/app.js:90-95 | Each button is active for its own category. The `all` button is active only for `all`. |
| CategoryPages.Abs | frontend/js/main.js:97 | `Math.abs`. |
| CategoryPages.Pluralize | frontend/js/main.js:95-110 | The Russian rule: "one" when the last digit is 1 but the last two are not 11; "two" for a last digit 2 to 4 outside 12 to 14; "five" otherwise. |
| CategoryPages.LastDigitOfLastTwo | frontend/js/main.js:97-102 | Taking the count modulo 100 keeps its last digit. |
| CategoryPages.PluralizeIsRussianPlural | frontend/js/main.js:96-110 | `pluralize` picks the form of the Russian plural category of the count's magnitude: one, few or many. |
| CategoryPages.PluralizePeriodic | frontend/public/js/main.js:131-145 | The form depends only on the magnitude modulo 100, so it does not change with the sign or with adding 100. |
| CategoryPages.PluralizeExamples | frontend/js/main.js:95-110 | 1 мотоцикл, 2 мотоцикла, 5 мотоциклов; 11 and 112 мотоциклов; 21 мотоцикл; 0 мотоциклов. |
| CategoryPages.Preview | frontend/js/main.js:65 | The first five products, or all of them when fewer, in order. |
| CategoryPages.GetCategoryImage | frontend/public/js/main.js:107-117 | Each of the six names gets its own picture from the table, and every other name the default picture. Every picture lies in `/images/categories/`. |
| CategoryPages.GetCategoryEmoji | frontend/public/js/main.js:119-129 | The table's emoji for the six names and 🏍️ for every other name. |
| CategoryPages.LookupsAgree | frontend/public/js/main.js:108-126 | The image and emoji tables list the same six names. |
| CategoryPages.HasOwnImage | frontend/js/main.js:62 | `categoryData.image_path` is truthy: the row has a path that is neither null nor empty. |
| CategoryPages.CardImage | frontend/js/main.js:62 | The row's own image when it has one. Otherwise `default.png`, or `getCategoryImage(name)` in the public copy. |
| CategoryPages.CardOf | frontend/public/js/main.js:68-83 | The card shows `CardImage` of the category. When that picture fails to load, the public copy shows the category's emoji (`GetCategoryEmoji`) and the root copy nothing. It counts the loaded products, with the plural word for that count, and previews `Preview` of them: the first five, or all when fewer. A category with nothing loaded shows 0. |
| CategoryPages.DisplayCategories | frontend/js/main.js:47-93 | No categories shows the nothing-found message. Otherwise one card per category, in order. |
| CategoryPages.CategoryBoard.constructor | frontend/js/main.js:3-4 | No categories and nothing loaded. |
| CategoryPages.CategoryBoard.LoadAllCategoryProducts | frontend/js/main.js:33-44 | Each category's fetched products are stored under its name, and other entries are untouched. |
| CategoryPages.CategoryBoard.LoadCategories | frontend/public/js/main.js:12-34 | The names come from the rows, all products are loaded, and each card counts and previews exactly what was fetched for it. |
| ClientAuth.RequestHeaders | frontend/js/auth.js:50-57 | Content-Type defaults to JSON unless the caller sets it. A non-empty token adds `Bearer <token>`, replacing the caller's header. Every other caller header is sent unchanged. |
| ClientAuth.ItemCount | frontend/js/auth.js:106 | The sum of the quantities: 0 for no lines, never negative for non-negative quantities, at least the number of lines for positive ones. |
| ClientAuth.BadgeCount | frontend/js/auth.js:106 | 0 when the body has no `items`, otherwise the item count. |
| ClientAuth.ClientStore.constructor | frontend/js/auth.js:2 | The given storage and page, with a hidden badge that reads 0. |
| ClientAuth.ClientStore.GetToken | frontend/js/auth.js:4-6 | The stored token, if one is stored. |
| ClientAuth.ClientStore.GetUser | frontend/js/auth.js:24-27 | The stored user record; an empty entry counts as none. |
| ClientAuth.ClientStore.IsAuthenticated | frontend/js/auth.js:19-21 | Exactly when a non-empty token is stored. |
| ClientAuth.ClientStore.SetToken | frontend/js/auth.js:9-11 | Stores the token and nothing else. Authenticated afterwards exactly when the token is non-empty. |
| ClientAuth.ClientStore.RemoveToken | frontend/js/auth.js:14-16 | Removes only the token, so the user is no longer authenticated. |
| ClientAuth.ClientStore.SetUser | frontend/js/auth.js:30-32 | Stores the user record and nothing else. |
| ClientAuth.ClientStore.RemoveUser | frontend/js/auth.js:35-37 | Removes only the user record. |
| ClientAuth.ClientStore.Logout | frontend/js/auth.js:40-44 | Removes the token and the user record, nothing else in storage, and goes to `/`. |
| ClientAuth.ClientStore.FetchWithAuth | frontend/js/auth.js:47-70 | Sends `RequestHeaders` of the stored token. A 401 signs out, goes to `/` and throws. A failed request throws and changes nothing. Any other answer is returned. |
| ClientAuth.ClientStore.UpdateCartBadge | frontend/js/auth.js:93-114 | Signed out, the badge reads 0, is hidden and no request is made. Otherwise it shows the item count and is shown exactly when that count is positive. Any failure gives a hidden 0. |
| ClientAuth.ItemCountAfterSetAt | frontend/js/auth.js:106 | Changing one line's quantity moves the item count by the change. |
| ClientAuth.BadgeAfterAdd | frontend/js/auth.js:106 | Adding `quantity` of a product to the cart raises the badge count by exactly `quantity`. |
| Text.EnvOr | backend/src/middleware/uploads.js:6-7 | `process.env.X \|\| default`: the default for an unset or empty variable. |
| Text.JoinPathParts | backend/src/controllers/productController.js:133 | `path.join`: the base without its trailing separator, one `/`, then the relative part without its leading one. |
| Text.JoinPathSeam | backend/src/controllers/productController.js:133 | A separator at the end of the base or the start of the relative part gives the same path as none. |
| Text.JoinPathRooted | backend/src/controllers/categoryController.js:80 | A relative part that starts with `/` is appended to the base without its trailing separator. |
| Text.ContainsIffIndexOf | backend/src/middleware/adminAuth.js:34 | `replace` finds the first occurrence exactly when the string contains the pattern. |
| Text.ReplaceFirstCutsFirst | backend/src/middleware/adminAuth.js:63 | `replace(p, '')` cuts out the occurrence of `p` that has none before it. |
| Text.ParseIntOfNatToString | backend/src/controllers/cartController.js:108 | `parseInt` of a printed natural number gives that number back. |
| Text.ParseIntOfDigits | backend/src/middleware/uploads.js:8-9 | `parseInt` of a run of decimal digits is its decimal value. |
| Seqs.Keep | backend/src/controllers/cartController.js:108 | `filter`: keeps exactly the elements that pass, in order, each as often as it occurs in the input. |
| Seqs.IndexWhere | backend/src/controllers/cartController.js:35 | `findIndex`: the first index whose element passes; none exactly when no element passes. |
| Seqs.SubsequenceIncreasing | backend/src/controllers/orderController.js:64-67 | Filtering a list with ascending ids keeps the ids ascending. |
| Sorting.SortBy | backend/src/controllers/categoryController.js:143 | `ORDER BY`: a sorted permutation of the rows. |

## Left out

- The cache, database and HTTP layers: each request is one atomic method call. The cart's read-modify-write race between concurrent requests is not modelled.
- JSON (de)serialisation of the cart is taken to round-trip exactly, and `req.body` fields arrive with the types the model gives them. A product id sent as a string would never equal a stored number under `===`; this is not modelled.
- Cart.CartStore.UpdateCartItem: a request without `quantity` passes the `quantity < 0` check with `undefined`. The model takes the quantity as a number, so this case is not modelled.
- Orders.OrderDb.CreateOrder: the cart deletion is not part of the transaction. The model lets it happen (`failAt` beyond `n + 1`), after which a failing COMMIT still rolls the tables back; the id the order insert drew stays drawn.
- The clock and the random generator are parameters: admin session nonces, file name stamps and `created_at`. `created_at` order is modelled as row order.
- Orders.ItemsOf: the item reads `SELECT * FROM order_items WHERE order_id = $1` have no `ORDER BY`, so PostgreSQL returns the rows in no guaranteed order. The model returns them in table (insertion) order, so any statement about the order of the returned items (in `ItemsOf`, `GetOrders` and `GetAllOrders`) is a property of the model only; which rows come back, and how often, is the program's.
- Products.ImagesOf: the same holds for the unordered image read before a product is deleted. The order in which `DeleteProduct` unlinks the files is the model's table order, not one the program guarantees.
- bcrypt and JWT are functions fixed when `UserTable` is built. The only assumption is that a hash verifies against its own password. The `auth` middleware that checks JWTs is not part of this model.
- The file system is not modelled: `mkdir`, `unlink` and static serving. The paths a handler unlinks are returned instead, as the handler builds them: `IMAGES_PATH` for product images, `/app/frontend-images` for a replaced category image and the public folder for a deleted one.
- Text.JoinPathParts: `path.join` is modelled only for paths without `.` or `..` segments and without doubled separators, so at most one `/` on each side of the seam. Node would also normalise those; the model keeps them.
- `path.extname` is modelled for names without `/`.
- Multer's enforcement of the size and count limits, and its storage callbacks other than the product destination, are not modelled.
- Postgres `ORDER BY name` collation is modelled as code-point order. `json_agg`/`COALESCE` are modelled by their result.
- The `ON DELETE CASCADE` of `product_images` comes from the database schema, which is not part of this model; deleting a product is modelled as removing its image rows with it.
- `getCategories` in `productController.js` returns the same rows and order as `getAllCategories`, without the id. It has no member of its own.
- The catch-all 500 answers are not modelled, except in the checkout, where a failing statement is the `failAt` parameter.
- Strings are sequences of code points. Lengths are counted in code points, except the folder name of a product, whose replacement step works on UTF-16 units as JavaScript does. `toLowerCase` is modelled on Latin and Cyrillic capitals for folder names, which hold nothing else by then, and on ASCII capitals for file extensions (`Text.ToLowerAscii`). An extension comes from the client's file name, so any character can reach it, and the model leaves non-ASCII capitals unchanged. The file filter's answer is the same either way: the only non-ASCII characters that lower-case to ASCII letters are U+0130 (to `i` followed by U+0307) and U+212A (to `k`), and neither can complete `jpeg`, `jpg`, `png`, `gif` or `webp`.
- Text.ParseInt: decimal and `0x` hexadecimal strings are read into an unbounded integer. JavaScript rounds values beyond 2^53 to the nearest double, which is not modelled.
- CategoryPages.GetCategoryImage and CategoryPages.GetCategoryEmoji: a name that is a key of `Object.prototype`, such as `constructor`, is not modelled; it finds an inherited member in JavaScript.
- Browser globals: the page's DOM rendering, modals, price formatting and missing badge element. `fetch` and the HTTP error branch of `loadCategories` are not modelled. `fetch` is a function parameter in `LoadAllCategoryProducts`, which always answers, so its partial failure under `Promise.all` is not modelled. The user record in local storage is kept as its serialised string.
- The other browser scripts (`admin.js`, `cart.js`, `orders.js`, `login.js`, `register.js`, `category.js`), the Express wiring, the routes and the connection setup: glue with no logic of their own beyond the server rules modelled here.
