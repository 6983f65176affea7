# Storefront client logic, modelled in Dafny

This project models the client-side logic of a small storefront for digital art
images. The shop runs in the browser as a single-page site over a hosted backend
(session auth, Postgres tables reached over REST, object storage). A serverless
endpoint e-mails the buyer the links to the images they bought.

The model covers these parts:

- **The cart store (`js/cart.js`).** `Cart.CartStore` is a class. It holds:
  - the guest list kept in local storage;
  - the remote `carts` and `cart_items` tables;
  - the auth service's answers;
  - the two memo caches (`_cachedUserId`, `_cachedCartId`).

  Cart ids are positive, because the source reads a `0` id as "no cart".

  Its methods are `getUserId`, the `auth:changed` reset, `getActiveCartId`,
  `addToCart`, `removeFromCart`, `getCartSummaryCount` and `mergeLocalCartToDb`.
  Each is proved against specification functions on the list and the tables:
  - no product appears twice;
  - every quantity is one;
  - a merge inserts only the missing products, and a second merge inserts nothing;
  - a remove drops exactly the matching lines;
  - the count is the list length or the number of rows in the cart;
  - a user never has more than one active cart, for operations that each run to completion;
  - every signed-in result is about the cart of the user the call started with, whose id stays memoised.
- **The cart page (`js/cartView.js`).**
  - the image fallback;
  - the guest mapping and the authenticated join;
  - the total and empty decision of `render`;
  - the optimistic remove, proved to agree with what the store's remove does.
- **The maintenance panel (`js/maintenance.js`).**
  - the comma-separated image lists;
  - `urlToPath` on storage URLs;
  - upload path naming, with distinct paths within one upload;
  - the paged folder listing loop;
  - the duplicate-free removal set;
  - the add-product form checks, with `parseInt`;
  - the selection edits;
  - delete and submit, including the round trip from uploaded paths to stored URLs and back to removable paths.
- **The order e-mail endpoint (`api/sendOrderEmail.js`).**
  - the status-code decision chain;
  - the recipient and subject;
  - the plain-text body, built line by line and joined with newlines.
- **The product detail page (`js/productDetail.js`).** The carousel position, which is always clamped to a slide, the arrows, the thumbnails and the three outcomes of loading.
- **The product grids (`js/products.js`).**
  - card images, the stock badge, links and delete buttons;
  - the outcome of `loadProducts`;
  - the re-navigation rule on card clicks.
- **The profile (`js/profile.js`).**
  - the display name;
  - `ensureProfile`, with its payload fallbacks and its duplicate-key update.
- **Routing (`js/main.js`).**
  - hash-to-section parsing;
  - section visibility;
  - the maintenance-access rule;
  - the admin flag.
- **Buttons and sign-in (`js/auth.js`, `js/utils/dom.js`).**
  - the two loading helpers, which save and restore the button label;
  - the checks before sign-in and sign-up;
  - the header name;
  - the admin flag of `auth:changed`;
  - the bind-once flags;
  - the show-password toggle.

Remote services are modelled as follows:

- **Tables and storage.** Remote tables and the storage bucket are fields, as maps, sets and sequences.
- **Reads.** Each read returns what the table holds.
- **Write failures.** Each write that can fail takes a boolean input saying whether it fails.
- **Clocks, random ids and viewport tests.** These are inputs.
- **Money.** Money is whole cents.
- **Strings.** Strings are `seq<char>`. `trim` uses JavaScript's whitespace set. Letter case is mapped on ASCII.

Shared modules:

- `Text`: `trim`, `split`, `join`, case mapping and decimal rendering, plus the `(csv || '').split(',').map(s => s.trim()).filter(Boolean)` idiom that five of the source files repeat. It is defined once here as `ParseCsv`.
- `Seqs`: `filter` and `map` on sequences, with their lemmas.
- `Wrappers`: `Option` and `Result`.

## Model

| member | source | states |
|---|---|---|
| Text.Trim | js/maintenance.js:172-173 | the result has no whitespace at either end, is no longer than the input, holds only input characters, and is empty exactly when the input is all whitespace |
| Text.TrimSurrounded | js/maintenance.js:172-173 | trimming `pre + s + post`, where `pre` and `post` are whitespace and `s` is trimmed, gives `s` back exactly |
| Text.TrimIdempotent | js/maintenance.js:172-173 | trimming twice is trimming once |
| Text.TrimStart | js/maintenance.js:174 | the result is a suffix of the input, only whitespace was dropped, and it does not start with whitespace |
| Text.Split | js/maintenance.js:79 | a split always has at least one piece and no piece contains the separator |
| Text.JoinSplit | js/maintenance.js:79 | joining the pieces of a split with the separator gives the original string |
| Text.SplitJoin | js/maintenance.js:186 | splitting a join of separator-free pieces gives the pieces back |
| Text.ParseCsv | js/maintenance.js:78-80 | every entry is non-empty, trimmed and comma-free; an empty input gives no entries |
| Text.ParseCsvEmptyIff | js/maintenance.js:78-80 | the list is empty exactly when every comma-separated piece is blank |
| Text.ParseCsvOfJoin | js/maintenance.js:186 | a list of entries stored as `join(', ')` parses back to the same list |
| Text.ParseCsvKeepsOut | api/sendOrderEmail.js:65 | a character absent from the list text is absent from every entry |
| Text.FirstEntryOr | js/cartView.js:6-8 | the result is the fallback or an entry, and when it is not the fallback it is the first entry of the list |
| Text.FirstEntryFallbackIff | js/cartView.js:6-8 | for a fallback the list cannot hold, the fallback is returned exactly when the list is empty |
| Text.ToLower | js/main.js:48 | same length; every character lower-cased |
| Text.NatToString | js/maintenance.js:64 | the decimal rendering is non-empty and all digits |
| Text.NatToStringInjective | js/maintenance.js:64 | distinct numbers render differently |
| Cart.ResolveUser | js/cart.js:13-20 | the session's id wins when it is non-empty, else `getUser`'s id; no user exactly when neither is non-empty; a resolved id is non-empty |
| Cart.FindIndex | js/cart.js:52 | -1 exactly when no line has the id, else the first line with it |
| Cart.GuestAddPresent | js/cart.js:51-56 | a guest add of a listed product leaves the list unchanged |
| Cart.GuestAddNew | js/cart.js:58-61 | a guest add of a new product appends exactly one `{id, name, price, qty: 1}` line and keeps the earlier lines in order |
| Cart.GuestAddIdempotent | js/cart.js:49-64 | adding the same product twice is adding it once |
| Cart.GuestAddKeepsValid | js/cart.js:49-64 | guest adds keep the list free of duplicate products with every quantity one |
| Cart.GuestRemovedSpec | js/cart.js:100-103 | a guest remove drops every line of the id, keeps every other line, adds none, and keeps the list valid |
| Cart.GuestRemoveUndoesAdd | js/cart.js:58-103 | removing a product a guest add just appended gives the earlier list back |
| Cart.AtMostOneMatch | js/cart.js:71-73 | with distinct (cart, product) keys at most one row matches a key, so `maybeSingle` finds the row when there is one |
| Cart.AlreadyInRemoteCartIff | js/cart.js:74 | on a valid table `existing && existing.qty > 0` holds exactly when the cart has a row for the product |
| Cart.AuthAddedSpec | js/cart.js:71-89 | an authenticated add inserts nothing when the row exists, else one row with qty 1 and `price_at_add` = price; the table stays valid and the cart's count grows by at most one |
| Cart.AuthRemovedSpec | js/cart.js:109-114 | an authenticated remove deletes exactly the rows matching both cart and product; other carts are untouched and the table stays valid |
| Cart.ExistingQtyIff | js/cart.js:154-157 | with unit quantities, `existMap[id]` is set, equals 1 and is truthy exactly when the cart has a row for the product |
| Cart.MergeRowsSpec | js/cart.js:154-163 | every merged row is a qty-1 row of the cart for a guest product with no row, at the guest's price, and every such guest product gets one |
| Cart.MergeKeepsValid | js/cart.js:156-169 | a merge of a valid guest list keeps the table free of duplicate keys with quantities one |
| Cart.MergeIdempotent | js/cart.js:135-176 | after a merge's rows are in, merging the same guest list again inserts nothing |
| Cart.MergeCount | js/cart.js:156-169 | after a merge the cart's count grows by exactly the number of rows inserted |
| Cart.AtMostOneActive | js/cart.js:27-42 | while the one-active-cart rule holds, a user has at most one active cart |
| Cart.CreateKeepsOneActive | js/cart.js:36-39 | creating a user's first active cart keeps the rule and makes the new cart the user's only active one |
| Cart.CartStore.constructor | js/cart.js:8-9 | a fresh page: empty list and tables, both caches unset |
| Cart.CartStore.OnAuthChanged | js/cart.js:24 | both caches are reset and nothing else changes |
| Cart.CartStore.GetUserId | js/cart.js:11-21 | returns the memoised user once set, else resolves it and memoises the result; a returned id is non-empty |
| Cart.CartStore.GetActiveCartId | js/cart.js:27-42 | no user gives null with nothing created; a cached id is returned without a query; otherwise the user's active cart is reused or one cart is created and cached; existing carts never change and the one-active rule is kept |
| Cart.CartStore.AddToCart | js/cart.js:45-94 | a guest's list becomes the guest add of the product, with `alreadyInCart` exactly when it was listed; a signed-in user's table becomes the authenticated add on the active cart; the guest list is untouched for a signed-in user and nothing changes on an error |
| Cart.CartStore.AddGuestItem | js/cart.js:49-64 | returns `{local: true, alreadyInCart}` with the flag set exactly when the product was listed, and the list becomes the guest add |
| Cart.CartStore.InsertCartItem | js/cart.js:71-93 | an existing row is reported as already in the cart; otherwise the row is inserted, or the insert error is returned with the table unchanged |
| Cart.CartStore.RemoveFromCart | js/cart.js:96-122 | a guest's list loses every line of the product; a signed-in user's own active cart loses exactly that product's rows; the user the call started with stays memoised; an error changes nothing |
| Cart.CartStore.RemoveGuestItem | js/cart.js:100-105 | the list becomes the guest remove of the id |
| Cart.CartStore.DeleteCartItem | js/cart.js:109-114 | the table becomes the authenticated remove of the (cart, product) pair |
| Cart.CartStore.GetCartSummaryCount | js/cart.js:124-133 | the guest list's length with no user, else the number of rows of that user's own active cart; the user stays memoised |
| Cart.CartStore.MergeLocalCartToDb | js/cart.js:135-176 | a no-op with no user or an empty list; otherwise exactly the merge rows are inserted into that user's own active cart and the list is cleared only after the insert succeeds; on an error the list and the table are unchanged |
| CartView.FirstImage | js/cartView.js:6-8 | the placeholder or an entry, and otherwise the list's first entry |
| CartView.FirstImageOfList | js/cartView.js:6-8 | a stored list's first entry is the thumbnail; an empty or missing list shows the placeholder |
| CartView.GuestViewSpec | js/cartView.js:16-19 | guest lines map one-to-one and in order to `{product_id: id, name, qty, price, image_urls: ''}` |
| CartView.RowsViewSpec | js/cartView.js:36-42 | one view line per cart row, in order; each line keeps its row's product, quantity and `price_at_add` as price, and its name is never empty ("Product" stands in for a missing product) |
| CartView.TotalConcat | js/cartView.js:62-67 | the total of a concatenation is the sum of the totals |
| CartView.QtySumConcat | js/cartView.js:125 | the quantity sum of a concatenation is the sum of the quantity sums |
| CartView.GuestBadgeIsCount | js/cartView.js:125 | on a valid guest list the optimistic badge equals the store's count |
| CartView.AuthBadgeIsCount | js/cartView.js:125 | on a valid table the optimistic badge of the cart's lines equals the store's count for the cart |
| CartView.UnitRowsBadge | js/cartView.js:125 | with unit quantities the quantity sum is the number of rows |
| CartView.OptimisticRemoveTotal | js/cartView.js:122-124 | the total after the optimistic remove plus the total of the removed lines is the total before |
| CartView.GuestRemoveCommutes | js/cartView.js:122-123 | removing on the page and then viewing gives the same lines as viewing the guest list after the store's remove |
| CartView.GuestViewConcat | js/cartView.js:16-19 | the guest view distributes over concatenation |
| CartView.RowsViewConcat | js/cartView.js:36-42 | the row view distributes over concatenation |
| CartView.RemoveThenCart | js/cart.js:109-114 | the cart's rows after an authenticated remove are its rows before, without the product |
| CartView.RowsViewDropsProduct | js/cartView.js:122-123 | viewing rows without a product equals the optimistic remove on the view |
| CartView.AuthRemoveCommutes | js/cartView.js:122-123 | for a signed-in user the optimistic remove gives exactly the lines the store's remove leaves |
| CartView.Render | js/cartView.js:45-84 | the empty message shows and checkout is disabled exactly for an empty list; the total is the sum of qty × price |
| CartView.GetCartItems | js/cartView.js:13-43 | a guest gets the guest view; a signed-in user with lines gets the rows of the active cart of the user the call started with, joined with the products, in order; the list and the table are unchanged |
| CartView.CartPage.constructor | js/cartView.js:11 | `currentItems` starts empty |
| CartView.CartPage.Fill | js/cartView.js:97-99 | the page shows the loaded lines with their total and checkout state; a guest sees the guest view, and a signed-in user with lines sees the lines of their own active cart, which the store now caches |
| CartView.CartPage.Load | js/cartView.js:97-101 | as `Fill`, and then the badge is the store's count; a guest sees the guest view, a signed-in user with lines their own active cart's lines; an error leaves the page as it was |
| CartView.CartPage.RemoveClicked | js/cartView.js:115-136 | after a successful remove the page holds the old lines without the product and the badge is their quantity sum; the page always agrees with the store's remove for a page that showed the store; a failed remove leaves the store unchanged and is followed by exactly one reload: a failed reload leaves the optimistic view, a successful one shows the guest view or the lines of the user's own active cart |
| CartView.CartPage.ShowWithout | js/cartView.js:122-126 | the lines lose the product, the page re-renders and the badge is the quantity sum |
| Maintenance.TakeUntil | js/maintenance.js:88 | the longest prefix without a stop character |
| Maintenance.TakeUntilStops | js/maintenance.js:88 | a scan over stop-free text followed by a stop character ends exactly there |
| Maintenance.StripLeadingSlashes | js/maintenance.js:85 | drops exactly the leading `/` run: a suffix of the input, only slashes dropped, not starting with `/` |
| Maintenance.StripSlashes | js/maintenance.js:85 | slashes in front of a path are removed, giving the path |
| Maintenance.FirstMatch | js/maintenance.js:88 | a match is found exactly when the pattern matches at some position, and it is the leftmost one |
| Maintenance.UrlToPath | js/maintenance.js:82-93 | null for an empty input; a non-http(s) input loses its leading slashes; an http(s) result is non-empty |
| Maintenance.HttpsIsHttpUrl | js/maintenance.js:85 | an `https://` address passes the scheme test |
| Maintenance.PathnameOf | js/maintenance.js:86-87 | the path of `https://host/tail` is the tail when the host is plain and the tail has no query or fragment |
| Maintenance.ObjectUrlToPath | js/maintenance.js:86-91 | a public or signed object URL gives its object path when the bucket is `pictures` and null for any other bucket |
| Maintenance.HttpUrlToPath | js/maintenance.js:86-91 | on an http(s) URL the result is the bucket test on the leftmost match in its path |
| Maintenance.MatchAtObject | js/maintenance.js:88 | the pattern splits `/storage/v1/object/<kind>/<bucket>/<path>` into bucket and path |
| Maintenance.KindStripped | js/maintenance.js:88 | `public/` and `sign/` are the two kinds the pattern accepts |
| Maintenance.BucketAndPathOf | js/maintenance.js:88 | the bucket runs to the next slash and the path is the rest |
| Maintenance.SlashIsNotHttp | js/maintenance.js:85 | a text starting with `/` is not an http(s) URL |
| Maintenance.RawPathToPath | js/maintenance.js:84-85 | a raw path, with or without leading slashes, comes back without them |
| Maintenance.Ext | js/maintenance.js:63 | the extension is non-empty and has no dot |
| Maintenance.LastPiece | js/maintenance.js:63 | the last dot-separated piece has no dot |
| Maintenance.SplitAppend | js/maintenance.js:63 | appending a separator and a separator-free piece adds exactly that piece to the split |
| Maintenance.ExtOf | js/maintenance.js:63 | a name's extension is the lower-cased text after its last dot, `jpg` for a name ending in a dot, and the whole name when it has no dot |
| Maintenance.DigitsPrefix | js/maintenance.js:64 | a digit run followed by a non-digit is read back unambiguously |
| Maintenance.UploadPathsDistinct | js/maintenance.js:64 | two uploads of one product with different indexes never share a path, whatever the clock says |
| Maintenance.PathsFromUrls | js/maintenance.js:97 | the paths from the stored URLs are non-empty, at most one per entry |
| Maintenance.InFolder | js/maintenance.js:107 | one listed path per listed name |
| Maintenance.InFolderConcat | js/maintenance.js:107 | listing pages one after another prefixes each page's names in order |
| Maintenance.ListFolder | js/maintenance.js:99-110 | the loop lists the folder's names in pages of 100, each prefixed with the folder; it stops at the end of the folder or at the first failing page, and every page before that succeeded |
| Maintenance.Dedupe | js/maintenance.js:113 | the same elements, each once, no longer than the input |
| Maintenance.DedupeDistinct | js/maintenance.js:113 | a list without repeats comes through unchanged and in its order |
| Maintenance.RemovalSet | js/maintenance.js:97-113 | exactly the paths from the stored URLs and the listed ones, each once |
| Maintenance.PublicUrls | js/maintenance.js:72-73 | one URL per uploaded path |
| Maintenance.PublicUrlIsEntry | js/maintenance.js:72-73 | a public URL of a plain path is a well-formed list entry |
| Maintenance.StoredImagesFound | js/maintenance.js:97 | the paths recovered from a stored image list are exactly the uploaded paths, in order |
| Maintenance.PathsOfUrls | js/maintenance.js:97 | the paths recovered from the public URLs are the uploaded paths |
| Maintenance.PublicUrlToPath | js/maintenance.js:72-93 | `urlToPath` of a public URL of the bucket gives its path back |
| Maintenance.UploadPathPlain | js/maintenance.js:64 | an upload path of a plain id and a file whose extension is plain is non-empty and survives a URL and a stored list |
| Maintenance.TakeDigits | js/maintenance.js:174 | the longest digit prefix |
| Maintenance.ParseIntDigits | js/maintenance.js:174 | `parseInt` of a digit run followed by a non-digit is the run's value |
| Maintenance.ParseIntNegative | js/maintenance.js:174 | `parseInt` of `-` and a digit run is the run's negated value |
| Maintenance.ParseIntOf | js/maintenance.js:174 | a number as the form shows it, negative or not, reads back as that number |
| Maintenance.DigitsValueOf | js/maintenance.js:174 | the value of a number's decimal rendering is the number |
| Maintenance.ValidateFormSpec | js/maintenance.js:172-179 | a form passes exactly when the trimmed name and type are non-empty and stock and price are numbers ≥ 0; the checks fail in their order; an accepted form carries the trimmed fields and the parsed numbers |
| Maintenance.CheckFieldsSpec | js/maintenance.js:177-179 | the three checks, in order, each failing exactly on its condition |
| Maintenance.EmptyStockIsZero | js/maintenance.js:174 | an empty stock field reads as 0 |
| Maintenance.PlannedPaths | js/maintenance.js:61-64 | one path per selected file |
| Maintenance.PlannedPathsDistinct | js/maintenance.js:61-64 | the planned paths of one upload are pairwise distinct |
| Maintenance.FirstFailure | js/maintenance.js:61-70 | the index of the first failing call, or the count when none fails |
| Maintenance.Panel.constructor | js/maintenance.js:10 | the selection starts empty |
| Maintenance.Panel.AcceptFiles | js/maintenance.js:36-40 | the image files among the new ones are appended after the selection |
| Maintenance.Panel.RemovePreview | js/maintenance.js:27 | exactly the file at `idx` leaves the selection; an index past the end changes nothing |
| Maintenance.Panel.UploadImages | js/maintenance.js:59-76 | the planned objects up to the first failure are stored; with no failure the result is one public URL per file, in order |
| Maintenance.Panel.UploadAll | js/maintenance.js:61-74 | the upload loop stores the paths before the first failure and returns their URLs when none fails |
| Maintenance.Panel.RemoveImagesForProduct | js/maintenance.js:95-117 | the listing stops as the loop does, the removal set is the duplicate-free union, and exactly those objects are removed unless it is empty or the removal fails |
| Maintenance.Panel.DeleteProductById | js/maintenance.js:119-132 | removal runs on the stored paths found in the product's folder listing (up to a listing error) and its failure is ignored; the row is deleted exactly when the delete succeeds, and a delete error leaves the table unchanged |
| Maintenance.Panel.Submit | js/maintenance.js:169-210 | an invalid form is refused before any upload; a valid one uploads, inserts the row with the trimmed fields and the URLs joined with `, `, and on success clears the selection; any failure leaves the table and the selection unchanged |
| Maintenance.Panel.InsertProduct | js/maintenance.js:190-202 | a failed insert or a taken id changes nothing; success adds the row and clears the selection |
| Maintenance.SubmittedImagesRemoved | js/maintenance.js:95-117 | for files with plain extensions, every image a submit stored is among the paths a later delete removes |
| Maintenance.FirstFailureAt | js/maintenance.js:70 | the first failing index is the failing index before which every call succeeded |
| Maintenance.FirstFailureNone | js/maintenance.js:70 | with no failing call the loop runs to the end |
| OrderEmail.OverrideTo | api/sendOrderEmail.js:53 | the override address is trimmed |
| OrderEmail.Recipient | api/sendOrderEmail.js:54 | the override when set, else the order's trimmed e-mail |
| OrderEmail.SubjectTagged | api/sendOrderEmail.js:98 | the subject starts with `[TEST OVERRIDE] ` exactly when an override is active and always ends with the fixed text |
| OrderEmail.Bullets | api/sendOrderEmail.js:67 | one `   - url` line per link, in order |
| OrderEmail.BuildTextBody | api/sendOrderEmail.js:61-71 | the body pushed line by line equals the message lines joined with newlines |
| OrderEmail.PushItem | api/sendOrderEmail.js:64-68 | one item adds its numbered heading and then its link lines |
| OrderEmail.PushLinks | api/sendOrderEmail.js:67 | the links add one bullet line each, in order |
| OrderEmail.ItemsLinesSnoc | api/sendOrderEmail.js:64-68 | each further item appends its block numbered by its position |
| OrderEmail.ItemsLinesPrefix | api/sendOrderEmail.js:64-68 | every item's block sits, in order, after its predecessors' lines |
| OrderEmail.ItemLineInText | api/sendOrderEmail.js:61-70 | every line of the items' part is a line of the message |
| OrderEmail.BlockLineInItems | api/sendOrderEmail.js:64-68 | every line of an item's block is a line of the items' part |
| OrderEmail.BlockLineListed | api/sendOrderEmail.js:61-70 | every line of an item's block is a line of the message |
| OrderEmail.ItemsListed | api/sendOrderEmail.js:64-68 | the message lists every item numbered from 1 in order, and every link of that item under it |
| OrderEmail.LinksListed | api/sendOrderEmail.js:65-67 | every non-empty trimmed link of an item appears as a bullet line of the message |
| OrderEmail.ItemsLinesCount | api/sendOrderEmail.js:64-68 | the items' part has one heading per item and one line per link |
| OrderEmail.TextLinesShape | api/sendOrderEmail.js:61-70 | the message opens with the thanks line and a blank line, and ends with the reference line when there is a reference, else with a blank line |
| OrderEmail.ItemsLinesUnbroken | api/sendOrderEmail.js:64-68 | no line of the items' part contains a newline when no name or image list does |
| OrderEmail.TextBodyLines | api/sendOrderEmail.js:71 | splitting the body at newlines gives exactly the message lines |
| OrderEmail.TextLinesUnbroken | api/sendOrderEmail.js:61-70 | no message line contains a newline when no input does |
| OrderEmail.Deliver | api/sendOrderEmail.js:53-148 | no recipient gives 200 without mail; Resend is used when its key is set, else the mail module is loaded (502 when it does not load) and SMTP is used when configured, else 200 without mail; a Resend rejection or SMTP send failure is 502 and a thrown Resend call is 500 with its message; a sent mail goes to the recipient with the body and a subject tagged exactly under an override |
| OrderEmail.Handle | api/sendOrderEmail.js:12-151 | OPTIONS gives 204, other non-POST methods 405, a falsy `orderId` 400, missing backend settings 500; fetch failures pass their status through, a thrown fetch is 500; an orders body that is falsy, not an array or empty gives 404; an items body that is truthy but not an array fails with the `forEach` TypeError (500) once a recipient exists; then the mail decision of `Deliver`; a mail goes out only after all of these pass |
| ProductDetail.Clamp | js/productDetail.js:70 | within `[0, count-1]` when there is a slide; identity in range, 0 below or when at most one slide, the last slide above |
| ProductDetail.ClampNearest | js/productDetail.js:70 | the clamped position is the valid slide nearest the index asked for |
| ProductDetail.NextThenPrev | js/productDetail.js:84-88 | one step forward and one back return to the same slide, except from the last |
| ProductDetail.ArrowsFor | js/productDetail.js:21-33 | arrows show exactly on a narrow screen with more than one slide; on a valid position prev is disabled only on the first slide, next only on the last, both only for a single slide, so shown arrows never both disable |
| ProductDetail.ArrowsAfterStep | js/productDetail.js:67-88 | a step forward from any slide but the last enables prev; a step back from any but the first enables next |
| ProductDetail.DetailPage.constructor | js/productDetail.js:4 | `pdState` starts at `{idx: 0, count: 0}` |
| ProductDetail.DetailPage.Resize | js/productDetail.js:178-179 | the arrows follow the new viewport and the position |
| ProductDetail.DetailPage.BuildCarousel | js/productDetail.js:35-65 | one slide per URL or the placeholder alone, so at least one slide; back to the first slide |
| ProductDetail.DetailPage.GoToSlide | js/productDetail.js:67-77 | the clamped slide becomes current when a slide exists, else nothing changes |
| ProductDetail.DetailPage.Prev | js/productDetail.js:84 | one slide back, staying on the first |
| ProductDetail.DetailPage.Next | js/productDetail.js:88 | one slide forward, staying on the last |
| ProductDetail.DetailPage.OnScroll | js/productDetail.js:57-63 | a changed index is stored clamped to the slides; an unchanged one changes nothing |
| ProductDetail.DetailPage.ThumbClicked | js/productDetail.js:103-108 | the clicked thumbnail alone is selected and becomes the main image; on a narrow screen the carousel moves to it |
| ProductDetail.DetailPage.Load | js/productDetail.js:120-176 | a missing id shows "Product" and a failed or empty lookup "Product not found", both without price or thumbnails and with the placeholder slide; a found row shows its name or "Product", its price, its images as thumbnails (the placeholder when none) and as slides; the first thumbnail is selected and the main image is the first slide |
| Products.CardImage | js/products.js:5-10 | the placeholder or an entry, and otherwise the list's first entry |
| Products.CardImageFallbackIff | js/products.js:5-10 | the placeholder shows exactly when the row has no image entry, or when its first entry is the placeholder's own address |
| Products.CardStockBadge | js/products.js:14 | a card's out-of-stock badge shows exactly for a missing stock or one ≤ 0 |
| Products.CardsAll | js/products.js:59 | one card per row, in order, each the card of its row |
| Products.CardHref | js/products.js:16 | the link starts with `#product?id=` and the rest is the id |
| Products.ProductCard | js/products.js:12-31 | the card links to the product, carries the delete button as asked, shows the badge exactly when out of stock, the first image, and a non-empty title |
| Products.CardHrefInjective | js/products.js:16 | distinct products get distinct links |
| Products.CardsInOrder | js/products.js:59 | one card per row, the `j`-th for the `j`-th row |
| Products.GridFor | js/products.js:48-61 | cards show exactly for a successful non-empty listing, one per row, each linking to its product's detail with its first image, badged exactly when out of stock and deletable exactly in the maintenance grid |
| Products.FilledGrid | js/products.js:58-59 | a non-empty listing fills the grid with one card per row, in order, deletable exactly in the maintenance grid |
| Products.PresentGrids | js/products.js:34-37 | each present grid once, the shop grid before the maintenance grid |
| Products.RenderCards | js/products.js:57-60 | the cards appended row by row are the cards of the rows |
| Products.LoadProducts | js/products.js:33-62 | every present grid, in order, shows the listing's outcome; with no grid nothing is shown |
| Products.ClickSteps | js/products.js:74-83 | only product links navigate; at most two hash assignments, the last being the link, and a first one only when it is `#shop` for a click on the current hash |
| Products.ClickStepsNavigate | js/products.js:77-83 | every assigned hash differs from the one before, so each is seen as a navigation |
| Products.CardClickNavigates | js/products.js:16-83 | a click on any card navigates to that card's product link |
| Profile.LocalName | js/profile.js:6-7 | a non-empty name without `@` |
| Profile.DisplayNameFrom | js/profile.js:3-8 | a present profile name is shown trimmed; without it a present first name trimmed; with neither, the e-mail's capitalised local part or "User" |
| Profile.DisplayNameOfEmail | js/profile.js:6-7 | `name@host` shows as the name with its first letter upper-cased, nothing from the host |
| Profile.DisplayNameWithoutLocal | js/profile.js:6 | an address with nothing before `@`, or no address, shows as "User" |
| Profile.BlankNameShowsEmpty | js/profile.js:4-5 | a name of only spaces shows as an empty name, with no fallback |
| Profile.PayloadPrefersMetadata | js/profile.js:35-43 | each payload field is the metadata's when present, else the draft's, and empty only when both are |
| Profile.ProfileStore.constructor | js/profile.js:23-25 | the store holds the given table and draft |
| Profile.ProfileStore.InsertRow | js/profile.js:45-46 | the insert is a duplicate exactly when the row exists; it succeeds exactly when neither a duplicate nor a failure, and then adds the row |
| Profile.ProfileStore.UpdateContact | js/profile.js:48-56 | on success the row's five contact fields are replaced and its role kept |
| Profile.ProfileStore.EnsureProfile | js/profile.js:23-66 | a found row is returned as it is; otherwise a Customer payload is inserted, a duplicate key updates only the contact fields, the result is the payload on success and null otherwise, and the draft is removed; a stored role never changes |
| Routing.RemoveFirst | js/main.js:23 | exactly the first occurrence is dropped (the prefix before it and the suffix after it kept), and nothing when absent |
| Routing.SectionOf | js/main.js:22-23 | the section is non-empty and has no `?` |
| Routing.SplitAtQuery | js/main.js:23 | the part before the first `?` is the path |
| Routing.SectionOfHash | js/main.js:22-23 | `#name` and `#name?query` route to `name`; an empty hash or a bare `#` routes to the shop |
| Routing.CardRoutesToProduct | js/main.js:22-23 | a product card's link routes to the product section |
| Routing.CardLoadsDetail | js/main.js:23-25 | following a product card's link loads the product detail |
| Routing.RouteLoads | js/main.js:22-26 | the cart hash loads the cart page and an empty hash loads nothing |
| Routing.Router.constructor | js/main.js:10 | `isAdmin` starts false |
| Routing.Router.ShowSection | js/main.js:12-19 | every present section but the target is hidden and the target shown, an unknown target hides them all, other elements are untouched, and maintenance access is given exactly to an admin on the maintenance section |
| Routing.Router.Route | js/main.js:21-27 | shows the hash's section and starts its page load |
| Routing.Router.OnSession | js/main.js:38-57 | with a session the admin flag is the role test and the hash's section is shown again, every other present section hidden; without one the flag and maintenance access are cleared |
| Auth.LoadingWithAgrees | js/auth.js:31-43 | with a non-empty loading text the two loading helpers agree |
| Auth.AttemptRestoresButton | js/auth.js:100-109 | a sign-in or sign-up shows its loading text and, once it ends, re-enables the button with its text back |
| Auth.SetBtnLoading | js/auth.js:31-43 | a missing button is left alone; loading saves the label once, sets the text, disables and marks busy; unloading restores the label and clears both |
| Auth.Credentials | js/auth.js:95-97 | accepted exactly when the trimmed e-mail and the password are non-empty, carrying the trimmed e-mail |
| Auth.CredentialsTrimEmail | js/auth.js:95 | an address typed with surrounding spaces is accepted as the address itself |
| Auth.Submit | js/auth.js:93-111 | incomplete input is refused with the button untouched; otherwise the outcome follows the auth call and the button ends restored after its loading state |
| Auth.AccountName | js/auth.js:184 | profile name, else first name, else e-mail, else "Account": never empty |
| Auth.AccountNameIsFirstNonEmpty | js/auth.js:184 | the header name is the first non-empty of profile name, first name, e-mail and "Account" |
| Auth.AdminRoleIgnoresCase | js/auth.js:199-200 | the admin test ignores letter case, needs exactly five letters and fails for a missing role |
| Auth.HeaderEvent | js/auth.js:177-215 | signed out gives no user and no admin; signed in gives the session's user and admin exactly for the admin role |
| Auth.Bindings.constructor | js/auth.js:6-7 | nothing bound yet |
| Auth.Bindings.Bind | js/auth.js:74-124 | a handler is attached exactly when the element's flag is unset, so each element ends with exactly one handler |
| Dom.LoadingFlags | js/utils/dom.js:25-30 | loading disables and marks busy, unloading clears both; an empty loading text keeps the text |
| Dom.LoadingRoundTrip | js/utils/dom.js:22-30 | on a button with text, entering and leaving the loading state gives the text back and saves it |
| Dom.EmptyTextKeepsLoadingText | js/utils/dom.js:23-28 | a button with no text saves nothing, so the loading text stays after loading ends |
| Dom.LabelSavedOnce | js/utils/dom.js:23 | the label is saved on the first loading only, and unloading then restores it |
| Dom.IdleIdempotent | js/utils/dom.js:27-30 | leaving the loading state twice is leaving it once |
| Dom.Button.constructor | js/utils/dom.js:20 | a fresh button with its caption and nothing saved |
| Dom.SetButtonLoading | js/utils/dom.js:20-32 | a missing button is left alone; otherwise the button becomes the loading or idle state of its old state |
| Dom.ToggledConsistent | js/utils/dom.js:59-63 | a click leaves the toggle consistent, unmasks a masked password and masks anything else |
| Dom.ToggleInvolution | js/utils/dom.js:59-63 | on a consistent toggle two clicks restore the original state |
| Dom.PasswordToggle.constructor | js/utils/dom.js:55-58 | the toggle holds the input type and button text given |
| Dom.PasswordToggle.Click | js/utils/dom.js:59-63 | the state becomes the toggled state |

## Left out

- DOM rendering is left out: HTML markup, quote escaping in titles, modals, `alert`, `confirm`, toasts, `showConfirm`, `onReady` and the `MutationObserver`. Elements that the code checks for (`if (!wrap) return`) are always taken to be present. Exceptions are the sections and grids, whose presence is an input.
- Backend calls are not modelled as code. Tables and storage are class fields. Each read returns what the table holds. The success of each write, upload, list page and delete is an input. A duplicate-key insert error is modelled as the key already being present. The text of error messages is not modelled.
- Library string codecs (`encodeURIComponent`, `decodeURIComponent`, `URLSearchParams`, `new URL`) are modelled partly:
  - product ids are taken as `encodeURIComponent` leaves them;
  - the detail page receives the `id` parameter as an input;
  - `Pathname` models `new URL(u).pathname` only for plain hosts and paths;
  - percent-decoding is left out.
- `JSON.parse` and `JSON.stringify` of the local-storage cart and the signup draft are left out. The stored list and the draft are kept as values.
- Floating point is left out:
  - `Number(price)`, `parseFloat` and money are whole cents;
  - `Intl.NumberFormat` output is not modelled;
  - `Math.round(scrollLeft / clientWidth)` is an input to `ProductDetail.DetailPage.OnScroll`.
- `Date.now`, `crypto.randomUUID` and `Math.random` are inputs: a clock function and a product id.
- `window.matchMedia` (`isMobile`) is an input.
- The Unicode case mapping of `toLowerCase` and `toUpperCase` is modelled on ASCII letters only.
- In the e-mail endpoint, the CORS headers, the HTML bodies, the SMTP port and TLS settings, the `messageId` and the `detail` text of a 502 are left out. Delivery itself is an input. In the SMTP block, a `require('nodemailer')` that throws is the `mailerLoads` input and a failed or throwing transport or send is the `smtpOk` input; both give that block's 502.
- The message of a thrown Resend call is an input. The `TypeError` text for an items body that is not an array is a fixed stand-in; the engine's exact wording is not modelled.
- `Maintenance.UploadPathPlain` and `Maintenance.SubmittedImagesRemoved` are stated for files whose extension has no space or URL-reserved character. Other extensions would be percent-encoded in the public URL, and percent-decoding is left out.
- The `cart:changed` and `storage` events, the badge refresh they trigger, and cross-tab races on the local-storage cart are left out. They are event plumbing and concurrency.
- Each `Cart.CartStore` method is modelled as atomic: it runs to completion before the next one starts. The source yields at every `await`. On a page opened at `#cart`, the badge refresh started by `initCartView` and the page load started by `route` can both reach `getActiveCartId` before either caches an id. For a signed-in user without an active cart, both then insert one. `Cart.AtMostOneActive` does not cover that interleaving, and neither does any contract that relies on it.
- The add-to-cart button of the detail page is left out. It calls `addToCart`, which `Cart.CartStore.AddToCart` models.
- The OAuth buttons, the logout button, `openLoginUI`, `ensureLogoutStyle` and `showUserUI` are left out. They are UI wiring. The OAuth buttons' use of the loading helper is `Auth.SetBtnLoading`.
- `Profile.ProfileStore.EnsureProfile` returns the payload, with role Customer, after a duplicate-key update. The stored row keeps its old role; this matches the source.
- `CartView.CartPage.Load`: the badge is stated only for a guest whose user was known before the call. For a signed-in user it is the store's count when the count call succeeds; the lines shown are stated.
- `CartView.GetCartItems`: the contents are stated for a signed-in user only when the result is non-empty. An empty result covers both an empty cart and a missing cart.
- `Maintenance.UrlToPath`: its own contract states only the empty and raw-path cases. The http(s) cases are stated by `Maintenance.HttpUrlToPath`, `Maintenance.ObjectUrlToPath` and `Maintenance.PublicUrlToPath`, for plain hosts and paths.
- `ParseInt` accepts decimal digits only. JavaScript's digit separators and the `Infinity` and `0x` forms are not modelled, and `parseInt(value, 10)` ignores them anyway.
- The price check of the form is modelled on a price already parsed to cents, with `None` for NaN.
- The checkout and order-reconciliation flows are not part of this model.
- The config bootstrap files, `js/nav.js`, `script.js` and `public/js/phoneInput.js` are not part of this model.
