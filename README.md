# Robotics storefront and admin client — a Dafny model

This project models the logic inside a small React client for a robotics
equipment catalog. The client has a public catalog page and an admin
console. The model covers four components:

- **Catalog page** (`Catalog`, from `src/pages/Product.jsx`). The product
  list is narrowed by a free-text search and a sidebar category. The search
  is an ASCII case-folded substring test on name or description. The
  category test passes on an exact match or on the `All Products` sentinel.
  The page then shows a spinner, a grid or a "No products found" state.
- **Admin console** (`Admin`, from `src/pages/ProductController.jsx`). Four
  dashboard figures are computed from the in-memory list: the count, the
  inventory value (the sum of `price * stock`), the low-stock count
  (`0 < stock < 10`) and the number of distinct categories. Each table row
  gets a three-way stock badge. The component state is the class
  `Admin.ProductController`, whose methods replace the list on a load and
  remove every entry with a given `_id` on a confirmed, completed delete.
- **Create/edit dialog** (`Modal`, from `src/components/ProductModal.jsx`).
  This covers the default form, the copy of an existing product into the
  form, and the multipart body built on submit: seven text parts, then one
  `images` part per selected file. It also covers the choice between
  `POST /products` and `PUT /products/{_id}`.
- **Product card** (`Card`, from `src/components/ProductCard.jsx`). This
  covers the primary-image fallback, the stock badges, and the cart
  button's disabled flag and text.

Supporting modules:

- `Text` holds ASCII lower-casing, substring search, `join`, and the
  decimal text `FormData.append` produces for a number. `ParseInt` is its
  inverse.
- `Seqs` holds `Array.prototype.filter` as a generic `Filter`, the
  subsequence relation, and the insertion-ordered de-duplication performed
  by `[...new Set(xs)]`.
- `Products` holds the product record.

Prices and stocks are unbounded integers. Strings are `seq<char>`.

Three facts about the code shape the model:

- The dialog's submit handler does no validation of its own. The browser's
  handling of the HTML `required` attributes on name, description, price
  and stock (src/components/ProductModal.jsx:91, 101, 114, 126) is
  modelled as the predicate `Modal.RequiredFilled`: a form that fails it
  is not submitted. The `min="0"` attributes are not modelled.
- The client never splits the `features` text back into tags. It only
  joins tags with `", "` when it prefills an edit.
- The client-side delete filter leaves the list unchanged when no entry has
  the id. A delete request that throws also leaves the list unchanged.

## Model

| member | source | states |
|---|---|---|
| `Text.Lower` | src/pages/Product.jsx:32-33 | lower-casing keeps the length, folds each character on its own, and leaves no upper-case ASCII letter |
| `Text.LowerIdempotent` | src/pages/Product.jsx:32-33 | folding a folded string changes nothing |
| `Text.Contains` | src/pages/Product.jsx:32-33 | the empty pattern is found in every text, and a found pattern is no longer than the text |
| `Text.ContainsIff` | src/pages/Product.jsx:32-33 | `includes` holds exactly when the pattern occurs at some index of the text |
| `Text.DecimalRoundTrip` | src/components/ProductModal.jsx:40-42 | the decimal text sent for any integer price or stock reads back as that integer |
| `Text.Join` | src/components/ProductModal.jsx:25 | joining no tags gives the empty text, and joining one tag gives that tag unchanged |
| `Text.JoinSnoc` | src/components/ProductModal.jsx:25 | joining one more tag appends the separator and then that tag, so the joined text is the tags in order with one separator between each two |
| `Text.JoinLength` | src/components/ProductModal.jsx:25 | the joined features text is as long as all tags plus one separator between each two |
| `Text.IntToDecimal` | src/components/ProductModal.jsx:40-42 | the text `FormData.append` sends for a number is never empty: all digits for a non-negative number, a `-` followed by digits for a negative one |
| `Seqs.Filter` | src/pages/Product.jsx:31-36 | `filter` returns no more elements than its input, and each one is an input element that passes the test |
| `Seqs.Dedup` | src/pages/ProductController.jsx:46 | `[...new Set(xs)]` has no duplicates, holds exactly the values of `xs`, and is no longer than `xs` |
| `Seqs.FilterSubsequence` | src/pages/Product.jsx:31-36 | `filter` returns a subsequence of its input, in input order |
| `Seqs.FilterMultiset` | src/pages/Product.jsx:31-36 | `filter` keeps every occurrence of a kept value and no occurrence of a dropped one |
| `Seqs.FilterUnchangedIff` | src/pages/Product.jsx:31-36 | `filter` returns its input unchanged exactly when every element passes |
| `Products.ThumbnailUrl` | src/components/ProductCard.jsx:4 | the shared image fallback: the first image's URL when present and non-empty, else the placeholder, so never empty when the placeholder is not |
| `Catalog.MatchSearch` | src/pages/Product.jsx:32-33 | the empty search matches every product; a matching search is no longer than the name or than the description |
| `Catalog.MatchCategory` | src/pages/Product.jsx:34 | `All Products` admits every product; any other category admits exactly the products whose category equals it |
| `Catalog.Filtered` | src/pages/Product.jsx:31-36 | the shown list is no longer than the product list, and everything in it is a listed product that passes both tests |
| `Catalog.FilteredIsSubsequence` | src/pages/Product.jsx:31-36 | the shown list is a subsequence of the product list, in its original order |
| `Catalog.FilteredExactly` | src/pages/Product.jsx:32-35 | a product is shown exactly when it passes the search and category tests, and as often as it is listed |
| `Catalog.FilteredInitialIsIdentity` | src/pages/Product.jsx:10-11 | with the initial empty search and `All Products` the whole list is shown unchanged |
| `Catalog.FilteredCategoryExact` | src/pages/Product.jsx:34 | under any category other than the sentinel, every shown product has exactly that category |
| `Catalog.FilteredIdempotent` | src/pages/Product.jsx:31-36 | filtering the shown list again with the same inputs changes nothing |
| `Catalog.MatchSearchIff` | src/pages/Product.jsx:32-33 | the search passes exactly when the folded search text occurs in the folded name or the folded description |
| `Catalog.MatchSearchIgnoresCase` | src/pages/Product.jsx:32-33 | a search text and its lower-case form give the same verdict |
| `Catalog.UnlistedCategoryOnlyUnderAll` | src/pages/Product.jsx:34-38 | a product whose category has no sidebar entry is shown under `All Products` when the search matches, and under no other entry |
| `Catalog.View` | src/pages/Product.jsx:92-106 | spinner exactly while loading; "No products found" exactly when no product passes; otherwise a non-empty grid of the filtered list |
| `Catalog.ExampleSearch` | src/pages/Product.jsx:31-36 | searching "drone" over an arm and a drone shows only the drone |
| `Admin.TotalValue` | src/pages/ProductController.jsx:44 | the empty list is worth 0, and a one-row list is worth that row's price times its stock |
| `Admin.TotalValueNonNegative` | src/pages/ProductController.jsx:44 | a list with no negative price or stock has a non-negative inventory value |
| `Admin.LowStock` | src/pages/ProductController.jsx:45 | the low-stock count is at most the number of rows, and 0 when no row has `0 < stock < 10` |
| `Admin.UniqueCategories` | src/pages/ProductController.jsx:46 | the category count is at most the number of rows, and at least 1 for a non-empty list |
| `Admin.ComputeStats` | src/pages/ProductController.jsx:43-46 | the count is the list length; low stock and categories are at most the count; a non-empty list has at least one category; the empty list gives all zeros |
| `Admin.TotalValueAppend` | src/pages/ProductController.jsx:44 | the value of two concatenated lists is the sum of their values |
| `Admin.TotalValueOrderIndependent` | src/pages/ProductController.jsx:44 | any reordering of the list has the same total value |
| `Admin.LowStockAppend` | src/pages/ProductController.jsx:45 | a new row raises the low-stock count by one exactly when `0 < stock < 10`, so stock 0 and stock 10 never count |
| `Admin.LowStockCountsRows` | src/pages/ProductController.jsx:45 | the low-stock count is the number of positions whose row has `0 < stock < 10` |
| `Admin.UniqueCategoriesIsDistinctCount` | src/pages/ProductController.jsx:46 | the category count is the number of distinct category values in the list |
| `Admin.UniqueCategoriesOrderIndependent` | src/pages/ProductController.jsx:46 | any reordering of the list has the same category count |
| `Admin.ExampleStats` | src/pages/ProductController.jsx:43-46 | the arm (stock 0) and drone (stock 5) example gives count 2, value 2500, low stock 1, categories 2 |
| `Admin.RowThumbnailUrl` | src/pages/ProductController.jsx:145 | a table row's thumbnail is the first image's URL when present and non-empty, else `https://via.placeholder.com/50`; it is never empty |
| `Admin.StockBadgeClass` | src/pages/ProductController.jsx:159-162 | danger exactly at stock 0, warning exactly for non-zero stock below 10, success exactly from 10 up |
| `Admin.WarningRowsAreLowStock` | src/pages/ProductController.jsx:159-162 | when no stock is negative, the warning rows are exactly the rows the low-stock card counts |
| `Admin.RemoveId` | src/pages/ProductController.jsx:35 | the list after removal is no longer than before, and holds only old entries with a different id |
| `Admin.RemoveIdExactly` | src/pages/ProductController.jsx:35 | removal is an order-keeping subsequence that drops every entry with the id and keeps each other entry as often as before |
| `Admin.RemoveIdUnchangedIff` | src/pages/ProductController.jsx:35 | removal leaves the list unchanged exactly when no entry has the id |
| `Admin.ProductController.constructor` | src/pages/ProductController.jsx:7-10 | the console starts with an empty list, the spinner on and the dialog closed |
| `Admin.ProductController.Load` | src/pages/ProductController.jsx:16-28 | a successful response replaces the list; a failed or unsuccessful one keeps it; loading ends either way |
| `Admin.ProductController.Delete` | src/pages/ProductController.jsx:30-41 | only a confirmed delete whose request completes replaces the list by the old list without that id; the dialog state is untouched |
| `Admin.ProductController.OpenCreate` | src/pages/ProductController.jsx:64-67 | "Add Product" opens the dialog with no product |
| `Admin.ProductController.OpenEdit` | src/pages/ProductController.jsx:171-174 | a row's edit button opens the dialog on that product |
| `Admin.ProductController.CloseModal` | src/pages/ProductController.jsx:207-210 | closing hides the dialog and forgets the product being edited |
| `Modal.DefaultForm` | src/components/ProductModal.jsx:6-13 | a new form has category `Drones` and every other field empty, and sends empty price and stock |
| `Modal.PrefillAsWritten` | src/components/ProductModal.jsx:19-26 | as written, the edit form copies name, description and the joined features; category is copied when non-empty and becomes `Drones` when blank; price and stock become blank exactly when they are 0, and are copied otherwise |
| `Modal.InitialForm` | src/components/ProductModal.jsx:6-28 | the dialog's form is the default form for a new product, and the as-written prefill for an edited one; its category is never empty |
| `Modal.FeaturesText` | src/components/ProductModal.jsx:25 | missing tags give the empty text, one tag gives that tag, and two or more tags give a text at least as long as the `", "` separator |
| `Modal.RequiredFilled` | src/components/ProductModal.jsx:91-127 | the browser's required check fails whenever price or stock is blank, and with numbers in both it passes exactly when name and description are non-empty |
| `Modal.PrefillAsWrittenAgreesOffZero` | src/components/ProductModal.jsx:19-26 | the prefill as written equals the zero-keeping prefill exactly when price and stock are both non-zero |
| `Modal.FeaturesTextEmptyIff` | src/components/ProductModal.jsx:25 | the features text is empty exactly for missing tags, no tags, or a single empty tag |
| `Modal.BuildPayload` | src/components/ProductModal.jsx:35-51 | the appended parts are the seven text parts followed by one `images` part per file, in selection order |
| `Modal.PayloadShape` | src/components/ProductModal.jsx:38-51 | the body has seven parts plus one per file: the seven fields in order, then `images` repeated; exactly the text parts when no file is selected |
| `Modal.PayloadRoundTrip` | src/components/ProductModal.jsx:38-51 | reading the body back gives each form value under its own name, `specifications` as `{}`, and the selected files in order |
| `Modal.EditRoundTrip` | src/components/ProductModal.jsx:17-26 | for the corrected, zero-keeping prefill (`??` in place of the logical or): the form passes the required checks exactly when name and description are non-empty, and an untouched edit sends the product's name, description, features text and category (blank becomes `Drones`), with price and stock reading back as the product's own values, 0 included |
| `Modal.ZeroStockPrefillIsBlank` | src/components/ProductModal.jsx:24 | as written, a product with stock 0 opens with a blank stock field, so the form fails the required checks and the untouched edit cannot be submitted; the zero-keeping prefill passes them whenever name and description are non-empty |
| `Modal.ResourcePath` | src/components/ProductModal.jsx:56 | the update path is `/products/` followed by exactly the id |
| `Modal.ResourcePathInjective` | src/components/ProductModal.jsx:56 | two ids share an update path only if they are equal |
| `Modal.SubmitRequest` | src/components/ProductModal.jsx:54-62 | an edit dialog updates its own product's path; a new dialog creates at `/products` |
| `Card.CardImageUrl` | src/components/ProductCard.jsx:4 | the card image is the first image's URL when present and non-empty, else the fixed placeholder; it is never empty |
| `Card.Badges` | src/components/ProductCard.jsx:12-17 | at most one badge shows; "Out of Stock" exactly at stock 0, "Low Stock" exactly for `0 < stock < 10` |
| `Card.CartButtonFor` | src/components/ProductCard.jsx:38-41 | the button is disabled exactly at stock 0, and its text is "Out of Stock" exactly when disabled, else "Add to Cart" |
| `Card.CardAgreesWithAdmin` | src/components/ProductCard.jsx:12-17 | the disabled button, the card's out-of-stock badge and the table's danger badge coincide; the card's low-stock badge marks exactly the rows the dashboard counts |

## Findings

| source | as written | input that shows it | evidently intended | confidence | as-written member | corrected member |
|---|---|---|---|---|---|---|
| src/components/ProductModal.jsx:22-24 | the `price` and `stock` prefills fall back to `''` on any falsy value, so a zero becomes an empty field | editing a product with stock 0 (or price 0): the required number field opens blank, so the browser refuses the untouched submit and the user must type the 0 again | the edit form shows the product's own 0, as `?? ''` would | not executed; medium | `Modal.ZeroStockPrefillIsBlank` | `Modal.EditRoundTrip` |

## Left out

- Network calls (`api.get/post/put/delete`), `alert`, `window.confirm` and
  `console.*` are I/O. `Load` takes the response as a parameter. `Delete`
  takes the user's confirmation and whether `api.delete` completed without
  throwing as parameters. The code never reads the delete response's body,
  so a reply with `success: false` still removes the entry.
- The catalog page's own `loadProducts` (src/pages/Product.jsx:17-29) is not
  modelled separately. It updates the page's list exactly as
  `Admin.ProductController.Load` does.
- The dialog's `loading` flag, and its success path (`onSave()` reloading the
  list, then `onClose()`), are UI plumbing over asynchronous calls. A reload
  is `Load`; a close is `CloseModal`.
- The form's `onChange` handlers are not modelled as state changes. Each one
  overwrites a single field with the typed text. `Modal.Form` is a value, and
  the file input's selection is the `images` parameter of `BuildPayload`.
- JavaScript `Number` floating point and `toLocaleString` formatting are left
  out. Price and stock are unbounded integers, so `TotalValue` never rounds.
- Every product is assumed to carry a `name` and a `description` string.
  In the code, `p.name.toLowerCase()` and `p.description.toLowerCase()`
  (src/pages/Product.jsx:32-33) throw during the catalog render when either
  is missing; that failure is not modelled.
- Full Unicode `toLowerCase` is left out. `Text.Lower` folds ASCII `A`–`Z`
  only.
- Splitting the features text and field validation are left out, because the
  code does neither.
- The price-range buttons and the sort `<select>` are left out. They have no
  handlers.
- The sidebar's highlight of the selected category is markup only.
- The axios instance (src/services/api.js), routing (src/App.jsx), and the
  navigation bar and footer are not part of this model.
- `Admin.ProductController.Delete`: the delete is one atomic step over the
  current list. In the code the filter runs over the list captured when the
  handler was created, so two overlapping deletes can bring the first
  deleted product back; that interleaving is not captured.
- `Admin.WarningRowsAreLowStock` requires non-negative stock. For a negative
  stock the table shows the warning badge (`stock < 10`), but the dashboard
  does not count the row and the card shows no badge. Only the HTML
  `min="0"` attribute keeps stock non-negative.
