# Product listing and cart line items — a Dafny model

This project models the two pieces of logic in the e-commerce REST API's
routers that do more than forward a call to the document store:

- **Product listing** (`GET /api/products`, module `Products`): the query
  parameters `limit`, `page`, `sort`, `categoria`, `minPrice`, `maxPrice` and
  `search` become a store filter (exact category, a price range with
  independent bounds, a case-insensitive `$or` over `name` and
  `description`), a sort specification, and a page window
  (`skip = (page - 1) * limit`). The count of matching documents then gives
  the pagination envelope: `totalPages`, `prevPage`/`nextPage`,
  `hasPrevPage`/`hasNextPage` and the two navigation links.
- **Cart line items** (module `Carts`): a `CartStore` class holds the carts
  collection as a map from cart id to the cart's ordered line items. Its
  methods are the four cart handlers: remove a line item, replace all line
  items, set a line item's quantity, and delete a cart. Each one answers `Ok`
  with the cart's line items or `NotFound` with the handler's 404 message.

The model follows the code where it differs from the schemas:

- The category parameter is named `categoria`.
- Search and sort use the field `name`, but the product schema names it
  `title`. `Products.FilterMeaning` proves the consequence: a search can only
  ever match a product's description.
- The schema keeps no creation date, so sorting by `createdAt` has no field to
  sort on.
- Cart handlers match a line item on its `id`, not on the schema's
  `productId`. `LineItem` carries both fields, and only `id` is compared.
- Quantities have no floor (`int`). A new item's schema default is 1, but the
  handlers store whatever value the request supplies.

Module `Decimal` gives the plain decimal text of a natural number, together
with its inverse; for whole numbers below 10^21 this is the text a template
literal writes for the page numbers in the links. Module `Wrappers` holds
`Option`.

The store is an input, not part of the model. The listing takes the number of
matching documents and the fetched page as parameters. `parseFloat` and the
regular-expression engine are function parameters of `Products.Matches`.

## Model

| member | source | states |
|---|---|---|
| `Products.Query.Limit` | src/routes/products.router.js:9-10 | the page size is 10 when `limit` is absent, the parsed value otherwise |
| `Products.Query.Page` | src/routes/products.router.js:9-11 | the requested page is 1 when `page` is absent, the parsed value otherwise |
| `Products.OrEmpty` | src/routes/products.router.js:70-71 | `v \|\| ''` is the parameter's text when given and the empty string otherwise |
| `Products.BuildFilter` | src/routes/products.router.js:15-29 | category constraint iff `categoria` is given, equal to it; price range iff `minPrice` or `maxPrice` is given, lower bound only from `minPrice` and upper only from `maxPrice`, an absent bound unset; `$or` iff `search` is given, exactly the two case-insensitive clauses on `name` and `description` |
| `Products.FilterMeaning` | src/routes/products.router.js:15-29 | a product passes the filter iff it meets every given constraint; the clause on `name` never matches a product, so search matches only the description |
| `Products.BuildSort` | src/routes/products.router.js:32-45 | empty spec iff `sort` is absent or empty; at most one key, direction ±1; `name_asc`/`name_desc` give `name` ±1, `date_asc`/`date_desc` give `createdAt` ±1, `asc` gives `price` 1, any other token `price` -1 |
| `Products.SortTokenRoundTrip` | src/routes/products.router.js:32-45 | every field/direction pair the endpoint can sort by is produced by some token |
| `Products.TotalPages` | src/routes/products.router.js:51 | `totalPages * limit >= total`, `(totalPages - 1) * limit < total` when `total > 0`, and `totalPages = 0` iff `total = 0` |
| `Products.TotalPagesIsLeast` | src/routes/products.router.js:51 | no smaller page count covers `total`: totalPages is the ceiling of `total / limit` |
| `Products.Offset` | src/routes/products.router.js:52 | the skip count is a whole number of pages: exactly `page - 1` of them |
| `Products.ConsecutiveOffsets` | src/routes/products.router.js:52 | consecutive pages start exactly `limit` documents apart |
| `Products.PageInRange` | src/routes/products.router.js:51-52 | a page's window starts before `total` iff `page <= totalPages`; the last page holds at most `limit` documents |
| `Products.BuildStoreQuery` | src/routes/products.router.js:55-58 | `find` gets the built filter and sort, a limit of `limit`, and skips exactly `page - 1` whole pages |
| `Products.PageLink` | src/routes/products.router.js:70-71 | the link is the fixed head with the decimal limit, then the page number's digits, which read back as the page, then each other parameter's `\|\| ''` text in the source's order |
| `Products.PageLinkIdentifiesPage` | src/routes/products.router.js:70-71 | two links of one listing are equal iff their page numbers are equal |
| `Products.BuildEnvelope` | src/routes/products.router.js:61-72 | `prevPage` non-null iff `hasPrevPage` iff `prevLink` non-null iff `page > 1`, then `prevPage = page - 1` and the link names that page; the same for next with `page < totalPages` and `page + 1`; payload, page and totalPages as computed |
| `Products.EnvelopeMatchesWindow` | src/routes/products.router.js:52-71 | `hasPrevPage` iff the window skips documents; `hasNextPage` iff matching documents remain after the window; the two links differ |
| `Decimal.Digits` | src/routes/products.router.js:70-71 | the page and limit text is non-empty, all digits, with no leading zero |
| `Decimal.ValueOfDigits` | src/routes/products.router.js:70-71 | reading the decimal text back gives the number |
| `Carts.Without` | src/routes/carts.router.js:16 | no kept item has `id = pid`, and the result is no longer than the input |
| `Carts.WithoutMembers` | src/routes/carts.router.js:16 | an item is kept iff it was present and its id differs from `pid` |
| `Carts.WithoutAppend` | src/routes/carts.router.js:16 | removal distributes over concatenation, so kept items keep their relative order |
| `Carts.WithoutAbsent` | src/routes/carts.router.js:16 | removing an id that no item carries leaves the items unchanged |
| `Carts.WithoutIdempotent` | src/routes/carts.router.js:16-18 | removing twice equals removing once |
| `Carts.WithoutCommutes` | src/routes/carts.router.js:16 | removing two ids in either order gives the same items |
| `Carts.FindFirst` | src/routes/carts.router.js:49 | the found index is the first item with `id = pid`; none is found iff no item has that id |
| `Carts.SetQuantityAt` | src/routes/carts.router.js:50-51 | the found item gets the new quantity and keeps its ids; length and every other item unchanged |
| `Carts.SetQuantityOverwrites` | src/routes/carts.router.js:49-51 | the update is an absolute overwrite: the item is still found at the same index, and a second write replaces the first |
| `Carts.CartStore.RemoveItem` | src/routes/carts.router.js:9-23 | absent cart: NotFound and store unchanged; else the cart's items become the filtered items and are returned; other carts untouched |
| `Carts.CartStore.ReplaceAll` | src/routes/carts.router.js:26-38 | absent cart: NotFound and store unchanged; else the cart's items become exactly the supplied sequence, empty included; other carts untouched |
| `Carts.CartStore.SetQuantity` | src/routes/carts.router.js:41-61 | NotFound with store unchanged when the cart is absent or no item has `id = pid`; else only the first match's quantity is overwritten; other carts untouched |
| `Carts.CartStore.DeleteCart` | src/routes/carts.router.js:64-76 | absent cart: NotFound and store unchanged; else the cart is removed and its items returned; other carts untouched |

## Left out

- Store execution: `countDocuments`, `find().sort().skip().limit()`, `findById`, `findByIdAndUpdate`, `findByIdAndDelete` and `save` are not modelled. The count and the fetched page are inputs of the listing. `Products.Matches` gives the filter's meaning on one product, but result ordering is not modelled.
- `parseInt` of `limit` and `page`: the model takes the parsed natural number. NaN, `limit = 0` (which gives an infinite page count) and negative values are excluded by requiring `limit >= 1` and `page >= 1`.
- Decimal.Digits, Products.BuildEnvelope: page, limit, offset and page counts are modelled as unbounded naturals, while the source's JavaScript numbers are doubles, exact only up to 2^53 (at `page = 2^53` the source's `page + 1` equals `page`) and written in exponent form (`1e+21`) from 10^21 up; the model's arithmetic and link text agree with the source only below those bounds.
- `parseFloat` of the price bounds: a bound keeps the raw text. Floating-point comparison, NaN and the precision of `Math.ceil` on very large counts are not modelled.
- Regular-expression semantics: `search` is passed to the store as a raw pattern with option `i`, and the model keeps it as an opaque clause.
- Query parameters given more than once (Express then yields an array) are not modelled; each parameter is one string or absent.
- Link text: values are written into the links without percent-encoding, exactly as the code does; the model concatenates them verbatim and does not parse the links back.
- Carts.CartStore.ReplaceAll: an absent `products` field in the request body, and Mongoose casting or default-filling of the supplied items, are not modelled; the supplied sequence is stored as given.
- Carts.CartStore.SetQuantity: a missing or non-numeric `quantity` in the body, which would fail schema validation on save, is not modelled; the quantity is an integer.
- The product create, update and delete handlers are one-line wrappers over store calls and are not modelled.
- There is no add-to-cart or create-cart handler in the cart router, so neither is modelled.
- Express wiring, the database connection, async/await, error logging, the 500 catch-all and the lost-update race between concurrent requests on one cart are I/O and concurrency concerns, outside the model.
