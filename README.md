# Marketplace listing store

A Dafny model of the listing store at the heart of the SCoinS marketplace
server (`server.js`). The server keeps one in-memory array of listings.
It loads that array from a JSON data file at start-up. If the file is missing
or unreadable, it uses two built-in demo listings instead. Three HTTP handlers
change or report on the array:

- **create** (`POST /api/marketplace`) copies the request body. It stamps the
  copy with a store-made `globalId` (`global_<sellerId>_<millis>`) and a
  `timestamp`. It rejects the copy if `coin`, `price` or `sellerId` is falsy.
  Otherwise it appends the copy and rewrites the data file.
- **remove** (`DELETE /api/marketplace/:id?userId=…`) finds the first listing
  with that `globalId`. It answers not-found when there is none, and forbidden
  when that listing's `sellerId` is not `userId`. Otherwise it splices the
  listing out and rewrites the data file.
- **list** and **status** return the array and its length.

The model has three modules:

- `Decimal` renders the millisecond clock as the template literal does, and
  parses a numeral back.
- `Listings` holds the data model and the pure meaning of each operation:
  `AddListing`, `RemoveListing` and `Load`. Each returns the outcome and the
  collection afterwards. It also holds the identifier format with its parser,
  and the lemmas that relate the operations.
- `Store` holds the class `Marketplace`. Its `listings` field is the
  server's array. Its `disk` field is what re-reading the data file would give.
  Its methods `Create`, `Remove`, `List`, `Status` and `Save` are the handler
  bodies. Each method's postcondition ties the new state to the pure function
  of the old state. `Scenarios` is a verification client whose assertions
  follow from the method contracts alone. It covers removing `demo_1` as
  `wrong_user` and then as `user_123`, and creating a listing for `u1` at
  price 40.

Inputs the server takes from its environment are parameters:

- Each `Date.now()` reading is a separate parameter. Create reads the clock
  twice, once for the identifier and once for the timestamp (`idTime`,
  `stampTime`). The demo data reads it once per listing (`now1`, `now2`).
- What reading the data file gave is the datatype `StorageRead`: `Absent`,
  `Unreadable` or `Stored(contents)`.
- Whether a data-file write succeeds is `writeOk`.

A request field that is `undefined` is `None`. The remove handler compares
`sellerId` with the `userId` query parameter by strict equality. So a stored
listing without a `sellerId` can be removed by a request without a `userId`.
The model keeps this.

Facts about server.js that the model keeps:

- Create validates `coin`, `price` and `sellerId` (server.js:96).
- Nothing in server.js enforces `globalId` uniqueness.
  `SameMillisecondCollision` shows two listings getting one identifier.
  `AddKeepsIdsDistinct` gives the exact condition under which a create keeps
  identifiers distinct. `RemoveKeepsIdsDistinct` shows that a removal never
  breaks distinctness.
- Create's identifier and timestamp come from two separate clock readings
  (server.js:91-92), so they can differ.

## Model

| member | source | states |
|---|---|---|
| `Decimal.Format` | server.js:91 | the rendering of a clock reading is a non-empty digit string with no leading zero |
| `Decimal.ParseFormat` | server.js:91 | parsing the rendered clock reading gives the reading back |
| `Decimal.FormatParse` | server.js:91 | every canonical numeral is the rendering of its own value, so rendering is onto the canonical numerals |
| `Decimal.FormatInjective` | server.js:91 | two clock readings render to the same text exactly when they are equal |
| `Listings.SplitGlobalIdRoundTrip` | server.js:91 | the seller text and the millisecond reading can be read back from every generated identifier |
| `Listings.SplitGlobalIdSound` | server.js:91 | every string the identifier reader accepts is exactly the identifier made from what it read |
| `Listings.GlobalIdInjective` | server.js:91 | two identifiers are equal exactly when they come from the same seller text and the same millisecond |
| `Listings.AddListing` | server.js:89-100 | create is rejected exactly when coin is absent, price is absent or 0, or sellerId is absent or empty; a rejection leaves the collection as it was; on success the new listing is appended after all earlier ones, which keep their positions; its globalId is `global_<sellerId>_<idTime>`, its timestamp is `stampTime`, and every other field is the body's; the listing is built by `Stamp` (the spread with the two overrides, the identifier text made by `GlobalId` with `Interpolated` for the seller) and checked by `HasRequiredFields` |
| `Listings.FindIndex` | server.js:110 | the result is -1 exactly when no listing has the id; otherwise it is the first position holding the id |
| `Listings.Splice` | server.js:122 | removing one position shortens the collection by one; entries before it stay in place and entries after it shift down by one |
| `Listings.RemoveListing` | server.js:110-122 | not-found exactly when no listing has the id; forbidden exactly when the first listing with the id has a sellerId other than userId; both leave the collection unchanged; on success exactly the first listing with the id, owned by userId, is cut out and the rest keep their order |
| `Listings.Load` | server.js:17-62 | a parsed data file is taken verbatim; a missing or unreadable file gives exactly the two demo listings of `DemoListings`, with every modelled field fixed: `demo_1` by `user_123` (Алексей) at 40 and `demo_2` by `user_456` (Мария) at 80, both with a coin, stamped one and two hours before the clock readings |
| `Listings.DemoIdsDistinct` | server.js:27-62 | the demo collection holds no duplicate identifier |
| `Listings.AddKeepsIdsDistinct` | server.js:89-100 | on a collection without duplicate identifiers, a successful create keeps identifiers distinct exactly when the new identifier was not already in use |
| `Listings.RemoveKeepsIdsDistinct` | server.js:110-122 | a removal never introduces a duplicate identifier |
| `Listings.FindIndexAppend` | server.js:110 | after an append to a collection that lacks the id, the search finds the appended listing or nothing |
| `Listings.AddThenRemove` | server.js:87-128 | right after creating a listing under an unused identifier, removing it as its seller restores the earlier collection, and removing it as anyone else is forbidden and changes nothing |
| `Listings.SameMillisecondCollision` | server.js:91-122 | starting from any collection in which the identifier is unused, two listings by one seller stamped in the same millisecond get the same identifier, the collection then holds a duplicate, and a removal by that identifier deletes the older listing and keeps the newer one at the end |
| `Store.Marketplace.constructor` | server.js:76 | the store starts from the loaded collection, and the data file is left as it was read |
| `Store.Marketplace.List` | server.js:79-81 | listing returns the current collection unmodified and in order |
| `Store.Marketplace.Status` | server.js:131-136 | the status item count is the length of the current collection |
| `Store.Marketplace.Save` | server.js:66-74 | a successful write makes the data file hold the current collection; a failed write is reported as false and changes nothing |
| `Store.Marketplace.Create` | server.js:87-102 | the outcome and the new collection are those of `AddListing` on the old collection; a rejection changes nothing; a success appends the new listing, and the data file then holds the whole collection if the write succeeded |
| `Store.Marketplace.Remove` | server.js:108-124 | the outcome and the new collection are those of `RemoveListing`; not-found and forbidden change nothing; a success shortens the collection by one and rewrites the data file if the write succeeded |

## Left out

- The Express application, CORS, JSON body parsing, static files, `sendFile`
  and `app.listen` (server.js:1-11, 140-148) are transport glue. The mapping
  of outcomes to status codes (400, 404, 403, 200) is not modelled.
- `fs` and `JSON` are not modelled. Reading the file is the `StorageRead`
  parameter, and a write is the `writeOk` flag.
- Store.Marketplace.Save: a successful write is assumed to round-trip exactly
  through `JSON.stringify` and `JSON.parse` for the modelled fields, so `disk`
  becomes the collection itself. This is an assumption, not a proved property.
- A failed write leaves `disk` as it was. A write that fails halfway and leaves
  a truncated file is not modelled.
- A data file that parses to something other than an array is not modelled.
  In server.js, the first create on such a value throws.
- The `catch` branches that answer 500 and all console logging are left out.
  They are reached only through exceptions in foreign code.
- `Date.now()` readings are parameters. The create readings are `nat`, so
  negative readings (before 1970), which JavaScript renders with a leading
  `-`, are not modelled. Readings of 10^21 or more, which JavaScript renders
  in exponent notation, are not modelled either. The ISO date in
  the status response is library formatting and is left out.
- `sellerRating`, the contents of the `coin` object and request fields other
  than `globalId`, `coin`, `price`, `sellerId`, `sellerName` and `timestamp`
  are not modelled. `coin` is only a flag for a truthy coin value.
- Field values of other JSON types are not modelled. This covers a `null`
  field, a non-numeric or NaN `price`, a numeric `sellerId`, and a `userId`
  given more than once. Prices are reals, and string fields are strings or
  absent.
- Concurrent requests are not modelled. server.js handles each request to
  completion before the next.
