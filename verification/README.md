# Product creation handler, modelled in Dafny

This project models `create_product`, the `POST /api/products` handler of the
inventory service. It checks a JSON request in a fixed order, and the first
failing check decides the error response:

1. The required top-level keys are `name`, `sku`, `price`, `initial_quantity` and `warehouse_id`.
2. `warehouses` is a non-empty list.
3. The price, read with `Decimal(str(...))` and rounded to cents, is positive.
4. The SKU is not already used.
5. Each warehouse entry is checked in order: its shape, then its warehouse, then its quantity.

Only a request that passes every check writes anything. It writes one Product,
then one Inventory row per entry, and answers 200 with the new product id.

The modules:

- `Decimals`: exact decimals (`units / 10^places`), plus the text form that Python's
  `Decimal(str)` reads:
  - leading and trailing whitespace is stripped;
  - underscores are dropped;
  - then come an optional sign, digits with at most one point, and an optional exponent.

  `Render` writes a decimal as plain text. `RenderParses` proves that the parser reads
  back exactly what was written.
- `Json`: the decoded request. Values are int, float, string, bool, null, list or dict, and
  a request is a map from keys to values.
- `Price`: `round(Decimal(str(price)), 2)` under Python's default decimal context:
  - ROUND_HALF_EVEN rounding;
  - precision 28, where a longer quantized coefficient raises and the generic handler
    answers 500;
  - then the test `price <= 0`.
- `Validation`: checks 1 to 5 as pure functions over the request, the set of used SKUs and
  the set of warehouse ids.
- `ProductApi`: the handler as a function from a request and a store to the response and
  the new store (`CreateProduct`). The lemmas state what each outcome looks like.
- `ProductStore`: the class `Store`. Its Product and Inventory tables grow in place. Its
  `CreateProduct` method runs the checks with early returns and a loop over the entries,
  then the insertion loop. It is proved to agree with `ProductApi.CreateProduct` and to keep
  the store consistent.
- `Scenarios`: concrete requests and the exact responses and writes they produce.

Three behaviours of the code are kept as written:

- the stored price is the raw `data['price']`, not the rounded value;
- two entries for the same warehouse write two Inventory rows;
- a request without a `warehouses` key gets 500, not 400.

## Model

| member | source | states |
|---|---|---|
| Validation.MissingFrom | Part1/api.py:15 | the keys reported are exactly the listed keys absent from the request, in list order (a subsequence of the list); `MissingFields` applies it to the required list of line 14 |
| Validation.NoneMissing | Part1/api.py:14-17 | nothing is reported missing exactly when every required key is present |
| Validation.AllRequiredPresent | Part1/api.py:14-17 | past the first check, all five required keys can be read |
| Validation.FirstEntryErrorNone | Part1/api.py:34-46 | the entry loop lets the request through exactly when every entry passes all three of its checks |
| Validation.FirstEntryErrorAt | Part1/api.py:34-46 | when entry k is the first bad one, its error is the loop's error, whatever follows it |
| Validation.AcceptedShape | Part1/api.py:14-46 | an accepted request has name, sku, price and a non-empty list of valid entries, and its sku is unused |
| Decimals.CleanTextParses | Part1/api.py:24 | text with no surrounding whitespace and no underscore is read as it stands |
| Decimals.NoExponentMarker | Part1/api.py:24 | text without `e`/`E` is read as a plain mantissa |
| Decimals.MantissaPoint | Part1/api.py:24 | `whole.fraction` reads as the digits' value over 10 to the fraction's length |
| Decimals.SignedTextParses | Part1/api.py:24 | a `-` before number text negates its value, and without it the value is kept |
| Decimals.RenderParses | Part1/api.py:24 | every decimal, written as plain text, is read back as exactly that decimal |
| Price.RoundToCents | Part1/api.py:24 | `round(d, 2)` is within half a cent of d; on an exact tie it is the even number of cents |
| Price.PriceDecimalIsDecimalOfText | Part1/api.py:24 | reading the price by its kind agrees with `Decimal(str(price))`: numbers keep their value, strings are parsed, and true/false/null/lists/dicts are refused |
| Price.WordRefused | Part1/api.py:24 | non-empty text with no surrounding whitespace and no underscore whose first character is not a sign, point or digit (`True`, `None`, `abc`, `x`) is not a decimal |
| Price.PriceCents | Part1/api.py:24 | the rounded price exists exactly for a readable decimal whose rounded coefficient fits in 28 digits, and is then `round(d, 2)` |
| Price.RoundedPositiveIff | Part1/api.py:24-26 | the price passes `price <= 0` exactly when it is above half a cent (0.005 rounds to 0.00) |
| ProductApi.RejectionResponse | Part1/api.py:14-88 | every rejection has an error body; it is 500 exactly for the missing `warehouses` key and for a price that is unreadable or whose rounded coefficient exceeds 28 digits, and 400 otherwise |
| ProductApi.Quantity | Part1/api.py:45-69 | the stored quantity is non-negative and equals the int sent; `True` is stored as 1 and `False` as 0 |
| ProductApi.NewRowsAt | Part1/api.py:63-73 | the write loop makes one row per entry, the k-th row from the k-th entry |
| ProductApi.RejectionWritesNothing | Part1/api.py:13-58 | only a fully validated request answers 200, and any other answer leaves the store unchanged |
| ProductApi.MissingFieldsRejected | Part1/api.py:14-17 | any absent required key gives 400 `Missing required fields: ...`, listing the missing keys in required order joined by `, ` |
| ProductApi.WarehousesKeyAbsent | Part1/api.py:20 | with the required keys present but no `warehouses` key, the KeyError reaches the generic handler: 500 `Internal server error`, nothing written |
| ProductApi.WarehousesNotNonEmptyList | Part1/api.py:20-21 | a `warehouses` that is not a list, or is empty, gives 400 `warehouses must be a non-empty list` |
| ProductApi.UnreadablePriceRejected | Part1/api.py:24 | a price that `Decimal(str(...))` cannot read gives 500 `Internal server error`, whatever the store |
| ProductApi.PriceNotPositiveRejected | Part1/api.py:24-26 | a readable price of at most half a cent whose rounded coefficient fits in 28 digits gives 400 `Price must be greater than 0` for every store, so the store is not consulted (a longer one, such as -10^30, raises and gets 500) |
| ProductApi.PositivePricePasses | Part1/api.py:24-26 | a readable price above half a cent whose rounded coefficient fits in 28 digits gets past checks 1 to 3 (required keys present, `warehouses` a non-empty list); a longer one, such as 10^26, raises and gets 500 |
| ProductApi.SkuTakenRejected | Part1/api.py:29-31 | a used sku gives 400 `SKU already exists` |
| ProductApi.FirstBadEntryRejected | Part1/api.py:34-46 | the first bad entry decides the response: shape, then warehouse, then quantity; nothing is written |
| ProductApi.AcceptedWrites | Part1/api.py:49-75 | on success: 200 with the next id; exactly one new Product (name, sku, unrounded price); the old rows untouched; one row per entry in entry order with the entry's warehouse and quantity; the sku set grows by the new sku; nothing else changes |
| ProductApi.CreateProductKeepsDbValid | Part1/api.py:29-75 | the handler keeps SKUs and ids unique and every Inventory row pointing at an existing product and warehouse with a non-negative quantity |
| ProductStore.Store.CheckEntries | Part1/api.py:34-46 | the entry loop with early returns returns the first entry's error, as `FirstEntryError` states |
| ProductStore.Store.Insert | Part1/api.py:49-73 | the Product table gains the new product with the next id, and the Inventory table gains `NewRows`, in order |
| ProductStore.Store.CreateProduct | Part1/api.py:6-75 | the step-by-step handler gives the response and the new store that `ProductApi.CreateProduct` specifies, and keeps the store consistent |
| ProductApi.CreateProduct | Part1/api.py:14-75 | no contract of its own: the handler as a function; specified by `RejectionWritesNothing`, the `...Rejected` lemmas, `AcceptedWrites` and `CreateProductKeepsDbValid` |
| Validation.Validate | Part1/api.py:14-46 | no contract of its own: all five checks in order; specified by `AcceptedShape`, `RejectionWritesNothing` and the `ProductApi` rejection lemmas |
| Validation.RequestError | Part1/api.py:14-26 | no contract of its own: checks 1 to 3; specified by `PositivePricePasses` and the `ProductApi` rejection lemmas for those checks |
| Validation.EntryError | Part1/api.py:36-46 | no contract of its own: one entry's three checks in order, with `WarehouseFound` for the lookup at lines 40-41 and `IsNonNegativeInt` for the test at line 45; specified by `FirstBadEntryRejected` |
| Validation.FirstEntryError | Part1/api.py:34-46 | no contract of its own: specified by `FirstEntryErrorNone` and `FirstEntryErrorAt`, and computed by `Store.CheckEntries` |
| Validation.Join | Part1/api.py:17 | no contract of its own: `', '.join`; its value on a concrete list is checked in `TopLevelEntryKeysMessage` |
| Decimals.ParseDecimal | Part1/api.py:24 | no contract of its own: `Decimal(s)`; specified by `CleanTextParses`, `SignedTextParses`, `RenderParses` and `WordRefused` |
| Price.PriceDecimal | Part1/api.py:24 | no contract of its own: the price read by its kind; specified by `PriceDecimalIsDecimalOfText` |
| Price.DecimalOfText | Part1/api.py:24 | no contract of its own: `Decimal(str(price))` read literally, with `PriceText` spelling `str()`; the reference for `PriceDecimalIsDecimalOfText` |
| ProductApi.NewRows | Part1/api.py:63-73 | no contract of its own: the rows the write loop adds, each built by `NewRow` as at lines 66-70; specified by `NewRowsAt` and built step by step by `Store.Insert` |
| Scenarios.TopLevelEntryKeysMessage | Part1/api.py:17 | the missing-fields message for `initial_quantity` and `warehouse_id` |
| Scenarios.WarehousesAloneAreNotEnough | Part1/api.py:14-17 | a request with name, sku, price and `warehouses` but no top-level `initial_quantity` or `warehouse_id` gets 400 `Missing required fields: initial_quantity, warehouse_id` |
| Scenarios.WidgetCreated | Part1/api.py:24-75 | 9.999 rounds to 10.00 and is accepted; the product keeps 9.999; one row (1, 1, 10) is written |
| Scenarios.UnknownSecondWarehouse | Part1/api.py:34-42 | an unknown warehouse in the second entry refuses the whole request, and nothing is written |
| Scenarios.NegativePrice | Part1/api.py:24-26 | price -1 gives 400 `Price must be greater than 0` |
| Scenarios.HalfEvenExamples | Part1/api.py:24 | 0.005 rounds to 0.00, 0.015 and 0.025 to 0.02, -0.125 to -0.12 |
| Scenarios.RepeatedWarehouseWritesTwoRows | Part1/api.py:63-73 | two entries for one warehouse write two rows |
| Scenarios.HugePrice | Part1/api.py:24 | a price of 10^26 rounds to a 29-digit coefficient, which raises: 500 |
| Scenarios.BlanksAndUnderscores | Part1/api.py:24 | `" 1_0.5 "` reads as 10.5 |
| Scenarios.Exponent | Part1/api.py:24 | `"-2.5e1"` reads as -25 |
| Scenarios.Letters | Part1/api.py:24 | `"abc"` is refused |
| Scenarios.BareExponentMarker | Part1/api.py:24 | `"1e"` is refused |
| Scenarios.UnreadablePrice | Part1/api.py:24 | a request priced `"abc"` gets 500 and writes nothing |

## Left out

- Authentication and logging (Part1/api.py:5, 9): framework decorators and I/O.
- Flask routing and JSON encoding: a response is a status and a body datatype.
- Request bodies that are not JSON objects: the request is a map from keys to values. In the source a `null` body makes the key test raise (500), and a list or string body is searched for the key names as elements or substrings, so it usually gets 400 with missing keys. None of these is modelled.
- Database sessions (Part1/api.py:49, 59, 73, 77-88): commit and rollback are left out, and the write phase always succeeds. The IntegrityError and ValueError handlers are therefore unreachable and not modelled.
- Quantity: a bool `initial_quantity` passes the int test (Part1/api.py:45) and is handed to the database as it is (Part1/api.py:69). The model assumes it is stored as 1 or 0, as SQLite and MySQL do; a database that refuses a boolean for an integer column would make the write fail with 500, which the model does not capture.
- Concurrency: requests are handled one at a time. Two concurrent requests with the same sku can both pass the sku check (Part1/api.py:29-31) and, where the database keeps skus unique, one then fails there, reaching the IntegrityError handler (Part1/api.py:77-80, 500). This is not modelled.
- Product ids: the database's autoincrement is a `nextId` counter in the store.
- Warehouse lookup: `Warehouse.query.get` finds a warehouse only for an int id in the set of warehouse ids. Coercion of other key types by the database driver (a string `"1"`, a float `1.0`, `True`) is not modelled; such ids count as not found.
- SKU lookup compares the JSON values for equality. Database collation and type coercion are not modelled.
- Decimal text: only ASCII digits are read. Python also accepts other Unicode decimal digits. The exponent limits of Python's decimal context are not modelled.
- `NaN`, `Infinity` and other non-finite forms, in price text and as JSON floats (Python's decoder accepts `NaN` and `Infinity`; `FloatV` holds only finite decimals), are treated as unreadable. In Python, rounding or comparing them raises, so the response (500) is the same.
- Floats are held as the exact decimal that `str()` of the float spells. Binary floating point is not modelled. `Render` writes such a value without an exponent where `str()` may use one; both spellings have the same value.
- Integers with more than 4300 digits, which Python refuses to convert to text, are not modelled.
- Part3 (the low-stock report): a SQL query and Express glue, not part of this model.
