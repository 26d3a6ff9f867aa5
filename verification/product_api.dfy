/**
 * `create_product` as a function from a request and a store to the response
 * and the new store, with the properties the handler promises. The class in
 * module ProductStore runs the same handler step by step and is proved to
 * agree with `CreateProduct` here.
 */
module ProductApi {
  import opened Wrappers
  import opened Decimals
  import opened Json
  import opened Price
  import opened Validation

  /** A Product row: the id the database assigns, and the name, sku and price as sent. */
  datatype Product = Product(id: int, name: Value, sku: Value, price: Value)

  /** An Inventory row. */
  datatype InventoryRow = InventoryRow(productId: int, warehouseId: int, quantity: int)

  /**
   * The store the handler sees: the Product and Inventory tables in insertion
   * order, the ids of the existing warehouses, and the id the next inserted
   * Product receives.
   */
  datatype Db = Db(products: seq<Product>, inventory: seq<InventoryRow>, warehouseIds: set<int>, nextId: int)

  datatype Body = Created(message: string, productId: int) | Error(error: string)

  /** The JSON body and the HTTP status the handler returns. */
  datatype Response = Response(status: int, body: Body)

  function Skus(products: seq<Product>): set<Value> {
    set p | p in products :: p.sku
  }

  function ProductIds(products: seq<Product>): set<int> {
    set p | p in products :: p.id
  }

  /**
   * Consistency of the store: SKUs are unique, product ids are unique and
   * below `nextId`, and every Inventory row points at an existing product and
   * an existing warehouse and holds a non-negative quantity.
   */
  predicate DbValid(db: Db) {
    && (forall i, j :: 0 <= i < j < |db.products| ==> db.products[i].sku != db.products[j].sku)
    && (forall i, j :: 0 <= i < j < |db.products| ==> db.products[i].id != db.products[j].id)
    && (forall p :: p in db.products ==> p.id < db.nextId)
    && (forall row :: row in db.inventory ==>
          row.productId in ProductIds(db.products) && row.warehouseId in db.warehouseIds && row.quantity >= 0)
  }

  /** The response for each way the request can be turned away. */
  function RejectionResponse(r: Rejection): (resp: Response)
    ensures resp.body.Error?
    ensures resp.status == 500 <==> r == WarehousesMissing || r == PriceNotDecimal
    ensures resp.status != 500 ==> resp.status == 400
  {
    match r
    case MissingRequired(names) => Response(400, Error("Missing required fields: " + Join(names, ", ")))
    case WarehousesMissing => Response(500, Error("Internal server error"))
    case WarehousesNotList => Response(400, Error("warehouses must be a non-empty list"))
    case PriceNotDecimal => Response(500, Error("Internal server error"))
    case PriceNotPositive => Response(400, Error("Price must be greater than 0"))
    case SkuTaken => Response(400, Error("SKU already exists"))
    case InvalidEntry => Response(400, Error("Invalid warehouse entry"))
    case UnknownWarehouse => Response(400, Error("Invalid warehouse ID"))
    case BadQuantity => Response(400, Error("Initial quantity must be a non-negative"))
  }

  /** The quantity stored for an accepted `initial_quantity` (`True` is stored as 1). */
  function Quantity(q: Value): (n: int)
    requires IsNonNegativeInt(q)
    ensures n >= 0
    ensures q.IntV? ==> n == q.i
    ensures q.BoolV? ==> n == (if q.b then 1 else 0)
  {
    if q.IntV? then q.i else if q.b then 1 else 0
  }

  /** The Inventory row written for one accepted entry. */
  function NewRow(productId: int, entry: Value, warehouseIds: set<int>): InventoryRow
    requires EntryOk(entry, warehouseIds)
  {
    InventoryRow(productId, entry.fields["warehouse_id"].i, Quantity(entry.fields["initial_quantity"]))
  }

  /**
   * `row` records `entry` for product `productId`: the entry's warehouse id,
   * and its `initial_quantity` as the quantity.
   */
  predicate RowFor(row: InventoryRow, productId: int, entry: Value) {
    && row.productId == productId
    && entry.DictV? && "warehouse_id" in entry.fields && "initial_quantity" in entry.fields
    && entry.fields["warehouse_id"] == IntV(row.warehouseId)
    && IsNonNegativeInt(entry.fields["initial_quantity"])
    && row.quantity == Quantity(entry.fields["initial_quantity"])
  }

  /** The Inventory rows written for accepted entries, in entry order. */
  function NewRows(productId: int, entries: seq<Value>, warehouseIds: set<int>): seq<InventoryRow>
    requires forall k :: 0 <= k < |entries| ==> EntryOk(entries[k], warehouseIds)
  {
    if entries == [] then []
    else NewRows(productId, entries[..|entries| - 1], warehouseIds)
         + [NewRow(productId, entries[|entries| - 1], warehouseIds)]
  }

  /** One row per entry, the k-th row built from the k-th entry. */
  lemma {:induction false} NewRowsAt(productId: int, entries: seq<Value>, warehouseIds: set<int>)
    requires forall k :: 0 <= k < |entries| ==> EntryOk(entries[k], warehouseIds)
    ensures |NewRows(productId, entries, warehouseIds)| == |entries|
    ensures forall k :: 0 <= k < |entries| ==>
              NewRows(productId, entries, warehouseIds)[k] == NewRow(productId, entries[k], warehouseIds)
  {
    if entries != [] {
      var init := entries[..|entries| - 1];
      NewRowsAt(productId, init, warehouseIds);
      assert forall k :: 0 <= k < |init| ==> init[k] == entries[k];
    }
  }

  /** The handler: validation first, and only an accepted request writes. */
  function CreateProduct(data: Request, db: Db): (Response, Db) {
    match Validate(data, Skus(db.products), db.warehouseIds)
    case Some(r) => (RejectionResponse(r), db)
    case None =>
      AcceptedShape(data, Skus(db.products), db.warehouseIds);
      var id := db.nextId;
      var product := Product(id, data["name"], data["sku"], data["price"]);
      var rows := NewRows(id, data["warehouses"].items, db.warehouseIds);
      (Response(200, Created("Product created", id)),
       Db(db.products + [product], db.inventory + rows, db.warehouseIds, db.nextId + 1))
  }

  /** Every rejection leaves the store as it was, and only an accepted request answers 200. */
  lemma RejectionWritesNothing(data: Request, db: Db)
    ensures CreateProduct(data, db).0.status == 200 <==> Validate(data, Skus(db.products), db.warehouseIds).None?
    ensures CreateProduct(data, db).0.status != 200 ==> CreateProduct(data, db).1 == db
  {
  }

  /**
   * A request lacking any required top-level key is answered 400 with the
   * missing keys in the order of the required list, whatever else it holds.
   */
  lemma MissingFieldsRejected(data: Request, db: Db, f: string)
    requires f in RequiredFields && f !in data
    ensures f in MissingFields(data)
    ensures IsSubsequence(MissingFields(data), RequiredFields)
    ensures CreateProduct(data, db)
         == (Response(400, Error("Missing required fields: " + Join(MissingFields(data), ", "))), db)
  {
  }

  /**
   * With the required keys present but no `warehouses` key, indexing
   * `data['warehouses']` raises KeyError and the generic handler answers 500.
   */
  lemma WarehousesKeyAbsent(data: Request, db: Db)
    requires forall f :: f in RequiredFields ==> f in data
    requires "warehouses" !in data
    ensures CreateProduct(data, db) == (Response(500, Error("Internal server error")), db)
  {
    NoneMissing(data);
  }

  lemma WarehousesNotNonEmptyList(data: Request, db: Db)
    requires forall f :: f in RequiredFields ==> f in data
    requires "warehouses" in data && (!data["warehouses"].ListV? || data["warehouses"].items == [])
    ensures CreateProduct(data, db) == (Response(400, Error("warehouses must be a non-empty list")), db)
  {
    NoneMissing(data);
  }

  /**
   * A price that `Decimal(str(...))` cannot read raises, and the generic
   * handler answers 500 before the store is consulted.
   */
  lemma UnreadablePriceRejected(data: Request, db: Db)
    requires forall f :: f in RequiredFields ==> f in data
    requires "warehouses" in data && data["warehouses"].ListV? && data["warehouses"].items != []
    requires PriceDecimal(data["price"]).None?
    ensures CreateProduct(data, db) == (Response(500, Error("Internal server error")), db)
  {
    NoneMissing(data);
  }

  /**
   * A price of at most half a hundredth is refused with 400 before the store
   * is consulted: the response is the same for every store.
   */
  lemma PriceNotPositiveRejected(data: Request, db: Db, d: Decimal)
    requires forall f :: f in RequiredFields ==> f in data
    requires "warehouses" in data && data["warehouses"].ListV? && data["warehouses"].items != []
    requires PriceDecimal(data["price"]) == Some(d)
    requires 200 * d.units <= Pow10(d.places)
    requires Abs(RoundToCents(d)) < MaxCoefficient
    ensures CreateProduct(data, db) == (Response(400, Error("Price must be greater than 0")), db)
  {
    NoneMissing(data);
    RoundedPositiveIff(d);
  }

  /** A price that rounds to a positive amount gets past the price check. */
  lemma PositivePricePasses(data: Request, d: Decimal)
    requires forall f :: f in RequiredFields ==> f in data
    requires "warehouses" in data && data["warehouses"].ListV? && data["warehouses"].items != []
    requires PriceDecimal(data["price"]) == Some(d)
    requires 200 * d.units > Pow10(d.places)
    requires Abs(RoundToCents(d)) < MaxCoefficient
    ensures RequestError(data).None?
  {
    NoneMissing(data);
    RoundedPositiveIff(d);
  }

  /** A request whose checks 1 to 3 pass is refused when its sku is already used. */
  lemma SkuTakenRejected(data: Request, db: Db)
    requires RequestError(data).None? && "sku" in data
    requires exists p :: p in db.products && p.sku == data["sku"]
    ensures CreateProduct(data, db) == (Response(400, Error("SKU already exists")), db)
  {
  }

  /**
   * The first bad entry decides the response, whatever follows it; within an
   * entry the shape is checked before the warehouse, and the warehouse before
   * the quantity.
   */
  lemma FirstBadEntryRejected(data: Request, db: Db, k: nat)
    requires RequestError(data).None? && "sku" in data && data["sku"] !in Skus(db.products)
    requires "warehouses" in data && data["warehouses"].ListV? && k < |data["warehouses"].items|
    requires forall j :: 0 <= j < k ==> EntryOk(data["warehouses"].items[j], db.warehouseIds)
    requires !EntryOk(data["warehouses"].items[k], db.warehouseIds)
    ensures var entry := data["warehouses"].items[k];
            CreateProduct(data, db).1 == db
            && CreateProduct(data, db).0 == Response(400, Error(
                 if !entry.DictV? || "warehouse_id" !in entry.fields || "initial_quantity" !in entry.fields
                 then "Invalid warehouse entry"
                 else if !WarehouseFound(entry.fields["warehouse_id"], db.warehouseIds)
                 then "Invalid warehouse ID"
                 else "Initial quantity must be a non-negative"))
  {
    FirstEntryErrorAt(data["warehouses"].items, db.warehouseIds, k);
  }

  /**
   * An accepted request adds exactly one Product, with the name, sku and
   * unrounded price sent and the next id, and one Inventory row per entry,
   * in entry order; nothing that was in the store changes.
   */
  lemma AcceptedWrites(data: Request, db: Db)
    requires Validate(data, Skus(db.products), db.warehouseIds).None?
    ensures "name" in data && "sku" in data && "price" in data && "warehouses" in data
    ensures data["warehouses"].ListV?
    ensures forall k :: 0 <= k < |data["warehouses"].items| ==> EntryOk(data["warehouses"].items[k], db.warehouseIds)
    ensures CreateProduct(data, db).0 == Response(200, Created("Product created", db.nextId))
    ensures CreateProduct(data, db).1.products
         == db.products + [Product(db.nextId, data["name"], data["sku"], data["price"])]
    ensures Skus(CreateProduct(data, db).1.products) == Skus(db.products) + {data["sku"]}
    ensures data["sku"] !in Skus(db.products)
    ensures var inv, entries := CreateProduct(data, db).1.inventory, data["warehouses"].items;
            |inv| == |db.inventory| + |entries|
            && inv[..|db.inventory|] == db.inventory
            && forall k :: 0 <= k < |entries| ==> RowFor(inv[|db.inventory| + k], db.nextId, entries[k])
    ensures CreateProduct(data, db).1.warehouseIds == db.warehouseIds
    ensures CreateProduct(data, db).1.nextId == db.nextId + 1
  {
    AcceptedShape(data, Skus(db.products), db.warehouseIds);
    var entries := data["warehouses"].items;
    NewRowsAt(db.nextId, entries, db.warehouseIds);
    var inv := CreateProduct(data, db).1.inventory;
    assert inv == db.inventory + NewRows(db.nextId, entries, db.warehouseIds);
    forall k | 0 <= k < |entries|
      ensures RowFor(inv[|db.inventory| + k], db.nextId, entries[k])
    {
      assert inv[|db.inventory| + k] == NewRow(db.nextId, entries[k], db.warehouseIds);
    }
  }

  /** The handler keeps the store consistent. */
  lemma CreateProductKeepsDbValid(data: Request, db: Db)
    requires DbValid(db)
    ensures DbValid(CreateProduct(data, db).1)
  {
    if Validate(data, Skus(db.products), db.warehouseIds).None? {
      AcceptedShape(data, Skus(db.products), db.warehouseIds);
      var entries := data["warehouses"].items;
      var db' := CreateProduct(data, db).1;
      var product := Product(db.nextId, data["name"], data["sku"], data["price"]);
      assert db'.products == db.products + [product];
      assert product.id in ProductIds(db'.products);
      assert ProductIds(db.products) <= ProductIds(db'.products);
      forall i | 0 <= i < |db.products|
        ensures db.products[i].sku != product.sku && db.products[i].id != product.id
      {
        assert db.products[i] in db.products;
      }
      var rows := NewRows(db.nextId, entries, db.warehouseIds);
      NewRowsAt(db.nextId, entries, db.warehouseIds);
      assert db'.inventory == db.inventory + rows;
      forall row | row in rows
        ensures row.productId in ProductIds(db'.products) && row.warehouseId in db.warehouseIds && row.quantity >= 0
      {
        var k :| 0 <= k < |rows| && rows[k] == row;
        assert row == NewRow(db.nextId, entries[k], db.warehouseIds);
      }
    }
  }
}
