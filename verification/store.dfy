/**
 * The handler as it runs against the database: the Product and Inventory
 * tables grow in place, and the checks run in the handler's order with an
 * early return for each. `CreateProduct` is proved to do what the function
 * `ProductApi.CreateProduct` specifies.
 */
module ProductStore {
  import opened Wrappers
  import opened Decimals
  import opened Json
  import opened Price
  import opened Validation
  import opened ProductApi

  class Store {
    var products: seq<Product>
    var inventory: seq<InventoryRow>
    /** The SKU column, which `Product.query.filter_by(sku=...)` searches. */
    var skus: set<Value>
    var warehouseIds: set<int>
    var nextId: int

    ghost function State(): Db
      reads this
    {
      Db(products, inventory, warehouseIds, nextId)
    }

    ghost predicate Valid()
      reads this
    {
      skus == Skus(products) && DbValid(State())
    }

    /** An empty catalogue over the given warehouses. */
    constructor (warehouses: set<int>)
      ensures Valid()
      ensures State() == Db([], [], warehouses, 1)
    {
      products, inventory, skus := [], [], {};
      warehouseIds, nextId := warehouses, 1;
    }

    /**
     * The loop over `data['warehouses']`: for each entry in turn its shape,
     * then its warehouse, then its quantity; the first failure is returned.
     */
    method CheckEntries(entries: seq<Value>) returns (err: Option<Rejection>)
      ensures err == FirstEntryError(entries, warehouseIds)
    {
      var i := 0;
      while i < |entries|
        invariant 0 <= i <= |entries|
        invariant forall j :: 0 <= j < i ==> EntryOk(entries[j], warehouseIds)
      {
        var entry := entries[i];
        if !entry.DictV? || "warehouse_id" !in entry.fields || "initial_quantity" !in entry.fields {
          FirstEntryErrorAt(entries, warehouseIds, i);
          return Some(InvalidEntry);
        }
        var id := entry.fields["warehouse_id"];
        if !(id.IntV? && id.i in warehouseIds) {
          FirstEntryErrorAt(entries, warehouseIds, i);
          return Some(UnknownWarehouse);
        }
        var quantity := entry.fields["initial_quantity"];
        if !((quantity.IntV? && quantity.i >= 0) || quantity.BoolV?) {
          FirstEntryErrorAt(entries, warehouseIds, i);
          return Some(BadQuantity);
        }
        i := i + 1;
      }
      FirstEntryErrorNone(entries, warehouseIds);
      return None;
    }

    /**
     * The write phase: one Product with the next id, then one Inventory row
     * per entry, in entry order. It is only the write step of `CreateProduct`,
     * which calls it after the sku check, so that `Valid()` is kept there.
     */
    method Insert(name: Value, sku: Value, price: Value, entries: seq<Value>) returns (productId: int)
      requires forall k :: 0 <= k < |entries| ==> EntryOk(entries[k], warehouseIds)
      modifies this
      ensures warehouseIds == old(warehouseIds) && nextId == old(nextId) + 1
      ensures productId == old(nextId)
      ensures products == old(products) + [Product(productId, name, sku, price)]
      ensures inventory == old(inventory) + NewRows(productId, entries, warehouseIds)
      ensures skus == old(skus) + {sku}
    {
      productId := nextId;
      products := products + [Product(productId, name, sku, price)];
      skus := skus + {sku};
      nextId := nextId + 1;
      var i := 0;
      while i < |entries|
        invariant 0 <= i <= |entries|
        invariant warehouseIds == old(warehouseIds) && nextId == productId + 1
        invariant inventory == old(inventory) + NewRows(productId, entries[..i], warehouseIds)
        invariant products == old(products) + [Product(productId, name, sku, price)]
        invariant skus == old(skus) + {sku}
      {
        var row := NewRow(productId, entries[i], warehouseIds);
        inventory := inventory + [row];
        assert entries[..i + 1][..i] == entries[..i];
        i := i + 1;
      }
      assert entries[..i] == entries;
    }

    /** `create_product`: the checks in order, then the writes. */
    method CreateProduct(data: Request) returns (resp: Response)
      requires Valid()
      modifies this
      ensures Valid()
      ensures (resp, State()) == ProductApi.CreateProduct(data, old(State()))
    {
      CreateProductKeepsDbValid(data, State());

      // checks that look only at the request
      var missing := MissingFields(data);
      if missing != [] {
        return RejectionResponse(MissingRequired(missing));
      }
      AllRequiredPresent(data);
      if "warehouses" !in data {
        return RejectionResponse(WarehousesMissing);
      }
      var warehouses := data["warehouses"];
      if !warehouses.ListV? || warehouses.items == [] {
        return RejectionResponse(WarehousesNotList);
      }
      var price := PriceCents(data["price"]);
      if price.None? {
        return RejectionResponse(PriceNotDecimal);
      }
      if price.value <= 0 {
        return RejectionResponse(PriceNotPositive);
      }

      // checks against the store
      if data["sku"] in skus {
        return RejectionResponse(SkuTaken);
      }
      var err := CheckEntries(warehouses.items);
      if err.Some? {
        return RejectionResponse(err.value);
      }
      FirstEntryErrorNone(warehouses.items, warehouseIds);

      var productId := Insert(data["name"], data["sku"], data["price"], warehouses.items);
      resp := Response(200, Created("Product created", productId));
    }
  }
}
