/**
 * The validation phase of `create_product`: a fixed sequence of checks, the
 * first failing one deciding the response. None of it changes the store; the
 * store enters only as the set of SKUs already used and the set of ids of
 * existing warehouses.
 */
module Validation {
  import opened Wrappers
  import opened Decimals
  import opened Json
  import opened Price

  /** The keys that must be present at the top level of the request, in order. */
  const RequiredFields: seq<string> := ["name", "sku", "price", "initial_quantity", "warehouse_id"]

  /** `a` can be obtained from `b` by deleting elements. */
  predicate IsSubsequence<T(==)>(a: seq<T>, b: seq<T>)
    decreases |b|
  {
    if a == [] then true
    else if b == [] then false
    else if a[0] == b[0] then IsSubsequence(a[1..], b[1..])
    else IsSubsequence(a, b[1..])
  }

  /** `[field for field in fields if field not in data]`. */
  function MissingFrom(fields: seq<string>, data: Request): (m: seq<string>)
    ensures forall f :: f in m <==> f in fields && f !in data
    ensures IsSubsequence(m, fields)
  {
    if fields == [] then []
    else
      var rest := MissingFrom(fields[1..], data);
      if fields[0] in data then rest else [fields[0]] + rest
  }

  /** The required keys missing from the request, in the order they are listed. */
  function MissingFields(data: Request): seq<string> {
    MissingFrom(RequiredFields, data)
  }

  /** No key is reported missing exactly when every required key is present. */
  lemma NoneMissing(data: Request)
    ensures MissingFields(data) == [] <==> forall f :: f in RequiredFields ==> f in data
  {
    var m := MissingFields(data);
    if m != [] {
      assert m[0] in m;
    }
  }

  lemma AllRequiredPresent(data: Request)
    requires MissingFields(data) == []
    ensures "name" in data && "sku" in data && "price" in data
    ensures "initial_quantity" in data && "warehouse_id" in data
  {
    assert RequiredFields[0] == "name" && RequiredFields[1] == "sku" && RequiredFields[2] == "price";
    assert RequiredFields[3] == "initial_quantity" && RequiredFields[4] == "warehouse_id";
  }

  /** `sep.join(parts)`. */
  function Join(parts: seq<string>, sep: string): string
    decreases |parts|
  {
    if parts == [] then ""
    else if |parts| == 1 then parts[0]
    else parts[0] + sep + Join(parts[1..], sep)
  }

  /** Why a request is turned away, one constructor per early return or raised error. */
  datatype Rejection =
    | MissingRequired(names: seq<string>)
      /** `data['warehouses']` raises KeyError, which the generic handler catches. */
    | WarehousesMissing
    | WarehousesNotList
      /** `Decimal(str(...))` or `round(..., 2)` raises, which the generic handler catches. */
    | PriceNotDecimal
    | PriceNotPositive
    | SkuTaken
    | InvalidEntry
    | UnknownWarehouse
    | BadQuantity

  /** `Warehouse.query.get(id)` finds a warehouse. */
  predicate WarehouseFound(id: Value, warehouseIds: set<int>) {
    id.IntV? && id.i in warehouseIds
  }

  /** `isinstance(q, int) and q >= 0`; a `bool` is an `int` whose value is 0 or 1. */
  predicate IsNonNegativeInt(q: Value) {
    (q.IntV? && q.i >= 0) || q.BoolV?
  }

  /** The checks the loop makes on one element of `data['warehouses']`, in order. */
  function EntryError(entry: Value, warehouseIds: set<int>): Option<Rejection> {
    if !entry.DictV? || "warehouse_id" !in entry.fields || "initial_quantity" !in entry.fields then
      Some(InvalidEntry)
    else if !WarehouseFound(entry.fields["warehouse_id"], warehouseIds) then
      Some(UnknownWarehouse)
    else if !IsNonNegativeInt(entry.fields["initial_quantity"]) then
      Some(BadQuantity)
    else
      None
  }

  predicate EntryOk(entry: Value, warehouseIds: set<int>) {
    EntryError(entry, warehouseIds).None?
  }

  /** The loop over the entries: the error of the first entry that has one. */
  function FirstEntryError(entries: seq<Value>, warehouseIds: set<int>): Option<Rejection> {
    if entries == [] then None
    else if EntryError(entries[0], warehouseIds).Some? then EntryError(entries[0], warehouseIds)
    else FirstEntryError(entries[1..], warehouseIds)
  }

  /** The loop lets the request through exactly when every entry passes. */
  lemma {:induction false} FirstEntryErrorNone(entries: seq<Value>, warehouseIds: set<int>)
    ensures FirstEntryError(entries, warehouseIds).None?
        <==> forall k :: 0 <= k < |entries| ==> EntryOk(entries[k], warehouseIds)
  {
    if entries != [] {
      FirstEntryErrorNone(entries[1..], warehouseIds);
      assert forall k :: 1 <= k < |entries| ==> entries[k] == entries[1..][k - 1];
    }
  }

  /** When entry `k` is the first bad one, its error is the loop's error. */
  lemma {:induction false} FirstEntryErrorAt(entries: seq<Value>, warehouseIds: set<int>, k: nat)
    requires k < |entries|
    requires forall j :: 0 <= j < k ==> EntryOk(entries[j], warehouseIds)
    requires !EntryOk(entries[k], warehouseIds)
    ensures FirstEntryError(entries, warehouseIds) == EntryError(entries[k], warehouseIds)
  {
    if k > 0 {
      assert EntryOk(entries[0], warehouseIds);
      FirstEntryErrorAt(entries[1..], warehouseIds, k - 1);
    }
  }

  /**
   * Checks 1 to 3, which look only at the request: required keys, the shape
   * of `warehouses`, and the rounded price.
   */
  function RequestError(data: Request): Option<Rejection> {
    var missing := MissingFields(data);
    if missing != [] then Some(MissingRequired(missing))
    else if "warehouses" !in data then Some(WarehousesMissing)
    else if !data["warehouses"].ListV? || data["warehouses"].items == [] then Some(WarehousesNotList)
    else
      AllRequiredPresent(data);
      match PriceCents(data["price"])
      case None => Some(PriceNotDecimal)
      case Some(cents) => if cents <= 0 then Some(PriceNotPositive) else None
  }

  /** All checks, in the handler's order; None when the request is accepted. */
  function Validate(data: Request, skus: set<Value>, warehouseIds: set<int>): Option<Rejection> {
    if RequestError(data).Some? then RequestError(data)
    else
      AllRequiredPresent(data);
      if data["sku"] in skus then Some(SkuTaken)
      else FirstEntryError(data["warehouses"].items, warehouseIds)
  }

  /** An accepted request has every key the write phase reads, and only valid entries. */
  lemma AcceptedShape(data: Request, skus: set<Value>, warehouseIds: set<int>)
    requires Validate(data, skus, warehouseIds).None?
    ensures "name" in data && "sku" in data && "price" in data && "warehouses" in data
    ensures data["sku"] !in skus
    ensures data["warehouses"].ListV? && |data["warehouses"].items| > 0
    ensures forall k :: 0 <= k < |data["warehouses"].items| ==> EntryOk(data["warehouses"].items[k], warehouseIds)
  {
    AllRequiredPresent(data);
    FirstEntryErrorNone(data["warehouses"].items, warehouseIds);
  }
}
