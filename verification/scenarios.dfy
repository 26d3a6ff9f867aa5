/** Concrete requests and what the handler does with them. */
module Scenarios {
  import opened Wrappers
  import opened Decimals
  import opened Json
  import opened Price
  import opened Validation
  import opened ProductApi

  function Entry(warehouseId: int, quantity: int): Value {
    DictV(map["warehouse_id" := IntV(warehouseId), "initial_quantity" := IntV(quantity)])
  }

  /** 9.999 */
  const NineNineNineNine: Value := FloatV(Decimal(9999, 3))

  /** An empty catalogue with warehouse 1. */
  const Catalogue: Db := Db([], [], {1}, 1)

  /**
   * A request carrying `warehouses` but not the top-level `initial_quantity`
   * and `warehouse_id` keys is refused: those two are on the required list.
   */
  lemma WarehousesAloneAreNotEnough(db: Db)
    ensures CreateProduct(map["name" := StrV("Widget"), "sku" := StrV("W-1"),
                              "price" := NineNineNineNine, "warehouses" := ListV([Entry(1, 10)])], db)
         == (Response(400, Error("Missing required fields: initial_quantity, warehouse_id")), db)
  {
    var data := map["name" := StrV("Widget"), "sku" := StrV("W-1"),
                     "price" := NineNineNineNine, "warehouses" := ListV([Entry(1, 10)])];
    OnlyTopLevelEntryKeysMissing(data);
    TopLevelEntryKeysMessage();
  }

  lemma OnlyTopLevelEntryKeysMissing(data: Request)
    requires "name" in data && "sku" in data && "price" in data
    requires "initial_quantity" !in data && "warehouse_id" !in data
    ensures MissingFields(data) == ["initial_quantity", "warehouse_id"]
  {
    assert MissingFrom(["warehouse_id"], data) == ["warehouse_id"];
    assert MissingFrom(["initial_quantity", "warehouse_id"], data) == ["initial_quantity", "warehouse_id"];
    assert MissingFrom(["price", "initial_quantity", "warehouse_id"], data) == ["initial_quantity", "warehouse_id"];
    assert MissingFrom(RequiredFields[1..], data) == ["initial_quantity", "warehouse_id"];
  }

  lemma TopLevelEntryKeysMessage()
    ensures RejectionResponse(MissingRequired(["initial_quantity", "warehouse_id"]))
         == Response(400, Error("Missing required fields: initial_quantity, warehouse_id"))
  {
    assert Join(["initial_quantity", "warehouse_id"], ", ") == "initial_quantity, warehouse_id";
    assert "Missing required fields: " + "initial_quantity, warehouse_id"
        == "Missing required fields: initial_quantity, warehouse_id";
  }

  /**
   * With the two extra keys present, 9.999 (which rounds to 10.00) is
   * accepted, and the Product keeps 9.999 as sent.
   */
  lemma WidgetCreated()
    ensures RoundToCents(Decimal(9999, 3)) == 1000
    ensures CreateProduct(map["name" := StrV("Widget"), "sku" := StrV("W-1"), "price" := NineNineNineNine,
                              "initial_quantity" := IntV(10), "warehouse_id" := IntV(1),
                              "warehouses" := ListV([Entry(1, 10)])], Catalogue)
         == (Response(200, Created("Product created", 1)),
             Db([Product(1, StrV("Widget"), StrV("W-1"), NineNineNineNine)], [InventoryRow(1, 1, 10)], {1}, 2))
  {
    var data := map["name" := StrV("Widget"), "sku" := StrV("W-1"), "price" := NineNineNineNine,
                     "initial_quantity" := IntV(10), "warehouse_id" := IntV(1),
                     "warehouses" := ListV([Entry(1, 10)])];
    NoneMissing(data);
    assert Pow10(3) == 1000;
    assert RoundToCents(Decimal(9999, 3)) == 1000;
    assert RequestError(data) == None;
    assert EntryOk(Entry(1, 10), {1});
    assert FirstEntryError([Entry(1, 10)], {1}) == None;
    assert Skus(Catalogue.products) == {};
    assert Validate(data, {}, {1}) == None;
    assert NewRows(1, [Entry(1, 10)], {1}) == [InventoryRow(1, 1, 10)];
    assert Validate(data, Skus(Catalogue.products), Catalogue.warehouseIds) == None;
    assert CreateProduct(data, Catalogue).0 == Response(200, Created("Product created", 1));
    assert CreateProduct(data, Catalogue).1.products == [Product(1, StrV("Widget"), StrV("W-1"), NineNineNineNine)];
    assert CreateProduct(data, Catalogue).1.inventory == [InventoryRow(1, 1, 10)];
  }

  /** An unknown warehouse in the second entry refuses the whole request; nothing is written. */
  lemma UnknownSecondWarehouse()
    ensures CreateProduct(map["name" := StrV("Widget"), "sku" := StrV("W-1"), "price" := IntV(5),
                              "initial_quantity" := IntV(5), "warehouse_id" := IntV(1),
                              "warehouses" := ListV([Entry(1, 5), Entry(999, 5)])], Catalogue)
         == (Response(400, Error("Invalid warehouse ID")), Catalogue)
  {
    var data := map["name" := StrV("Widget"), "sku" := StrV("W-1"), "price" := IntV(5),
                     "initial_quantity" := IntV(5), "warehouse_id" := IntV(1),
                     "warehouses" := ListV([Entry(1, 5), Entry(999, 5)])];
    NoneMissing(data);
    assert RequestError(data) == None;
    FirstEntryErrorAt([Entry(1, 5), Entry(999, 5)], {1}, 1);
  }

  /** A price of -1 is refused whatever the store holds. */
  lemma NegativePrice(db: Db)
    ensures CreateProduct(map["name" := StrV("Widget"), "sku" := StrV("W-1"), "price" := IntV(-1),
                              "initial_quantity" := IntV(5), "warehouse_id" := IntV(1),
                              "warehouses" := ListV([Entry(1, 5)])], db)
         == (Response(400, Error("Price must be greater than 0")), db)
  {
    var data := map["name" := StrV("Widget"), "sku" := StrV("W-1"), "price" := IntV(-1),
                     "initial_quantity" := IntV(5), "warehouse_id" := IntV(1),
                     "warehouses" := ListV([Entry(1, 5)])];
    NoneMissing(data);
  }

  /** Half-even rounding: 0.005 rounds to 0.00, 0.015 and 0.025 both to 0.02. */
  lemma HalfEvenExamples()
    ensures RoundToCents(Decimal(5, 3)) == 0
    ensures RoundToCents(Decimal(15, 3)) == 2
    ensures RoundToCents(Decimal(25, 3)) == 2
    ensures RoundToCents(Decimal(-125, 3)) == -12
  {
    assert Pow10(1) == 10;
  }

  /**
   * Two entries for the same warehouse are both written: the handler does
   * not keep one Inventory row per (product, warehouse) pair.
   */
  lemma RepeatedWarehouseWritesTwoRows()
    ensures CreateProduct(map["name" := StrV("Widget"), "sku" := StrV("W-1"), "price" := IntV(5),
                              "initial_quantity" := IntV(5), "warehouse_id" := IntV(1),
                              "warehouses" := ListV([Entry(1, 5), Entry(1, 7)])], Catalogue).1.inventory
         == [InventoryRow(1, 1, 5), InventoryRow(1, 1, 7)]
  {
    var data := map["name" := StrV("Widget"), "sku" := StrV("W-1"), "price" := IntV(5),
                     "initial_quantity" := IntV(5), "warehouse_id" := IntV(1),
                     "warehouses" := ListV([Entry(1, 5), Entry(1, 7)])];
    NoneMissing(data);
    assert RequestError(data) == None;
    var entries := [Entry(1, 5), Entry(1, 7)];
    assert EntryOk(entries[0], {1}) && EntryOk(entries[1], {1});
    FirstEntryErrorNone(entries, {1});
    assert Skus(Catalogue.products) == {};
    assert Validate(data, {}, {1}) == None;
    NewRowsAt(1, entries, {1});
  }

  /**
   * A price whose rounded coefficient needs 29 digits makes `round` raise,
   * and the generic handler answers 500.
   */
  lemma HugePrice(db: Db)
    ensures CreateProduct(map["name" := StrV("Widget"), "sku" := StrV("W-1"),
                              "price" := IntV(100_000_000_000_000_000_000_000_000),
                              "initial_quantity" := IntV(5), "warehouse_id" := IntV(1),
                              "warehouses" := ListV([Entry(1, 5)])], db)
         == (Response(500, Error("Internal server error")), db)
  {
    var data := map["name" := StrV("Widget"), "sku" := StrV("W-1"),
                     "price" := IntV(100_000_000_000_000_000_000_000_000),
                     "initial_quantity" := IntV(5), "warehouse_id" := IntV(1),
                     "warehouses" := ListV([Entry(1, 5)])];
    NoneMissing(data);
  }

  /** Surrounding blanks and underscores are dropped before the number is read. */
  lemma BlanksAndUnderscores()
    ensures ParseDecimal(" 1_0.5 ") == Some(Decimal(105, 1))
  {
    Cleaned();
    assert ParseSigned("10.5") == ParseUnsigned("10.5");
    TenAndAHalf();
  }

  lemma Cleaned()
    ensures Without(TrimEnd(TrimStart(" 1_0.5 ")), '_') == "10.5"
  {
    assert TrimStart(" 1_0.5 ") == "1_0.5 ";
    assert TrimEnd("1_0.5 ") == "1_0.5";
    assert Without("1_0.5", '_') == "10.5";
  }

  lemma TenAndAHalf()
    ensures ParseUnsigned("10.5") == Some(Decimal(105, 1))
  {
    assert DigitsValue("10" + "5") == 105 by {
      assert "10" + "5" == "105" && "105"[..2] == "10" && "10"[..1] == "1" && "1"[..0] == "";
    }
    MantissaPoint("10", "5");
    assert "10" + "." + "5" == "10.5";
    NoExponentMarker("10.5");
  }

  /** An exponent scales the mantissa; its sign and the number's sign are both read. */
  lemma Exponent()
    ensures ParseDecimal("-2.5e1") == Some(Decimal(-25, 0))
  {
    CleanTextParses("-2.5e1");
    assert "-2.5e1"[1..] == "2.5e1";
    ScaledMantissa();
  }

  lemma ScaledMantissa()
    ensures ParseUnsigned("2.5e1") == Some(Decimal(25, 0))
  {
    var t := "2.5e1";
    assert FirstIndex(t, {'e', 'E'}) == 3;
    assert t[..3] == "2.5" && t[4..] == "1";
    assert ParseExponent("1") == Some(1);
    MantissaPoint("2", "5");
    assert "2" + "." + "5" == "2.5";
    assert DigitsValue("2" + "5") == 25 by {
      assert "2" + "5" == "25" && "25"[..1] == "2" && "2"[..0] == "";
    }
    assert Scale(Decimal(25, 1), 1) == Decimal(25, 0) by {
      assert Pow10(0) == 1;
    }
  }

  /** Letters are refused. */
  lemma Letters()
    ensures ParseDecimal("abc") == None
  {
    WordRefused("abc");
  }

  /** An exponent marker with no digits after it is refused. */
  lemma BareExponentMarker()
    ensures ParseDecimal("1e") == None
  {
    CleanTextParses("1e");
    assert FirstIndex("1e", {'e', 'E'}) == 1;
    assert "1e"[2..] == "";
  }

  /** A price that `Decimal` cannot read makes the handler answer 500, and nothing is written. */
  lemma UnreadablePrice(db: Db)
    ensures CreateProduct(map["name" := StrV("Widget"), "sku" := StrV("W-1"), "price" := StrV("abc"),
                              "initial_quantity" := IntV(5), "warehouse_id" := IntV(1),
                              "warehouses" := ListV([Entry(1, 5)])], db)
         == (Response(500, Error("Internal server error")), db)
  {
    var data := map["name" := StrV("Widget"), "sku" := StrV("W-1"), "price" := StrV("abc"),
                     "initial_quantity" := IntV(5), "warehouse_id" := IntV(1),
                     "warehouses" := ListV([Entry(1, 5)])];
    Letters();
    UnreadablePriceRejected(data, db);
  }
}
