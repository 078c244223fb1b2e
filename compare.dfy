/** The comparison-table builder of backend/src/compare.rs (the same function
    is repeated in backend/src/routes.rs). `BuildComparisonTable` follows the
    source step by step; `ComparisonTable` is the table it is proved to build,
    and the lemmas below say what that table is. Rendering a decimal price as
    text (`BigDecimal::to_string`) is the parameter `render`. */
module Compare {

  import opened Wrappers
  import opened Json
  import opened Models
  import opened Text

  // ---------------------------------------------------------------------
  // Cells and columns
  // ---------------------------------------------------------------------

  /** The text shown for a price: the rendered decimal, or "" when absent. */
  function PriceText(price: Option<Decimal>, render: Decimal -> string): (r: string)
    ensures price.None? ==> r == ""
    ensures price.Some? ==> r == render(price.value)
  {
    match price
    case Some(d) => render(d)
    case None => ""
  }

  /** The schema value of a product for one field: the member of its
      specifications object when there is one, JSON null otherwise. */
  function SpecCell(p: Product, field: string): (r: Value)
    ensures p.specifications.None? ==> r == Null
    ensures p.specifications.Some? ==> r == Get(p.specifications.value, field).GetOr(Null)
  {
    match p.specifications
    case Some(specs) => Get(specs, field).GetOr(Null)
    case None => Null
  }

  /** A cell for product `p`. */
  function Cell(p: Product, v: Value): ComparisonValue
  {
    ComparisonValue(p.id, p.name, v)
  }

  function NameColumn(products: seq<Product>): (r: seq<ComparisonValue>)
    ensures |r| == |products|
    ensures forall i :: 0 <= i < |products| ==> r[i] == Cell(products[i], Str(products[i].name))
  {
    seq(|products|, i requires 0 <= i < |products| => Cell(products[i], Str(products[i].name)))
  }

  function ManufacturerColumn(products: seq<Product>): (r: seq<ComparisonValue>)
    ensures |r| == |products|
    ensures forall i :: 0 <= i < |products| ==>
              r[i] == Cell(products[i], Str(products[i].manufacturer.GetOr("")))
  {
    seq(|products|, i requires 0 <= i < |products| =>
      Cell(products[i], Str(products[i].manufacturer.GetOr(""))))
  }

  function PriceColumn(products: seq<Product>, render: Decimal -> string): (r: seq<ComparisonValue>)
    ensures |r| == |products|
    ensures forall i :: 0 <= i < |products| ==>
              r[i] == Cell(products[i], Str(PriceText(products[i].price, render)))
  {
    seq(|products|, i requires 0 <= i < |products| =>
      Cell(products[i], Str(PriceText(products[i].price, render))))
  }

  function SpecColumn(products: seq<Product>, field: string): (r: seq<ComparisonValue>)
    ensures |r| == |products|
    ensures forall i :: 0 <= i < |products| ==> r[i] == Cell(products[i], SpecCell(products[i], field))
  {
    seq(|products|, i requires 0 <= i < |products| => Cell(products[i], SpecCell(products[i], field)))
  }

  // ---------------------------------------------------------------------
  // Rows
  // ---------------------------------------------------------------------

  /** The three rows every table starts with. */
  function FixedRows(products: seq<Product>, render: Decimal -> string): seq<ComparisonRow>
  {
    [ ComparisonRow("name", "Product Name", "", NameColumn(products)),
      ComparisonRow("manufacturer", "Manufacturer", "", ManufacturerColumn(products)),
      ComparisonRow("price", "Price", "$", PriceColumn(products, render)) ]
  }

  /** The display label of a schema field: its "label" when that is a string,
      otherwise the field name. */
  function LabelOf(def: Value, field: string): (r: string)
    ensures Get(def, "label").Some? && Get(def, "label").value.Str? ==> r == Get(def, "label").value.s
    ensures !(Get(def, "label").Some? && Get(def, "label").value.Str?) ==> r == field
  {
    GetStr(def, "label").GetOr(field)
  }

  /** The unit of a schema field: its "unit" when that is a string, otherwise "". */
  function UnitOf(def: Value): (r: string)
    ensures Get(def, "unit").Some? && Get(def, "unit").value.Str? ==> r == Get(def, "unit").value.s
    ensures !(Get(def, "unit").Some? && Get(def, "unit").value.Str?) ==> r == ""
  {
    GetStr(def, "unit").GetOr("")
  }

  /** The fields of the category's schema in iteration order; none when the
      schema is absent or is not an object. */
  function SchemaEntries(category: Category): seq<(string, Value)>
  {
    match category.specificationSchema
    case Some(Obj(members)) => members
    case _ => []
  }

  /** The row a schema entry contributes: one when its definition is an
      object, none otherwise. */
  function EntryRow(entry: (string, Value), products: seq<Product>): seq<ComparisonRow>
  {
    if entry.1.Obj? then
      [ComparisonRow(entry.0, LabelOf(entry.1, entry.0), UnitOf(entry.1), SpecColumn(products, entry.0))]
    else []
  }

  /** The rows of the schema entries, in the entries' order. */
  function SchemaRows(entries: seq<(string, Value)>, products: seq<Product>): seq<ComparisonRow>
    decreases |entries|
  {
    if |entries| == 0 then []
    else SchemaRows(entries[..|entries| - 1], products) + EntryRow(entries[|entries| - 1], products)
  }

  /** The whole comparison table. */
  function ComparisonTable(category: Category, products: seq<Product>, render: Decimal -> string)
    : seq<ComparisonRow>
  {
    FixedRows(products, render) + SchemaRows(SchemaEntries(category), products)
  }

  // ---------------------------------------------------------------------
  // The builder
  // ---------------------------------------------------------------------

  /** One more entry adds its row, if any, after the rows of the entries
      before it. */
  lemma SchemaRowsStep(fixed: seq<ComparisonRow>, entries: seq<(string, Value)>, i: nat, products: seq<Product>)
    requires i < |entries|
    ensures fixed + SchemaRows(entries[..i + 1], products)
            == fixed + SchemaRows(entries[..i], products) + EntryRow(entries[i], products)
  {
    var done, row := SchemaRows(entries[..i], products), EntryRow(entries[i], products);
    assert entries[..i + 1][..i] == entries[..i];
    Assoc(fixed, done, row);
  }

  /** `build_comparison_table`: push the three fixed rows, then one row per
      object-shaped schema entry. */
  method BuildComparisonTable(category: Category, products: seq<Product>, render: Decimal -> string)
    returns (rows: seq<ComparisonRow>)
    ensures rows == ComparisonTable(category, products, render)
  {
    rows := [];
    rows := rows + [ComparisonRow("name", "Product Name", "", NameColumn(products))];
    rows := rows + [ComparisonRow("manufacturer", "Manufacturer", "", ManufacturerColumn(products))];
    rows := rows + [ComparisonRow("price", "Price", "$", PriceColumn(products, render))];
    ghost var fixed := FixedRows(products, render);
    assert rows == fixed;
    AppendEmpty(fixed);

    if category.specificationSchema.Some? {
      var schemaObj := AsObject(category.specificationSchema.value);
      if schemaObj.Some? {
        var entries := schemaObj.value;
        var i := 0;
        while i < |entries|
          invariant 0 <= i <= |entries|
          invariant rows == fixed + SchemaRows(entries[..i], products)
        {
          var (fieldName, fieldDef) := entries[i];
          var fieldObj := AsObject(fieldDef);
          if fieldObj.Some? {
            var labelText := GetStr(fieldDef, "label").GetOr(fieldName);
            var unit := GetStr(fieldDef, "unit").GetOr("");
            var values := SpecColumn(products, fieldName);
            rows := rows + [ComparisonRow(fieldName, labelText, unit, values)];
          } else {
            assert EntryRow(entries[i], products) == [];
            AppendEmpty(rows);
          }
          SchemaRowsStep(fixed, entries, i, products);
          i := i + 1;
        }
        assert entries[..|entries|] == entries;
      }
    }
  }

  // ---------------------------------------------------------------------
  // What the table is
  // ---------------------------------------------------------------------

  /** The field names of the object-shaped entries, in order: an independent
      statement of which schema rows exist. */
  function ObjectFields(entries: seq<(string, Value)>): seq<string>
    decreases |entries|
  {
    if |entries| == 0 then []
    else (if entries[0].1.Obj? then [entries[0].0] else []) + ObjectFields(entries[1..])
  }

  function Fields(rows: seq<ComparisonRow>): (r: seq<string>)
    ensures |r| == |rows|
    ensures forall k :: 0 <= k < |rows| ==> r[k] == rows[k].field
  {
    seq(|rows|, k requires 0 <= k < |rows| => rows[k].field)
  }

  lemma {:induction false} ObjectFieldsAppend(a: seq<(string, Value)>, b: seq<(string, Value)>)
    ensures ObjectFields(a + b) == ObjectFields(a) + ObjectFields(b)
    decreases |a|
  {
    if |a| == 0 {
      assert a + b == b;
    } else {
      ObjectFieldsAppend(a[1..], b);
      assert (a + b)[0] == a[0] && (a + b)[1..] == a[1..] + b;
      var head: seq<string> := if a[0].1.Obj? then [a[0].0] else [];
      assert ObjectFields(a + b) == head + ObjectFields(a[1..] + b);
      assert ObjectFields(a) == head + ObjectFields(a[1..]);
      Assoc(head, ObjectFields(a[1..]), ObjectFields(b));
    }
  }

  /** The schema rows are named after the object-shaped entries, in order. */
  lemma {:induction false} SchemaRowFields(entries: seq<(string, Value)>, products: seq<Product>)
    ensures Fields(SchemaRows(entries, products)) == ObjectFields(entries)
    decreases |entries|
  {
    if |entries| > 0 {
      var init, last := entries[..|entries| - 1], entries[|entries| - 1];
      SchemaRowFields(init, products);
      assert entries == init + [last];
      ObjectFieldsAppend(init, [last]);
      assert [last][1..] == [];
      var rows := SchemaRows(entries, products);
      assert Fields(rows) == Fields(SchemaRows(init, products)) + Fields(EntryRow(last, products));
    }
  }

  /** The table has the three fixed rows, then exactly one row per
      object-shaped schema entry, named after it, in schema order. */
  lemma TableFields(category: Category, products: seq<Product>, render: Decimal -> string)
    ensures |ComparisonTable(category, products, render)| == 3 + |ObjectFields(SchemaEntries(category))|
    ensures Fields(ComparisonTable(category, products, render))
            == ["name", "manufacturer", "price"] + ObjectFields(SchemaEntries(category))
  {
    var entries := SchemaEntries(category);
    SchemaRowFields(entries, products);
    var t := ComparisonTable(category, products, render);
    assert Fields(t) == Fields(FixedRows(products, render)) + Fields(SchemaRows(entries, products));
  }

  /** The first three rows are name, manufacturer and price, with their fixed
      labels and units. */
  lemma FixedRowsFirst(category: Category, products: seq<Product>, render: Decimal -> string)
    ensures var t := ComparisonTable(category, products, render);
      && |t| >= 3
      && t[0].field == "name" && t[0].labelText == "Product Name" && t[0].unit == ""
      && t[1].field == "manufacturer" && t[1].labelText == "Manufacturer" && t[1].unit == ""
      && t[2].field == "price" && t[2].labelText == "Price" && t[2].unit == "$"
  {
  }

  /** The fixed rows show the name, the manufacturer or "", and the rendered
      price or "" for each product; the price is always a string. */
  lemma FixedRowValues(category: Category, products: seq<Product>, render: Decimal -> string, i: nat)
    requires i < |products|
    ensures var t := ComparisonTable(category, products, render);
      && t[0].values[i].value == Str(products[i].name)
      && t[1].values[i].value == Str(products[i].manufacturer.GetOr(""))
      && (products[i].manufacturer.None? ==> t[1].values[i].value == Str(""))
      && t[2].values[i].value.Str?
      && (products[i].price.None? ==> t[2].values[i].value == Str(""))
      && (products[i].price.Some? ==> t[2].values[i].value == Str(render(products[i].price.value)))
  {
  }

  lemma {:induction false} SchemaRowsAligned(entries: seq<(string, Value)>, products: seq<Product>)
    ensures forall r :: 0 <= r < |SchemaRows(entries, products)| ==>
              |SchemaRows(entries, products)[r].values| == |products|
              && forall i :: 0 <= i < |products| ==>
                   SchemaRows(entries, products)[r].values[i].productId == products[i].id
                   && SchemaRows(entries, products)[r].values[i].productName == products[i].name
    decreases |entries|
  {
    if |entries| > 0 {
      SchemaRowsAligned(entries[..|entries| - 1], products);
    }
  }

  /** Every row has one cell per product, and cell i belongs to product i. */
  lemma TableAligned(category: Category, products: seq<Product>, render: Decimal -> string)
    ensures var t := ComparisonTable(category, products, render);
      forall r :: 0 <= r < |t| ==>
        |t[r].values| == |products|
        && forall i :: 0 <= i < |products| ==>
             t[r].values[i].productId == products[i].id && t[r].values[i].productName == products[i].name
  {
    SchemaRowsAligned(SchemaEntries(category), products);
  }

  /** Without a schema object the table is exactly the three fixed rows. */
  lemma NoSchemaFixedOnly(category: Category, products: seq<Product>, render: Decimal -> string)
    requires category.specificationSchema.None? || !category.specificationSchema.value.Obj?
    ensures ComparisonTable(category, products, render) == FixedRows(products, render)
    ensures |ComparisonTable(category, products, render)| == 3
  {
    assert SchemaEntries(category) == [];
  }

  lemma {:induction false} SchemaRowsLength(entries: seq<(string, Value)>, products: seq<Product>)
    ensures |SchemaRows(entries, products)| == |ObjectFields(entries)|
  {
    SchemaRowFields(entries, products);
  }

  /** The row of schema entry j sits after the rows of the object-shaped
      entries before it; it carries the entry's key, its label and unit (with
      their defaults), and each product's value for the key, or null. */
  lemma {:induction false} SchemaRowAt(entries: seq<(string, Value)>, products: seq<Product>, j: nat)
    requires j < |entries| && entries[j].1.Obj?
    ensures var k := |ObjectFields(entries[..j])|;
      var rows := SchemaRows(entries, products);
      && k < |rows|
      && rows[k].field == entries[j].0
      && rows[k].labelText == GetStr(entries[j].1, "label").GetOr(entries[j].0)
      && rows[k].unit == GetStr(entries[j].1, "unit").GetOr("")
      && |rows[k].values| == |products|
      && forall i :: 0 <= i < |products| ==>
           rows[k].values[i].value ==
             (if products[i].specifications.Some? && Get(products[i].specifications.value, entries[j].0).Some?
              then Get(products[i].specifications.value, entries[j].0).value
              else Null)
    decreases |entries|
  {
    var n := |entries|;
    var init := entries[..n - 1];
    SchemaRowsLength(init, products);
    if j < n - 1 {
      SchemaRowAt(init, products, j);
      assert init[..j] == entries[..j];
    } else {
      assert entries[..j] == init;
    }
  }

  /** The schema row of entry j of the category's schema, within the whole table. */
  lemma TableSchemaRow(category: Category, products: seq<Product>, render: Decimal -> string, j: nat)
    requires j < |SchemaEntries(category)| && SchemaEntries(category)[j].1.Obj?
    ensures var entries := SchemaEntries(category);
      var k := 3 + |ObjectFields(entries[..j])|;
      var t := ComparisonTable(category, products, render);
      && k < |t|
      && t[k].field == entries[j].0
      && t[k].labelText == LabelOf(entries[j].1, entries[j].0)
      && t[k].unit == UnitOf(entries[j].1)
      && |t[k].values| == |products|
      && forall i :: 0 <= i < |products| ==> t[k].values[i].value == SpecCell(products[i], entries[j].0)
  {
    SchemaRowAt(SchemaEntries(category), products, j);
  }
}
