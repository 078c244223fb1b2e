/** The records of backend/src/models.rs that the comparison and search
    code reads and produces. */
module Models {

  import opened Wrappers
  import opened Json
  import opened Text

  function Pow10(k: nat): (r: nat)
    ensures r >= 1
  {
    if k == 0 then 1 else 10 * Pow10(k - 1)
  }

  /** An exact decimal (`bigdecimal::BigDecimal`): `unscaled` times ten to the
      power of minus `scale`. */
  datatype Decimal = Decimal(unscaled: int, scale: nat) {
    function Value(): real
    {
      unscaled as real / Pow10(scale) as real
    }
  }

  datatype Category = Category(
    id: I32,
    name: string,
    slug: string,
    description: Option<string>,
    specificationSchema: Option<Value>)

  datatype Product = Product(
    id: I32,
    categoryId: I32,
    name: string,
    manufacturer: Option<string>,
    model: Option<string>,
    specifications: Option<Value>,
    price: Option<Decimal>)

  /** One cell of the comparison table: which product it belongs to and what
      to show. */
  datatype ComparisonValue = ComparisonValue(productId: I32, productName: string, value: Value)

  /** One displayed attribute with one cell per compared product. */
  datatype ComparisonRow = ComparisonRow(
    field: string,
    labelText: string,
    unit: string,
    values: seq<ComparisonValue>)
}
