/** The search handler of backend/src/routes.rs. It tests the same filters in
    the same order and binds the same arguments as the handler of
    backend/src/routes/products.rs, but every clause carries a hard-coded
    placeholder number: `$1` for the text, `$2` for the category, `$3` for
    the manufacturer, `$4` and `$5` for the price bounds. The rest of that
    file repeats the comparison handler and the table builder, modelled in
    Products and Compare. */
module Routes {

  import opened Wrappers
  import opened Text
  import opened Search
  import opened Products

  /** The placeholder number each filter's clause is written with. */
  function HardcodedNumber(f: Filter): (n: nat)
    ensures 1 <= n <= 5
  {
    match f
    case TextSearch(_) => 1
    case CategorySlug(_) => 2
    case ManufacturerLike(_) => 3
    case MinPrice(_) => 4
    case MaxPrice(_) => 5
  }

  /** The clauses of the present filters, each with its hard-coded number. */
  function HardcodedClauses(fs: seq<Filter>): string
    decreases |fs|
  {
    if |fs| == 0 then ""
    else HardcodedClauses(fs[..|fs| - 1]) + Clause(fs[|fs| - 1], HardcodedNumber(fs[|fs| - 1]))
  }

  /** The statement this handler sends. */
  function HardcodedSql(query: SearchQuery): string
  {
    BaseSql + HardcodedClauses(Filters(query)) + OrderBy
  }

  /** The references its clauses make, in order. */
  function HardcodedRefs(fs: seq<Filter>): seq<nat>
    decreases |fs|
  {
    if |fs| == 0 then []
    else HardcodedRefs(fs[..|fs| - 1]) + Refs(fs[|fs| - 1], HardcodedNumber(fs[|fs| - 1]))
  }

  // ---------------------------------------------------------------------
  // The clause texts as written in the handler
  // ---------------------------------------------------------------------

  // The text clause is written out in its pieces around the three `$1`.
  const TextClause1: string :=
    " AND (p.name ILIKE " + "$1" + " OR p.manufacturer ILIKE " + "$1" + " OR p.model ILIKE " + "$1" + ")"
  const CategoryClause2: string := " AND c.slug = $2"
  const ManufacturerClause3: string := " AND p.manufacturer ILIKE $3"
  const MinPriceClause4: string := " AND p.price >= $4"
  const MaxPriceClause5: string := " AND p.price <= $5"

  /** The clause the handler writes for a present filter: a condition ANDed
      to the statement, ending in the filter's fixed placeholder (or, for the
      text search, in the parenthesis that closes its three uses of `$1`). */
  function WrittenClause(f: Filter): (r: string)
    ensures |r| > 5 && r[..5] == " AND "
    ensures !f.TextSearch? ==> r[|r| - 2..] == Ref(HardcodedNumber(f))
    ensures f.TextSearch? ==> r[|r| - 3..] == Ref(1) + ")"
  {
    match f
    case TextSearch(_) => TextClause1
    case CategorySlug(_) => CategoryClause2
    case ManufacturerLike(_) => ManufacturerClause3
    case MinPrice(_) => MinPriceClause4
    case MaxPrice(_) => MaxPriceClause5
  }

  lemma RefDigit(n: nat)
    requires 1 <= n <= 9
    ensures Ref(n) == ['$', DigitChar(n)]
  {
    assert ShowNat(n) == [DigitChar(n)];
  }

  /** Each written clause is the filter's clause with its hard-coded number. */
  lemma WrittenClauses(f: Filter)
    ensures WrittenClause(f) == Clause(f, HardcodedNumber(f))
  {
    RefDigit(HardcodedNumber(f));
  }

  // ---------------------------------------------------------------------
  // The handler
  // ---------------------------------------------------------------------

  lemma HardcodedClausesSnoc(fs: seq<Filter>, f: Filter)
    ensures HardcodedClauses(fs + [f]) == HardcodedClauses(fs) + Clause(f, HardcodedNumber(f))
  {
    assert (fs + [f])[..|fs|] == fs;
  }

  /** One filter's step: when the filter is present, append its clause as
      written, whatever was appended before. */
  method PushWritten(sql: string, ghost fs: seq<Filter>, present: bool, f: Filter)
    returns (grown: string)
    requires sql == BaseSql + HardcodedClauses(fs)
    ensures grown == BaseSql + HardcodedClauses(fs + Maybe(present, f))
  {
    grown := sql;
    if present {
      grown := grown + WrittenClause(f);
      WrittenClauses(f);
      HardcodedClausesSnoc(fs, f);
      assert fs + Maybe(present, f) == fs + [f];
      Assoc(BaseSql, HardcodedClauses(fs), WrittenClause(f));
    } else {
      assert fs + Maybe(present, f) == fs;
    }
  }

  /** `search_products` of backend/src/routes.rs: the same filters and
      arguments, with the placeholder numbers written into the clauses. */
  method SearchProductsHardcoded(query: SearchQuery) returns (sql: string, binds: seq<Arg>)
    ensures sql == HardcodedSql(query)
    ensures binds == ArgsOf(Filters(query))
  {
    sql := BaseSql;

    // The filters tested so far.
    ghost var fs: seq<Filter> := [];
    AppendEmpty(BaseSql);
    assert HardcodedClauses(fs) == "";

    sql := PushWritten(sql, fs, query.q.Some?, TextFilter(query));
    fs := fs + Maybe(query.q.Some?, TextFilter(query));
    sql := PushWritten(sql, fs, query.category.Some?, CategoryFilter(query));
    fs := fs + Maybe(query.category.Some?, CategoryFilter(query));
    sql := PushWritten(sql, fs, query.manufacturer.Some?, ManufacturerFilter(query));
    fs := fs + Maybe(query.manufacturer.Some?, ManufacturerFilter(query));
    sql := PushWritten(sql, fs, query.minPrice.Some?, MinPriceFilter(query));
    fs := fs + Maybe(query.minPrice.Some?, MinPriceFilter(query));
    sql := PushWritten(sql, fs, query.maxPrice.Some?, MaxPriceFilter(query));
    fs := fs + Maybe(query.maxPrice.Some?, MaxPriceFilter(query));

    assert [] + Maybe(query.q.Some?, TextFilter(query)) == Maybe(query.q.Some?, TextFilter(query));
    sql := sql + OrderBy;
    binds := BindSearchArgs(query);
  }

  // ---------------------------------------------------------------------
  // What the statement refers to
  // ---------------------------------------------------------------------

  lemma {:induction false} PlaceholdersHardcoded(fs: seq<Filter>)
    ensures Placeholders(HardcodedClauses(fs)) == HardcodedRefs(fs)
    ensures StartsWithNonDigit(HardcodedClauses(fs))
    decreases |fs|
  {
    if |fs| > 0 {
      var init, f := fs[..|fs| - 1], fs[|fs| - 1];
      var a, b := HardcodedClauses(init), Clause(f, HardcodedNumber(f));
      PlaceholdersHardcoded(init);
      PlaceholdersClause(f, HardcodedNumber(f));
      PlaceholdersAppend(a, b);
      if |a| == 0 {
        assert a + b == b;
      } else {
        assert (a + b)[0] == a[0];
      }
    }
  }

  /** The references in the whole statement are those of its clauses. */
  lemma HardcodedSqlRefs(query: SearchQuery)
    ensures Placeholders(HardcodedSql(query)) == HardcodedRefs(Filters(query))
  {
    var c := HardcodedClauses(Filters(query));
    PlaceholdersHardcoded(Filters(query));
    FixedTextPlain(c);
    FixedTextPlain(BaseSql + c);
  }

  /** When the k-th present filter is written with number k, the hard-coded
      clauses are the numbered ones. */
  lemma {:induction false} HardcodedIsNumbered(fs: seq<Filter>)
    requires forall k :: 0 <= k < |fs| ==> HardcodedNumber(fs[k]) == k + 1
    ensures HardcodedClauses(fs) == NumberedClauses(fs)
    decreases |fs|
  {
    if |fs| > 0 {
      HardcodedIsNumbered(fs[..|fs| - 1]);
    }
  }

  /** The present filters are the first few of the five. */
  predicate LeadingFilters(query: SearchQuery)
  {
    && (query.category.Some? ==> query.q.Some?)
    && (query.manufacturer.Some? ==> query.category.Some?)
    && (query.minPrice.Some? ==> query.manufacturer.Some?)
    && (query.maxPrice.Some? ==> query.minPrice.Some?)
  }

  /** With the leading filters present, the k-th present filter is written
      with number k. */
  lemma LeadingNumbered(query: SearchQuery)
    requires LeadingFilters(query)
    ensures forall k :: 0 <= k < |Filters(query)| ==> HardcodedNumber(Filters(query)[k]) == k + 1
  {
  }

  /** Otherwise the last present filter is written with a number beyond the
      count of present filters. */
  lemma GapNumbered(query: SearchQuery)
    requires !LeadingFilters(query)
    ensures |Filters(query)| > 0 && HardcodedNumber(Filters(query)[|Filters(query)| - 1]) > |Filters(query)|
  {
    var fs := Filters(query);
    var init := Maybe(query.q.Some?, TextFilter(query))
                + Maybe(query.category.Some?, CategoryFilter(query))
                + Maybe(query.manufacturer.Some?, ManufacturerFilter(query))
                + Maybe(query.minPrice.Some?, MinPriceFilter(query));
    if query.maxPrice.Some? {
      assert fs == init + [MaxPriceFilter(query)];
    } else if query.minPrice.Some? {
      assert fs == init;
      assert fs[|fs| - 1] == MinPriceFilter(query);
    } else if query.manufacturer.Some? {
      assert fs == Maybe(query.q.Some?, TextFilter(query))
                   + Maybe(query.category.Some?, CategoryFilter(query))
                   + [ManufacturerFilter(query)];
    } else {
      assert fs == Maybe(query.q.Some?, TextFilter(query)) + [CategoryFilter(query)];
    }
  }

  // ---------------------------------------------------------------------
  // When the hard-coded numbers go wrong
  // ---------------------------------------------------------------------

  /** With the leading filters present, the handler sends the same
      statement as the numbering handler. */
  lemma LeadingAgrees(query: SearchQuery)
    requires LeadingFilters(query)
    ensures HardcodedSql(query) == NumberedSql(query)
  {
    LeadingNumbered(query);
    HardcodedIsNumbered(Filters(query));
  }

  /** Otherwise the statement refers to a placeholder beyond the arguments
      bound, so the database rejects it or, were it to accept it, the
      arguments would land in the wrong clauses. */
  lemma GapDangling(query: SearchQuery)
    requires !LeadingFilters(query)
    ensures var refs := Placeholders(HardcodedSql(query));
            exists i :: 0 <= i < |refs| && refs[i] > |ArgsOf(Filters(query))|
  {
    var fs := Filters(query);
    GapNumbered(query);
    HardcodedSqlRefs(query);
    var refs := HardcodedRefs(fs);
    var last := fs[|fs| - 1];
    assert refs == HardcodedRefs(fs[..|fs| - 1]) + Refs(last, HardcodedNumber(last));
    assert refs[|refs| - 1] == HardcodedNumber(last);
  }

  /** Every placeholder of the statement has an argument exactly when the
      present filters are the leading ones. */
  lemma HardcodedBound(query: SearchQuery)
    ensures var refs := Placeholders(HardcodedSql(query));
            (forall i :: 0 <= i < |refs| ==> refs[i] <= |ArgsOf(Filters(query))|)
            <==> LeadingFilters(query)
  {
    if LeadingFilters(query) {
      LeadingAgrees(query);
      SearchPlaceholdersBound(query);
    } else {
      GapDangling(query);
    }
  }

  /** A search by category alone: the statement refers to `$2` and only one
      argument is bound. */
  lemma CategoryOnlyDangling()
    ensures var query := SearchQuery(None, Some("laptops"), None, None, None);
            && Placeholders(HardcodedSql(query)) == [2]
            && ArgsOf(Filters(query)) == [TextArg("laptops")]
  {
    var query := SearchQuery(None, Some("laptops"), None, None, None);
    var fs := Filters(query);
    assert fs == [CategorySlug("laptops")];
    HardcodedSqlRefs(query);
    assert HardcodedRefs(fs) == HardcodedRefs(fs[..0]) + [2];
  }
}
