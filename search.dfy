/** What the two `search_products` handlers share: the query parameters, the
    filters they turn into and the arguments bound for them, the fixed parts
    of the SQL text, and a reading of the `$n` parameter references of a SQL
    text, against which the two ways of numbering them are judged. */
module Search {

  import opened Wrappers
  import opened Text
  import opened Models

  const I64_MIN: int := -0x8000_0000_0000_0000
  const I64_MAX: int := 0x7FFF_FFFF_FFFF_FFFF

  type I64 = n: int | I64_MIN <= n <= I64_MAX

  /** `SearchQuery`, with each price bound already cast to an integer
      number of cents. */
  datatype SearchQuery = SearchQuery(
    q: Option<string>,
    category: Option<string>,
    manufacturer: Option<string>,
    minPrice: Option<I64>,
    maxPrice: Option<I64>)

  /** A value bound to a placeholder. */
  datatype Arg = TextArg(text: string) | DecimalArg(amount: Decimal)

  /** `format!("%{}%", s)`: a pattern that matches any text containing `s`. */
  function LikePattern(s: string): (r: string)
    ensures |r| == |s| + 2 && r[0] == '%' && r[|r| - 1] == '%' && r[1..|r| - 1] == s
  {
    "%" + s + "%"
  }

  /** `BigDecimal::from(n) / BigDecimal::from(100)`: an amount of cents as the
      exact decimal number of units. */
  function CentsToDecimal(n: I64): (d: Decimal)
    ensures d.Value() == n as real / 100.0
  {
    assert Pow10(2) == 100;
    Decimal(n, 2)
  }

  /** The decimal is exactly the number of cents divided by one hundred, so
      different amounts of cents give different decimals. */
  lemma CentsToDecimalValue(n: I64, m: I64)
    ensures CentsToDecimal(n).Value() == n as real / 100.0
    ensures CentsToDecimal(n).Value() == CentsToDecimal(m).Value() ==> n == m
  {
    assert Pow10(2) == 100;
  }

  // ---------------------------------------------------------------------
  // Filters and their arguments
  // ---------------------------------------------------------------------

  /** A present filter together with the argument it binds. */
  datatype Filter =
    | TextSearch(pattern: string)
    | CategorySlug(slug: string)
    | ManufacturerLike(pattern: string)
    | MinPrice(bound: Decimal)
    | MaxPrice(bound: Decimal)

  function ArgOf(f: Filter): Arg
  {
    match f
    case TextSearch(p) => TextArg(p)
    case CategorySlug(s) => TextArg(s)
    case ManufacturerLike(p) => TextArg(p)
    case MinPrice(d) => DecimalArg(d)
    case MaxPrice(d) => DecimalArg(d)
  }

  function Maybe<T>(present: bool, x: T): seq<T>
  {
    if present then [x] else []
  }

  /** The filter each query parameter turns into when it is present. */
  function TextFilter(query: SearchQuery): Filter
  {
    TextSearch(LikePattern(query.q.GetOr("")))
  }

  function CategoryFilter(query: SearchQuery): Filter
  {
    CategorySlug(query.category.GetOr(""))
  }

  function ManufacturerFilter(query: SearchQuery): Filter
  {
    ManufacturerLike(LikePattern(query.manufacturer.GetOr("")))
  }

  function MinPriceFilter(query: SearchQuery): Filter
  {
    MinPrice(CentsToDecimal(query.minPrice.GetOr(0)))
  }

  function MaxPriceFilter(query: SearchQuery): Filter
  {
    MaxPrice(CentsToDecimal(query.maxPrice.GetOr(0)))
  }

  /** The present filters, in the order the handlers test them: text,
      category, manufacturer, minimum price, maximum price. */
  function Filters(query: SearchQuery): (r: seq<Filter>)
    ensures |r| <= 5
  {
    Maybe(query.q.Some?, TextFilter(query))
    + Maybe(query.category.Some?, CategoryFilter(query))
    + Maybe(query.manufacturer.Some?, ManufacturerFilter(query))
    + Maybe(query.minPrice.Some?, MinPriceFilter(query))
    + Maybe(query.maxPrice.Some?, MaxPriceFilter(query))
  }

  /** The argument bound for each filter, in the filters' order. */
  function ArgsOf(fs: seq<Filter>): (r: seq<Arg>)
  {
    seq(|fs|, k requires 0 <= k < |fs| => ArgOf(fs[k]))
  }

  /** One more filter, when present, binds one more argument. */
  lemma ArgsOfMaybe(fs: seq<Filter>, present: bool, f: Filter)
    ensures ArgsOf(fs + Maybe(present, f)) == ArgsOf(fs) + Maybe(present, ArgOf(f))
  {
    if !present {
      assert fs + [] == fs;
    }
  }

  /** Binding the argument of one more filter, when it is present. */
  lemma BindStep(before: seq<Arg>, after: seq<Arg>, fs: seq<Filter>, present: bool, x: Arg, f: Filter)
    requires before == ArgsOf(fs)
    requires present ==> after == before + [x] && x == ArgOf(f)
    requires !present ==> after == before
    ensures after == ArgsOf(fs + Maybe(present, f))
  {
    ArgsOfMaybe(fs, present, f);
    if !present {
      assert before + [] == before;
    }
  }

  /** One filter's step: when the filter is present, bind its argument after
      those bound before. */
  method PushArg(binds: seq<Arg>, ghost fs: seq<Filter>, present: bool, x: Arg, ghost f: Filter)
    returns (grown: seq<Arg>)
    requires binds == ArgsOf(fs)
    requires present ==> x == ArgOf(f)
    ensures grown == ArgsOf(fs + Maybe(present, f))
  {
    grown := binds;
    if present {
      grown := grown + [x];
    }
    BindStep(binds, grown, fs, present, x, f);
  }

  /** Both handlers bind one argument per present filter, in the order
      they test the filters. */
  method BindSearchArgs(query: SearchQuery) returns (binds: seq<Arg>)
    ensures binds == ArgsOf(Filters(query))
  {
    // The filters tested so far.
    ghost var fs: seq<Filter> := [];
    binds := [];
    binds := PushArg(binds, fs, query.q.Some?, TextArg(LikePattern(query.q.GetOr(""))), TextFilter(query));
    fs := fs + Maybe(query.q.Some?, TextFilter(query));
    binds := PushArg(binds, fs, query.category.Some?, TextArg(query.category.GetOr("")), CategoryFilter(query));
    fs := fs + Maybe(query.category.Some?, CategoryFilter(query));
    binds := PushArg(binds, fs, query.manufacturer.Some?, TextArg(LikePattern(query.manufacturer.GetOr(""))), ManufacturerFilter(query));
    fs := fs + Maybe(query.manufacturer.Some?, ManufacturerFilter(query));
    binds := PushArg(binds, fs, query.minPrice.Some?, DecimalArg(CentsToDecimal(query.minPrice.GetOr(0))), MinPriceFilter(query));
    fs := fs + Maybe(query.minPrice.Some?, MinPriceFilter(query));
    binds := PushArg(binds, fs, query.maxPrice.Some?, DecimalArg(CentsToDecimal(query.maxPrice.GetOr(0))), MaxPriceFilter(query));
    fs := fs + Maybe(query.maxPrice.Some?, MaxPriceFilter(query));
    assert [] + Maybe(query.q.Some?, TextFilter(query)) == Maybe(query.q.Some?, TextFilter(query));
  }

  // ---------------------------------------------------------------------
  // SQL text
  // ---------------------------------------------------------------------

  /** The statement both handlers start from. */
  const BaseSql: string :=
    "\n        SELECT DISTINCT p.id,"
    + " p.category_id, p.name,"
    + " p.manufacturer, p.model,"
    + " p.specifications, p.price"
    + "\n        FROM products p"
    + "\n        LEFT JOIN categories c"
    + " ON p.category_id = c.id"
    + "\n        WHERE 1=1"
    + "\n        "

  const OrderBy: string := " ORDER BY p.name"

  /** The text of a reference to placeholder `n`. */
  function Ref(n: nat): string
  {
    "$" + ShowNat(n)
  }

  /** The text-search clause, all three of whose references are to
      placeholder `n`: one condition ANDed onto the rest, with its three
      alternatives kept together in parentheses. */
  function TextClause(n: nat): (r: string)
    ensures |r| > 6 && r[..6] == " AND (" && r[|r| - 1] == ')'
  {
    " AND (p.name ILIKE " + Ref(n) + " OR p.manufacturer ILIKE " + Ref(n) + " OR p.model ILIKE " + Ref(n) + ")"
  }

  function CategoryClause(n: nat): (r: string)
    ensures |r| >= 5 + |Ref(n)| && r[..5] == " AND " && r[|r| - |Ref(n)|..] == Ref(n)
  {
    " AND c.slug = " + Ref(n)
  }

  function ManufacturerClause(n: nat): (r: string)
    ensures |r| >= 5 + |Ref(n)| && r[..5] == " AND " && r[|r| - |Ref(n)|..] == Ref(n)
  {
    " AND p.manufacturer ILIKE " + Ref(n)
  }

  function MinPriceClause(n: nat): (r: string)
    ensures |r| >= 5 + |Ref(n)| && r[..5] == " AND " && r[|r| - |Ref(n)|..] == Ref(n)
  {
    " AND p.price >= " + Ref(n)
  }

  function MaxPriceClause(n: nat): (r: string)
    ensures |r| >= 5 + |Ref(n)| && r[..5] == " AND " && r[|r| - |Ref(n)|..] == Ref(n)
  {
    " AND p.price <= " + Ref(n)
  }

  // ---------------------------------------------------------------------
  // Reading parameter references
  // ---------------------------------------------------------------------

  /** The length of the run of digits `s` starts with. */
  function DigitRun(s: string): (n: nat)
    ensures n <= |s|
    ensures n < |s| ==> !IsDigit(s[n])
    decreases |s|
  {
    if |s| > 0 && IsDigit(s[0]) then DigitRun(s[1..]) + 1 else 0
  }

  /** The run is made of digits. */
  lemma {:induction false} DigitRunDigits(s: string)
    ensures AllDigits(s[..DigitRun(s)])
    decreases |s|
  {
    if |s| > 0 && IsDigit(s[0]) {
      DigitRunDigits(s[1..]);
      var n := DigitRun(s[1..]);
      assert s[..n + 1] == [s[0]] + s[1..][..n];
    }
  }

  /** A string of digits is one run. */
  lemma {:induction false} DigitRunAll(s: string)
    requires AllDigits(s)
    ensures DigitRun(s) == |s|
    decreases |s|
  {
    if |s| > 0 {
      DigitRunAll(s[1..]);
    }
  }

  /** The numbers of the `$n` parameter references in a SQL text, in order
      (the texts here contain no quoted literals or comments). */
  function Placeholders(s: string): seq<nat>
    decreases |s|
  {
    if |s| == 0 then []
    else if s[0] == '$' && DigitRun(s[1..]) > 0 then
      var n := DigitRun(s[1..]);
      DigitRunDigits(s[1..]);
      assert s[1..n + 1] == s[1..][..n];
      [DigitsValue(s[1..n + 1])] + Placeholders(s[n + 1..])
    else Placeholders(s[1..])
  }

  predicate StartsWithNonDigit(s: string)
  {
    |s| == 0 || !IsDigit(s[0])
  }

  lemma {:induction false} DigitRunAppend(x: string, b: string)
    requires StartsWithNonDigit(b)
    ensures DigitRun(x + b) == DigitRun(x)
    decreases |x|
  {
    if |x| > 0 {
      assert (x + b)[0] == x[0];
      assert (x + b)[1..] == x[1..] + b;
      DigitRunAppend(x[1..], b);
    } else {
      assert x + b == b;
    }
  }

  /** The step of PlaceholdersAppend where `a` starts with a reference `$n`
      of `m` digits. */
  lemma AppendRefStep(a: string, b: string, m: nat)
    requires 0 < m < |a| && a[0] == '$' && DigitRun(a[1..]) == m
    requires DigitRun((a + b)[1..]) == m
    requires Placeholders(a[m + 1..] + b) == Placeholders(a[m + 1..]) + Placeholders(b)
    ensures Placeholders(a + b) == Placeholders(a) + Placeholders(b)
  {
    var s := a + b;
    assert s[0] == '$';
    assert s[1..m + 1] == a[1..m + 1];
    assert s[m + 1..] == a[m + 1..] + b;
    DigitRunDigits(a[1..]);
    assert a[1..m + 1] == a[1..][..m];
    var v := DigitsValue(a[1..m + 1]);
    assert Placeholders(s) == [v] + Placeholders(a[m + 1..] + b);
    assert Placeholders(a) == [v] + Placeholders(a[m + 1..]);
    Assoc([v], Placeholders(a[m + 1..]), Placeholders(b));
  }

  /** The step of PlaceholdersAppend where the first character of `a` starts
      no reference. */
  lemma AppendCharStep(a: string, b: string)
    requires |a| > 0 && !(a[0] == '$' && DigitRun(a[1..]) > 0)
    requires DigitRun((a + b)[1..]) == DigitRun(a[1..])
    requires Placeholders(a[1..] + b) == Placeholders(a[1..]) + Placeholders(b)
    ensures Placeholders(a + b) == Placeholders(a) + Placeholders(b)
  {
    var s := a + b;
    assert s[0] == a[0];
    assert s[1..] == a[1..] + b;
  }

  /** Text that starts with a non-digit cannot extend a reference before it,
      so the references of a concatenation are those of its parts. */
  lemma {:induction false} PlaceholdersAppend(a: string, b: string)
    requires StartsWithNonDigit(b)
    ensures Placeholders(a + b) == Placeholders(a) + Placeholders(b)
    decreases |a|
  {
    if |a| == 0 {
      assert a + b == b;
    } else {
      assert (a + b)[1..] == a[1..] + b;
      DigitRunAppend(a[1..], b);
      var m := DigitRun(a[1..]);
      if a[0] == '$' && m > 0 {
        PlaceholdersAppend(a[m + 1..], b);
        AppendRefStep(a, b, m);
      } else {
        PlaceholdersAppend(a[1..], b);
        AppendCharStep(a, b);
      }
    }
  }

  /** Text without a '$' holds no reference. */
  lemma {:induction false} PlaceholdersPlain(t: string)
    requires '$' !in t
    ensures Placeholders(t) == []
    decreases |t|
  {
    if |t| > 0 {
      PlaceholdersPlain(t[1..]);
    }
  }

  /** A reference on its own is read as its number. */
  lemma PlaceholdersRef(n: nat)
    ensures Placeholders(Ref(n)) == [n]
  {
    var d := ShowNat(n);
    var s := Ref(n);
    assert s[1..] == d;
    DigitRunAll(d);
    assert s[1..|d| + 1] == d;
    ShowNatValue(n);
  }

  /** Text without a '$' in front of `x` adds no reference. */
  lemma PlainPrefix(t: string, x: string)
    requires '$' !in t
    ensures Placeholders(t + x) == Placeholders(x)
  {
    if StartsWithNonDigit(x) {
      PlaceholdersAppend(t, x);
      PlaceholdersPlain(t);
    } else {
      PlainPrefixDigits(t, x);
    }
  }

  lemma {:induction false} PlainPrefixDigits(t: string, x: string)
    requires '$' !in t
    ensures Placeholders(t + x) == Placeholders(x)
    decreases |t|
  {
    if |t| > 0 {
      assert (t + x)[0] == t[0];
      assert (t + x)[1..] == t[1..] + x;
      PlainPrefixDigits(t[1..], x);
    } else {
      assert t + x == x;
    }
  }

  /** Text without a '$' that starts with a non-digit adds no reference
      after `x`. */
  lemma PlainSuffix(x: string, t: string)
    requires '$' !in t && StartsWithNonDigit(t)
    ensures Placeholders(x + t) == Placeholders(x)
  {
    PlaceholdersAppend(x, t);
    PlaceholdersPlain(t);
  }

  /** Text `a` without a '$' that starts with a non-digit, then a reference,
      after `x`. */
  lemma RefSuffix(x: string, a: string, n: nat)
    requires '$' !in a && StartsWithNonDigit(a)
    ensures Placeholders(x + a + Ref(n)) == Placeholders(x) + [n]
  {
    PlainSuffix(x, a);
    PlaceholdersAppend(x + a, Ref(n));
    PlaceholdersRef(n);
  }

  /** A clause made of text without '$' that starts with a non-digit, and one
      reference at its end. */
  lemma PlaceholdersSimpleClause(a: string, n: nat)
    requires '$' !in a && StartsWithNonDigit(a)
    ensures Placeholders(a + Ref(n)) == [n]
  {
    RefSuffix("", a, n);
    assert "" + a == a;
  }

  lemma PlaceholdersTextClause(n: nat)
    ensures Placeholders(TextClause(n)) == [n, n, n]
  {
    var a, b, c := " AND (p.name ILIKE ", " OR p.manufacturer ILIKE ", " OR p.model ILIKE ";
    assert '$' !in a && StartsWithNonDigit(a);
    assert '$' !in b && StartsWithNonDigit(b);
    assert '$' !in c && StartsWithNonDigit(c);
    var r := Ref(n);
    PlaceholdersSimpleClause(a, n);
    RefSuffix(a + r, b, n);
    RefSuffix(a + r + b + r, c, n);
    PlainSuffix(a + r + b + r + c + r, ")");
  }

  lemma PlaceholdersCategoryClause(n: nat)
    ensures Placeholders(CategoryClause(n)) == [n]
  {
    assert '$' !in " AND c.slug = " && StartsWithNonDigit(" AND c.slug = ");
    PlaceholdersSimpleClause(" AND c.slug = ", n);
  }

  lemma PlaceholdersManufacturerClause(n: nat)
    ensures Placeholders(ManufacturerClause(n)) == [n]
  {
    var a := " AND p.manufacturer ILIKE ";
    assert '$' !in a && StartsWithNonDigit(a);
    PlaceholdersSimpleClause(a, n);
  }

  lemma PlaceholdersMinPriceClause(n: nat)
    ensures Placeholders(MinPriceClause(n)) == [n]
  {
    assert '$' !in " AND p.price >= " && StartsWithNonDigit(" AND p.price >= ");
    PlaceholdersSimpleClause(" AND p.price >= ", n);
  }

  lemma PlaceholdersMaxPriceClause(n: nat)
    ensures Placeholders(MaxPriceClause(n)) == [n]
  {
    assert '$' !in " AND p.price <= " && StartsWithNonDigit(" AND p.price <= ");
    PlaceholdersSimpleClause(" AND p.price <= ", n);
  }

  /** The clause a filter adds, its references all to placeholder `n`. */
  function Clause(f: Filter, n: nat): string
  {
    match f
    case TextSearch(_) => TextClause(n)
    case CategorySlug(_) => CategoryClause(n)
    case ManufacturerLike(_) => ManufacturerClause(n)
    case MinPrice(_) => MinPriceClause(n)
    case MaxPrice(_) => MaxPriceClause(n)
  }

  /** The references a filter's clause makes to placeholder `n`: three for
      the text search, which matches name, manufacturer and model, and one
      for every other filter. */
  function Refs(f: Filter, n: nat): (r: seq<nat>)
    ensures |r| >= 1 && forall i :: 0 <= i < |r| ==> r[i] == n
  {
    if f.TextSearch? then [n, n, n] else [n]
  }

  /** Reading a clause's references back gives the filter's references, and
      a clause starts with a space, so it never extends a reference in front
      of it. */
  lemma PlaceholdersClause(f: Filter, n: nat)
    ensures Placeholders(Clause(f, n)) == Refs(f, n)
    ensures StartsWithNonDigit(Clause(f, n))
  {
    match f
    case TextSearch(_) => PlaceholdersTextClause(n);
    case CategorySlug(_) => PlaceholdersCategoryClause(n);
    case ManufacturerLike(_) => PlaceholdersManufacturerClause(n);
    case MinPrice(_) => PlaceholdersMinPriceClause(n);
    case MaxPrice(_) => PlaceholdersMaxPriceClause(n);
  }

  // The statement's start holds no '$', shown two pieces at a time.

  lemma SelectPlain()
    ensures '$' !in "\n        SELECT DISTINCT p.id," + " p.category_id, p.name,"
  {
  }

  lemma ColumnsPlain()
    ensures '$' !in " p.manufacturer, p.model," + " p.specifications, p.price"
  {
  }

  lemma FromJoinPlain()
    ensures '$' !in "\n        FROM products p" + "\n        LEFT JOIN categories c"
  {
  }

  lemma OnWherePlain()
    ensures '$' !in " ON p.category_id = c.id" + "\n        WHERE 1=1" + "\n        "
  {
    assert '$' !in "\n        WHERE 1=1";
  }

  /** Neither the statement's start nor its ordering clause holds a reference. */
  lemma FixedTextPlain(x: string)
    ensures Placeholders(BaseSql + x) == Placeholders(x)
    ensures Placeholders(x + OrderBy) == Placeholders(x)
  {
    SelectPlain();
    ColumnsPlain();
    FromJoinPlain();
    OnWherePlain();
    PlainPrefix(BaseSql, x);
    assert '$' !in OrderBy && StartsWithNonDigit(OrderBy);
    PlainSuffix(x, OrderBy);
  }
}
