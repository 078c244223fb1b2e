/** The handlers of backend/src/routes/products.rs that carry logic: the
    search with numbered placeholders, the guards of the comparison request,
    and the conversion of a price in cents. Database round trips are
    parameters: a fetch either yields its rows or fails. */
module Products {

  import opened Wrappers
  import opened Text
  import opened Models
  import opened Search
  import opened Compare

  // ---------------------------------------------------------------------
  // Search with numbered placeholders
  // ---------------------------------------------------------------------

  /** The filter clauses in order, the clause of the k-th present filter
      (counting from one) referring to placeholder `$k`. */
  function NumberedClauses(fs: seq<Filter>): string
    decreases |fs|
  {
    if |fs| == 0 then "" else NumberedClauses(fs[..|fs| - 1]) + Clause(fs[|fs| - 1], |fs|)
  }

  /** The statement the handler sends. */
  function NumberedSql(query: SearchQuery): string
  {
    BaseSql + NumberedClauses(Filters(query)) + OrderBy
  }

  /** The placeholder references the clauses make, in order. */
  function NumberedRefs(fs: seq<Filter>): seq<nat>
    decreases |fs|
  {
    if |fs| == 0 then [] else NumberedRefs(fs[..|fs| - 1]) + Refs(fs[|fs| - 1], |fs|)
  }

  lemma NumberedClausesSnoc(fs: seq<Filter>, f: Filter)
    ensures NumberedClauses(fs + [f]) == NumberedClauses(fs) + Clause(f, |fs| + 1)
  {
    assert (fs + [f])[..|fs|] == fs;
  }

  /** One filter's step of `search_products`: when the filter is present,
      take the next placeholder number and append the filter's clause
      referring to it; otherwise leave the statement and the count alone. */
  method PushClause(sql: string, paramCount: nat, ghost fs: seq<Filter>, present: bool, f: Filter)
    returns (grown: string, count: nat)
    requires sql == BaseSql + NumberedClauses(fs) && paramCount == |fs|
    ensures grown == BaseSql + NumberedClauses(fs + Maybe(present, f))
    ensures count == |fs + Maybe(present, f)|
  {
    grown, count := sql, paramCount;
    if present {
      count := count + 1;
      grown := grown + Clause(f, count);
      NumberedClausesSnoc(fs, f);
      assert fs + Maybe(present, f) == fs + [f];
      Assoc(BaseSql, NumberedClauses(fs), Clause(f, count));
    } else {
      assert fs + Maybe(present, f) == fs;
    }
  }

  /** `search_products`: each present filter, in the order text, category,
      manufacturer, minimum and maximum price, takes the next placeholder
      number and appends its clause; the ordering clause comes last; and the
      arguments are bound in the same order. */
  method SearchProducts(query: SearchQuery) returns (sql: string, paramCount: nat, binds: seq<Arg>)
    ensures sql == NumberedSql(query)
    ensures paramCount == |Filters(query)|
    ensures binds == ArgsOf(Filters(query))
  {
    sql := BaseSql;
    paramCount := 0;

    // The filters tested so far.
    ghost var fs: seq<Filter> := [];
    AppendEmpty(BaseSql);
    assert NumberedClauses(fs) == "";

    sql, paramCount := PushClause(sql, paramCount, fs, query.q.Some?, TextFilter(query));
    fs := fs + Maybe(query.q.Some?, TextFilter(query));
    sql, paramCount := PushClause(sql, paramCount, fs, query.category.Some?, CategoryFilter(query));
    fs := fs + Maybe(query.category.Some?, CategoryFilter(query));
    sql, paramCount := PushClause(sql, paramCount, fs, query.manufacturer.Some?, ManufacturerFilter(query));
    fs := fs + Maybe(query.manufacturer.Some?, ManufacturerFilter(query));
    sql, paramCount := PushClause(sql, paramCount, fs, query.minPrice.Some?, MinPriceFilter(query));
    fs := fs + Maybe(query.minPrice.Some?, MinPriceFilter(query));
    sql, paramCount := PushClause(sql, paramCount, fs, query.maxPrice.Some?, MaxPriceFilter(query));
    fs := fs + Maybe(query.maxPrice.Some?, MaxPriceFilter(query));

    assert [] + Maybe(query.q.Some?, TextFilter(query)) == Maybe(query.q.Some?, TextFilter(query));
    sql := sql + OrderBy;
    binds := BindSearchArgs(query);
  }

  /** Reading the references back out of the clauses gives NumberedRefs. */
  lemma {:induction false} PlaceholdersNumbered(fs: seq<Filter>)
    ensures Placeholders(NumberedClauses(fs)) == NumberedRefs(fs)
    ensures StartsWithNonDigit(NumberedClauses(fs))
    decreases |fs|
  {
    if |fs| > 0 {
      var init, f := fs[..|fs| - 1], fs[|fs| - 1];
      var a, b := NumberedClauses(init), Clause(f, |fs|);
      PlaceholdersNumbered(init);
      PlaceholdersClause(f, |fs|);
      PlaceholdersAppend(a, b);
      if |a| == 0 {
        assert a + b == b;
      } else {
        assert (a + b)[0] == a[0];
      }
    }
  }

  /** The references in the whole statement are those of its clauses. */
  lemma NumberedSqlRefs(query: SearchQuery)
    ensures Placeholders(NumberedSql(query)) == NumberedRefs(Filters(query))
  {
    var c := NumberedClauses(Filters(query));
    PlaceholdersNumbered(Filters(query));
    FixedTextPlain(c);
    FixedTextPlain(BaseSql + c);
  }

  /** Every reference is to one of the placeholders 1..|fs|. */
  lemma {:induction false} NumberedRefsRange(fs: seq<Filter>)
    ensures forall i :: 0 <= i < |NumberedRefs(fs)| ==> 1 <= NumberedRefs(fs)[i] <= |fs|
    decreases |fs|
  {
    if |fs| > 0 {
      NumberedRefsRange(fs[..|fs| - 1]);
    }
  }

  /** Every placeholder 1..|fs| is referred to. */
  lemma {:induction false} NumberedRefsCover(fs: seq<Filter>)
    ensures forall k :: 1 <= k <= |fs| ==> k in NumberedRefs(fs)
    decreases |fs|
  {
    if |fs| > 0 {
      var init := fs[..|fs| - 1];
      NumberedRefsCover(init);
      var r := NumberedRefs(init);
      var t := Refs(fs[|fs| - 1], |fs|);
      assert NumberedRefs(fs) == r + t;
      assert t[0] == |fs|;
      forall k | 1 <= k <= |fs|
        ensures k in r + t
      {
        if k < |fs| {
          assert k in r;
        } else {
          assert (r + t)[|r|] == k;
        }
      }
    }
  }

  /** The references never go back to an earlier placeholder: the clauses of
      the filters come in the order of their numbers. */
  lemma {:induction false} NumberedRefsSorted(fs: seq<Filter>)
    ensures forall i, j :: 0 <= i <= j < |NumberedRefs(fs)| ==> NumberedRefs(fs)[i] <= NumberedRefs(fs)[j]
    decreases |fs|
  {
    if |fs| > 0 {
      var init := fs[..|fs| - 1];
      NumberedRefsSorted(init);
      NumberedRefsRange(init);
      var r := NumberedRefs(init);
      var t := Refs(fs[|fs| - 1], |fs|);
      assert NumberedRefs(fs) == r + t;
      forall i, j | 0 <= i <= j < |r + t|
        ensures (r + t)[i] <= (r + t)[j]
      {
        if j >= |r| {
          assert (r + t)[j] == |fs|;
          if i < |r| {
            assert (r + t)[i] == r[i];
          }
        }
      }
    }
  }

  /** What the handler sends fits together: every placeholder the statement
      refers to has an argument, every argument is referred to, and the
      references never go back. */
  lemma SearchPlaceholdersBound(query: SearchQuery)
    ensures var refs, binds := Placeholders(NumberedSql(query)), ArgsOf(Filters(query));
            && (forall i :: 0 <= i < |refs| ==> 1 <= refs[i] <= |binds|)
            && (forall k :: 1 <= k <= |binds| ==> k in refs)
            && (forall i, j :: 0 <= i <= j < |refs| ==> refs[i] <= refs[j])
  {
    NumberedSqlRefs(query);
    NumberedRefsRange(Filters(query));
    NumberedRefsCover(Filters(query));
    NumberedRefsSorted(Filters(query));
  }

  /** The clauses of the first filters begin the clauses of all of them. */
  lemma {:induction false} NumberedClausesPrefix(fs: seq<Filter>, m: nat)
    requires m <= |fs|
    ensures NumberedClauses(fs[..m]) <= NumberedClauses(fs)
    decreases |fs|
  {
    if m < |fs| {
      var init := fs[..|fs| - 1];
      NumberedClausesPrefix(init, m);
      assert init[..m] == fs[..m];
    } else {
      assert fs[..m] == fs;
    }
  }

  /** The clauses go on, after those of the filters before it, with the
      clause of filter i (counting from zero), numbered i + 1. */
  lemma NumberedClauseAt(fs: seq<Filter>, i: nat)
    requires i < |fs|
    ensures NumberedClauses(fs[..i]) + Clause(fs[i], i + 1) <= NumberedClauses(fs)
  {
    NumberedClausesPrefix(fs, i + 1);
    NumberedClausesTake(fs, i);
    PrefixSubst(NumberedClauses(fs[..i + 1]), NumberedClauses(fs[..i]) + Clause(fs[i], i + 1), NumberedClauses(fs));
  }

  lemma NumberedClausesTake(fs: seq<Filter>, i: nat)
    requires i < |fs|
    ensures NumberedClauses(fs[..i + 1]) == NumberedClauses(fs[..i]) + Clause(fs[i], i + 1)
  {
    TakeOneMore(fs, i);
  }

  /** The statement goes on, after the clauses of the filters before it,
      with the clause of the i-th present filter (counting from zero); that
      clause refers to placeholder `$(i+1)` alone, and the argument bound
      in that position is the same filter's. */
  lemma NumberedClauseOf(query: SearchQuery, i: nat)
    requires i < |Filters(query)|
    ensures var fs := Filters(query);
            && BaseSql + NumberedClauses(fs[..i]) + Clause(fs[i], i + 1) <= NumberedSql(query)
            && Placeholders(Clause(fs[i], i + 1)) == Refs(fs[i], i + 1)
            && ArgsOf(fs)[i] == ArgOf(fs[i])
  {
    var fs := Filters(query);
    NumberedClauseAt(fs, i);
    PrefixExtend(BaseSql, NumberedClauses(fs[..i]), Clause(fs[i], i + 1), NumberedClauses(fs), OrderBy);
    PlaceholdersClause(fs[i], i + 1);
  }

  // ---------------------------------------------------------------------
  // Prices in cents
  // ---------------------------------------------------------------------

  /** `create_product`: the optional price in cents as a decimal number of
      units. */
  function CreatePrice(price: Option<I64>): (r: Option<Decimal>)
    ensures r.Some? <==> price.Some?
    ensures r.Some? ==> r.value.Value() == price.value as real / 100.0
  {
    match price
    case None => None
    case Some(n) =>
      CentsToDecimalValue(n, n);
      Some(CentsToDecimal(n))
  }

  // ---------------------------------------------------------------------
  // Comparison request
  // ---------------------------------------------------------------------

  datatype Status = BadRequest | NotFound | InternalServerError

  /** The outcome of a database round trip. */
  datatype Fetch<T> = Fetched(rows: T) | DbFailed

  datatype Response<T> = Ok(body: T) | Err(status: Status)

  datatype ComparisonResponse = ComparisonResponse(
    category: Category,
    products: seq<Product>,
    comparisonTable: seq<ComparisonRow>)

  /** `iter().filter_map(f)`: the values `f` yields, in order. */
  function FilterMap<A, B>(f: A -> Option<B>, xs: seq<A>): (r: seq<B>)
    ensures |r| <= |xs|
    decreases |xs|
  {
    if |xs| == 0 then []
    else
      var rest := FilterMap(f, xs[..|xs| - 1]);
      match f(xs[|xs| - 1])
      case Some(v) => rest + [v]
      case None => rest
  }

  lemma {:induction false} FilterMapAppend<A, B>(f: A -> Option<B>, a: seq<A>, b: seq<A>)
    ensures FilterMap(f, a + b) == FilterMap(f, a) + FilterMap(f, b)
    decreases |b|
  {
    if |b| == 0 {
      assert a + b == a;
    } else {
      var init := b[..|b| - 1];
      FilterMapAppend(f, a, init);
      assert (a + b)[..|a + b| - 1] == a + init;
      assert (a + b)[|a + b| - 1] == b[|b| - 1];
    }
  }

  /** An element `f` rejects is dropped without a trace. */
  lemma FilterMapDrop<A, B>(f: A -> Option<B>, a: seq<A>, t: A, b: seq<A>)
    requires f(t).None?
    ensures FilterMap(f, a + [t] + b) == FilterMap(f, a + b)
  {
    FilterMapAppend(f, a + [t], b);
    FilterMapAppend(f, a, [t]);
    FilterMapAppend(f, a, b);
    assert FilterMap(f, [t]) == [] by { assert [t][..0] == []; }
  }

  /** An element `f` accepts contributes its value in its place, duplicates
      included. */
  lemma FilterMapKeep<A, B>(f: A -> Option<B>, a: seq<A>, t: A, b: seq<A>)
    requires f(t).Some?
    ensures FilterMap(f, a + [t] + b) == FilterMap(f, a) + [f(t).value] + FilterMap(f, b)
  {
    FilterMapAppend(f, a + [t], b);
    FilterMapAppend(f, a, [t]);
    assert FilterMap(f, [t]) == [f(t).value] by { assert [t][..0] == []; }
  }

  /** Nothing survives exactly when `f` rejects every element. */
  lemma {:induction false} FilterMapEmpty<A, B>(f: A -> Option<B>, xs: seq<A>)
    ensures FilterMap(f, xs) == [] <==> forall i :: 0 <= i < |xs| ==> f(xs[i]).None?
    decreases |xs|
  {
    if |xs| > 0 {
      var init := xs[..|xs| - 1];
      FilterMapEmpty(f, init);
      assert forall i :: 0 <= i < |init| ==> init[i] == xs[i];
    }
  }

  /** Every value that survives is what `f` yields for some element. */
  lemma {:induction false} FilterMapSound<A, B>(f: A -> Option<B>, xs: seq<A>)
    ensures forall k :: 0 <= k < |FilterMap(f, xs)| ==>
              exists i :: 0 <= i < |xs| && f(xs[i]) == Some(FilterMap(f, xs)[k])
    decreases |xs|
  {
    if |xs| > 0 {
      var init := xs[..|xs| - 1];
      FilterMapSound(f, init);
      var r, s, last := FilterMap(f, xs), FilterMap(f, init), xs[|xs| - 1];
      assert r == s + (if f(last).Some? then [f(last).value] else []);
      forall k | 0 <= k < |r|
        ensures exists i :: 0 <= i < |xs| && f(xs[i]) == Some(r[k])
      {
        if k < |s| {
          assert r[k] == s[k];
          var i :| 0 <= i < |init| && f(init[i]) == Some(s[k]);
          assert xs[i] == init[i];
        } else {
          assert f(last) == Some(r[k]);
        }
      }
      assert forall k :: 0 <= k < |r| ==> exists i :: 0 <= i < |xs| && f(xs[i]) == Some(r[k]);
    } else {
      assert FilterMap(f, xs) == [];
    }
  }

  /** When `f` accepts every element, all the values survive, in order. */
  lemma {:induction false} FilterMapAll<A, B>(f: A -> Option<B>, xs: seq<A>, ys: seq<B>)
    requires |xs| == |ys| && forall i :: 0 <= i < |xs| ==> f(xs[i]) == Some(ys[i])
    ensures FilterMap(f, xs) == ys
    decreases |xs|
  {
    if |xs| > 0 {
      FilterMapAll(f, xs[..|xs| - 1], ys[..|ys| - 1]);
    }
  }

  /** One token trimmed and parsed as an i32: `s.trim().parse().ok()`. */
  function ParseToken(t: string): (r: Option<I32>)
    ensures r.Some? ==> var s := Trim(t);
                        |s| > 0 && (s[0] == '+' || s[0] == '-' || IsDigit(s[0]))
  {
    ParseI32(Trim(t))
  }

  /** `ids.split(',').filter_map(|s| s.trim().parse().ok()).collect()`. */
  function ParseIds(ids: string): (r: seq<I32>)
    ensures |r| <= |Split(ids, ',')|
  {
    FilterMap(ParseToken, Split(ids, ','))
  }

  /** No id survives exactly when no token parses; every id that survives is
      the parse of one of the tokens. */
  lemma ParseIdsCases(ids: string)
    ensures var tokens := Split(ids, ',');
            && (ParseIds(ids) == [] <==> forall i :: 0 <= i < |tokens| ==> ParseToken(tokens[i]).None?)
            && forall k :: 0 <= k < |ParseIds(ids)| ==>
                 exists i :: 0 <= i < |tokens| && ParseToken(tokens[i]) == Some(ParseIds(ids)[k])
  {
    ParseIdsUnfold(ids);
    ParseTokensCases(Split(ids, ','));
  }

  /** The same two facts for any list of tokens. */
  lemma ParseTokensCases(tokens: seq<string>)
    ensures && (FilterMap(ParseToken, tokens) == [] <==> forall i :: 0 <= i < |tokens| ==> ParseToken(tokens[i]).None?)
            && forall k :: 0 <= k < |FilterMap(ParseToken, tokens)| ==>
                 exists i :: 0 <= i < |tokens| && ParseToken(tokens[i]) == Some(FilterMap(ParseToken, tokens)[k])
  {
    FilterMapEmpty<string, I32>(ParseToken, tokens);
    FilterMapSound<string, I32>(ParseToken, tokens);
  }

  lemma ParseIdsUnfold(ids: string)
    ensures ParseIds(ids) == FilterMap(ParseToken, Split(ids, ','))
  {
  }

  /** The decimal renderings of the ids. */
  function ShowIds(ids: seq<I32>): (r: seq<string>)
    ensures |r| == |ids|
  {
    seq(|ids|, i requires 0 <= i < |ids| => ShowInt(ids[i]))
  }

  /** A rendered id has no comma in it, and trimming leaves it alone. */
  lemma ShowIntToken(n: I32)
    ensures ',' !in ShowInt(n)
    ensures Trim(ShowInt(n)) == ShowInt(n)
  {
    var s := ShowInt(n);
    var d := if n < 0 then ShowNat(-(n as int)) else ShowNat(n);
    assert s == (if n < 0 then "-" else "") + d;
    assert forall i :: 0 <= i < |d| ==> IsDigit(d[i]);
    assert s[|s| - 1] == d[|d| - 1];
    TrimUntouched(s);
  }

  /** Each rendered id reads back as itself. */
  lemma KeepShownIds(ids: seq<I32>)
    ensures FilterMap(ParseToken, ShowIds(ids)) == ids
  {
    var parts := ShowIds(ids);
    forall i | 0 <= i < |ids|
      ensures ParseToken(parts[i]) == Some(ids[i])
    {
      ShowIntToken(ids[i]);
      ParseShowInt(ids[i]);
    }
    FilterMapAll<string, I32>(ParseToken, parts, ids);
  }

  /** Ids written out with commas between them parse back to the same ids,
      in the same order and with their repetitions; no ids at all give the
      empty string, which parses to no ids. */
  lemma ParseShownIds(ids: seq<I32>)
    ensures ParseIds(Join(ShowIds(ids), ',')) == ids
  {
    var parts := ShowIds(ids);
    if |ids| == 0 {
      assert Join(parts, ',') == "";
      assert Split("", ',') == [""];
      assert Trim("") == "";
    } else {
      forall i | 0 <= i < |parts|
        ensures ',' !in parts[i]
      {
        ShowIntToken(ids[i]);
      }
      SplitJoin(parts, ',');
      KeepShownIds(ids);
    }
  }

  /** Trimming does its work: an id with white space around it reads as the
      id, e.g. " 5 " as 5. */
  lemma PaddedId(w1: string, n: I32, w2: string)
    requires forall m :: 0 <= m < |w1| ==> IsWhitespace(w1[m])
    requires forall m :: 0 <= m < |w2| ==> IsWhitespace(w2[m])
    ensures ParseToken(w1 + ShowInt(n) + w2) == Some(n)
  {
    var s := ShowInt(n);
    ShowIntToken(n);
    assert |s| > 0 && !IsWhitespace(s[0]) && !IsWhitespace(s[|s| - 1]);
    TrimPadded(w1, s, w2);
    ParseShowInt(n);
  }

  /** The ids rendered with the given white space before and after each. */
  function PaddedIds(ids: seq<I32>, lead: seq<string>, trail: seq<string>): (r: seq<string>)
    requires |lead| == |ids| && |trail| == |ids|
    ensures |r| == |ids|
  {
    seq(|ids|, i requires 0 <= i < |ids| => lead[i] + ShowInt(ids[i]) + trail[i])
  }

  predicate AllWhitespace(w: string)
  {
    forall m :: 0 <= m < |w| ==> IsWhitespace(w[m])
  }

  /** Ids written out with commas between them and any white space around
      each, such as "1, 2 ,3", parse back to the same ids in the same order. */
  lemma ParsePaddedIds(ids: seq<I32>, lead: seq<string>, trail: seq<string>)
    requires |lead| == |ids| && |trail| == |ids|
    requires forall i :: 0 <= i < |ids| ==> AllWhitespace(lead[i]) && AllWhitespace(trail[i])
    ensures ParseIds(Join(PaddedIds(ids, lead, trail), ',')) == ids
  {
    var parts := PaddedIds(ids, lead, trail);
    if |ids| == 0 {
      assert Join(parts, ',') == "";
      assert Split("", ',') == [""];
      assert Trim("") == "";
    } else {
      forall i | 0 <= i < |parts|
        ensures ',' !in parts[i] && ParseToken(parts[i]) == Some(ids[i])
      {
        ShowIntToken(ids[i]);
        NotInConcat(',', lead[i], ShowInt(ids[i]));
        NotInConcat(',', lead[i] + ShowInt(ids[i]), trail[i]);
        PaddedId(lead[i], ids[i], trail[i]);
      }
      SplitJoin(parts, ',');
      FilterMapAll<string, I32>(ParseToken, parts, ids);
    }
  }

  /** `products.iter().all(|p| p.category_id == category_id)` with the first
      product's category: all the products share one category. */
  predicate SameCategory(products: seq<Product>): (b: bool)
    requires |products| > 0
    ensures b <==> forall i, j :: 0 <= i < |products| && 0 <= j < |products| ==>
                     products[i].categoryId == products[j].categoryId
  {
    forall i :: 0 <= i < |products| ==> products[i].categoryId == products[0].categoryId
  }

  /** `compare_products`: parse the ids; no ids is a bad request and nothing
      is fetched; then fetch the products, none of them is not found, a mix
      of categories is a bad request; then fetch the first product's
      category and build its table. A failed fetch is an internal error. */
  function CompareProducts(ids: string,
                           fetchProducts: seq<I32> -> Fetch<seq<Product>>,
                           fetchCategory: I32 -> Fetch<Category>,
                           render: Decimal -> string): (r: Response<ComparisonResponse>)
    ensures |ParseIds(ids)| == 0 ==> r == Err(BadRequest)
    ensures |ParseIds(ids)| > 0 ==>
              var fetched := fetchProducts(ParseIds(ids));
              && (fetched.DbFailed? ==> r == Err(InternalServerError))
              && (fetched.Fetched? && |fetched.rows| == 0 ==> r == Err(NotFound))
              && (fetched.Fetched? && |fetched.rows| > 0 && !SameCategory(fetched.rows) ==> r == Err(BadRequest))
              && (fetched.Fetched? && |fetched.rows| > 0 && SameCategory(fetched.rows) ==>
                    var category := fetchCategory(fetched.rows[0].categoryId);
                    && (category.DbFailed? ==> r == Err(InternalServerError))
                    && (category.Fetched? ==>
                          r == Ok(ComparisonResponse(category.rows, fetched.rows,
                                                     ComparisonTable(category.rows, fetched.rows, render)))))
  {
    var productIds := ParseIds(ids);
    if |productIds| == 0 then Err(BadRequest)
    else
      match fetchProducts(productIds)
      case DbFailed => Err(InternalServerError)
      case Fetched(products) =>
        if |products| == 0 then Err(NotFound)
        else
          var categoryId := products[0].categoryId;
          if !SameCategory(products) then Err(BadRequest)
          else
            match fetchCategory(categoryId)
            case DbFailed => Err(InternalServerError)
            case Fetched(category) =>
              Ok(ComparisonResponse(category, products, ComparisonTable(category, products, render)))
  }

  /** The three rejections, each exactly when its guard fails. */
  lemma CompareRejections(ids: string,
                          fetchProducts: seq<I32> -> Fetch<seq<Product>>,
                          fetchCategory: I32 -> Fetch<Category>,
                          render: Decimal -> string)
    ensures var r, fetched := CompareProducts(ids, fetchProducts, fetchCategory, render), fetchProducts(ParseIds(ids));
            && (r == Err(NotFound) <==> |ParseIds(ids)| > 0 && fetched == Fetched([]))
            && (r == Err(BadRequest) <==>
                  |ParseIds(ids)| == 0
                  || (fetched.Fetched? && |fetched.rows| > 0 && !SameCategory(fetched.rows)))
            && (r.Ok? ==> |ParseIds(ids)| > 0 && fetched.Fetched? && |fetched.rows| > 0
                          && SameCategory(fetched.rows) && r.body.products == fetched.rows)
  {
    var r := CompareProducts(ids, fetchProducts, fetchCategory, render);
    if |ParseIds(ids)| > 0 {
      var fetched := fetchProducts(ParseIds(ids));
      if fetched.Fetched? && |fetched.rows| == 0 {
        assert fetched == Fetched([]);
      }
    }
  }

  /** An accepted comparison returns the products of one category, in the
      order fetched, with a table whose first rows are the name, manufacturer
      and price rows and each of whose rows has one value per product. */
  lemma CompareOkTable(ids: string,
                       fetchProducts: seq<I32> -> Fetch<seq<Product>>,
                       fetchCategory: I32 -> Fetch<Category>,
                       render: Decimal -> string)
    requires CompareProducts(ids, fetchProducts, fetchCategory, render).Ok?
    ensures var body := CompareProducts(ids, fetchProducts, fetchCategory, render).body;
            && |body.products| > 0
            && (forall i :: 0 <= i < |body.products| ==> body.products[i].categoryId == body.products[0].categoryId)
            && |body.comparisonTable| >= 3
            && body.comparisonTable[0].field == "name"
            && body.comparisonTable[1].field == "manufacturer"
            && body.comparisonTable[2].field == "price"
            && (forall k :: 0 <= k < |body.comparisonTable| ==> |body.comparisonTable[k].values| == |body.products|)
  {
    var body := CompareProducts(ids, fetchProducts, fetchCategory, render).body;
    FixedRowsFirst(body.category, body.products, render);
    TableAligned(body.category, body.products, render);
  }
}
