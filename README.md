# Catalog comparison and search, modelled in Dafny

A model of the logic-bearing parts of a product catalog API written in Rust
(axum, sqlx, serde_json). Products belong to categories. Each category carries
a JSON specification schema that maps field names to field definitions with a
label and a unit. The model covers:

- **The comparison table builder** (`build_comparison_table`, module
  `Compare`). It makes three fixed rows (name, manufacturer, price) and then
  one row per object-shaped schema field, in the schema's order. Each row has
  one cell per product, and a missing value shows as JSON null. The builder is
  written as a method with a loop. It is proved equal to the specification
  function `ComparisonTable`, and the table's shape is proved about that
  function.
- **The compare handler** (`compare_products`, module `Products`). It parses
  the comma-separated id list with `split`, `trim` and an i32 parse that
  drops what fails. It rejects an empty id list (400), no products found
  (404) and products from mixed categories (400). Database failures give 500.
  The two fetches are parameters of the model.
- **The two search handlers.** Both append one SQL clause per present filter
  and bind one argument per present filter, in the same order.
  - `Products.SearchProducts` numbers the placeholders `$1, $2, ...` by a
    running count. It is proved to refer to exactly the arguments it binds,
    in order.
  - `Routes.SearchProductsHardcoded` writes the fixed numbers `$1`..`$5`
    into its clauses. It is proved to have a reference with no argument
    exactly when an earlier filter is missing (see Findings).
  - SQL text is read back by `Search.Placeholders`, which lists the `$n`
    references of a string in order.
- **Cents to decimal.** `BigDecimal::from(n) / 100` is modelled by its
  exact value, n/100.
- **The database URL split** (`ensure_database_exists`, module `Db`):
  `rsplitn(2, '/')`, the database name cut at `?`, the maintenance URL
  `<base>/postgres` and the `CREATE DATABASE` statement.

The modules are Wrappers (Option), Json (JSON values with objects as ordered
association lists), Text (split, trim, i32 parsing, decimal rendering), Models
(the records), Compare, Search, Products, Routes and Db.

Two facts about the code shape the model:

- `backend/src/routes.rs:291-383` is a line-for-line copy of
  `backend/src/compare.rs:5-97`, so the builder is modelled once.
- Schema rows follow the iteration order of the schema's
  `serde_json::Map`. That order depends on the crate's `preserve_order`
  feature. The model takes it as the given sequence of the object's members,
  and every ordering property is stated relative to that sequence.

## Model

| member | source | states |
|---|---|---|
| Json.Lookup | backend/src/compare.rs:73 | absent exactly when no member has the key; otherwise the value of the first member with that key |
| Json.Get | backend/src/compare.rs:56-57 | a non-object has no keys; on an object it is the first-match lookup |
| Json.LookupDistinct | backend/src/compare.rs:73 | on an object with distinct keys, as every `serde_json::Map` has, looking up a member's key finds that member |
| Json.AsStr | backend/src/compare.rs:58 | defined exactly on JSON strings and yields their text |
| Json.AsObject | backend/src/compare.rs:53-55 | defined exactly on JSON objects and yields their members |
| Json.GetStr | backend/src/compare.rs:56-65 | present exactly when the key is present with a string value, and then it is that string |
| Text.Split | backend/src/routes/products.rs:180 | at least one piece, and no piece contains the separator |
| Text.JoinSplit | backend/src/routes/products.rs:180 | joining the pieces with the separator gives the original string back |
| Text.SplitJoin | backend/src/routes/products.rs:180 | splitting separator-free pieces joined by the separator gives the same pieces |
| Text.SplitFirst | backend/src/db.rs:11 | the first piece is the longest separator-free prefix, and a separator follows it when it is shorter than the string |
| Text.SkipLeading | backend/src/routes/products.rs:181 | the index of the first non-white-space character at or after k; everything skipped is white space |
| Text.SkipTrailing | backend/src/routes/products.rs:181 | the end after the last non-white-space character before k; everything skipped is white space |
| Text.Trim | backend/src/routes/products.rs:181 | the result is no longer than the input and neither starts nor ends with white space |
| Text.TrimSlice | backend/src/routes/products.rs:181 | the trim is an infix of the input, with only white space cut at each end |
| Text.TrimUntouched | backend/src/routes/products.rs:181 | a string without white space at either end is its own trim |
| Text.TrimPadded | backend/src/routes/products.rs:181 | white space added at either end of a string that does not start or end with white space is exactly what trimming removes |
| Text.ShowNat | backend/src/routes/products.rs:122-141 | a non-empty run of decimal digits without a leading zero |
| Text.ShowNatValue | backend/src/routes/products.rs:122-141 | the rendered digits denote the number |
| Text.ParseI32 | backend/src/routes/products.rs:181 | a successful parse needs a non-empty input of digits after an optional sign |
| Text.ParseShowInt | backend/src/routes/products.rs:181 | every i32 rendered in decimal parses back to itself |
| Compare.PriceText | backend/src/compare.rs:46 | the empty string without a price, the rendered decimal with one |
| Compare.LabelOf | backend/src/compare.rs:56-60 | the field's "label" when it is a JSON string, otherwise the field name |
| Compare.UnitOf | backend/src/compare.rs:61-65 | the field's "unit" when it is a JSON string, otherwise "" |
| Compare.SpecCell | backend/src/compare.rs:70-75 | null when the product has no specifications or lacks the key, else the value copied unchanged |
| Compare.NameColumn | backend/src/compare.rs:13-20 | one cell per product, in order, holding the product's name as a string |
| Compare.ManufacturerColumn | backend/src/compare.rs:27-34 | one cell per product holding the manufacturer, or "" when absent |
| Compare.PriceColumn | backend/src/compare.rs:41-48 | one cell per product holding the price text |
| Compare.SpecColumn | backend/src/compare.rs:67-83 | one cell per product holding that product's value for the field, or null |
| Compare.SchemaRowsStep | backend/src/compare.rs:54-91 | handling one more schema entry appends exactly that entry's row, or nothing for a non-object definition |
| Compare.BuildComparisonTable | backend/src/compare.rs:5-97 | the rows the loop builds are the specification table `ComparisonTable` |
| Compare.SchemaRowFields | backend/src/compare.rs:52-94 | the schema rows carry exactly the keys of the object-shaped definitions, in schema order |
| Compare.TableFields | backend/src/compare.rs:5-97 | the table's fields are name, manufacturer, price and then the object-shaped schema keys in order; nothing else and nothing dropped |
| Compare.FixedRowsFirst | backend/src/compare.rs:9-49 | the first three rows are name/"Product Name"/"", manufacturer/"Manufacturer"/"" and price/"Price"/"$" |
| Compare.FixedRowValues | backend/src/compare.rs:13-48 | the name cell is the name; the manufacturer cell is the manufacturer or ""; the price cell is always a string, "" without a price |
| Compare.SchemaRowsAligned | backend/src/compare.rs:67-83 | every schema row has one cell per product, and cell i carries product i's id and name |
| Compare.TableAligned | backend/src/compare.rs:5-97 | every row of the table has one cell per product, and cell i belongs to product i |
| Compare.NoSchemaFixedOnly | backend/src/compare.rs:52-53 | without a schema object the table is exactly the three fixed rows |
| Compare.SchemaRowsLength | backend/src/compare.rs:54-91 | one schema row per object-shaped definition |
| Compare.SchemaRowAt | backend/src/compare.rs:54-90 | the row of entry j follows the rows of earlier object entries and has the entry's key, label (default: the key), unit (default: "") and each product's value or null |
| Compare.TableSchemaRow | backend/src/compare.rs:52-94 | the same, positioned after the three fixed rows of the whole table |
| Search.LikePattern | backend/src/routes/products.rs:107-108 | the pattern is the text wrapped in one '%' on each side |
| Search.CentsToDecimal | backend/src/routes/products.rs:109-114 | the decimal's value is exactly the cents divided by 100 |
| Search.CentsToDecimalValue | backend/src/routes/products.rs:109-114 | the decimal is exactly the cents divided by 100, so distinct amounts stay distinct |
| Search.Filters | backend/src/routes/products.rs:119-142 | at most five filters, one per optional parameter |
| Search.ArgsOfMaybe | backend/src/routes/products.rs:149-163 | one more tested filter adds its argument exactly when it is present |
| Search.BindStep | backend/src/routes/products.rs:149-163 | a bind step appends the filter's argument when present and leaves the arguments alone otherwise |
| Search.PushArg | backend/src/routes/products.rs:149-151 | one `if let Some(..) { bind }` step keeps the bound arguments equal to those of the filters tested so far |
| Search.BindSearchArgs | backend/src/routes/products.rs:149-163 | the arguments bound are one per present filter, in the order the filters are tested |
| Search.TextClause | backend/src/routes/products.rs:122-125 | one condition ANDed onto the WHERE clause, its three alternatives kept in parentheses; its references are given by Search.PlaceholdersTextClause |
| Search.CategoryClause | backend/src/routes/products.rs:129 | a condition ANDed onto the WHERE clause, ending with the reference `$n` |
| Search.ManufacturerClause | backend/src/routes/products.rs:133 | a condition ANDed onto the WHERE clause, ending with the reference `$n` |
| Search.MinPriceClause | backend/src/routes/products.rs:137 | a condition ANDed onto the WHERE clause, ending with the reference `$n` |
| Search.MaxPriceClause | backend/src/routes/products.rs:141 | a condition ANDed onto the WHERE clause, ending with the reference `$n` |
| Search.PlaceholdersAppend | backend/src/routes/products.rs:119-144 | the references of appended text are those of each part, when the second part does not continue a number |
| Search.PlaceholdersRef | backend/src/routes/products.rs:129 | the text `$n` refers to n and nothing else |
| Search.PlaceholdersTextClause | backend/src/routes/products.rs:122-125 | the text-search clause refers to its number three times |
| Search.PlaceholdersCategoryClause | backend/src/routes/products.rs:129 | the category clause refers to its number once |
| Search.PlaceholdersManufacturerClause | backend/src/routes/products.rs:133 | the manufacturer clause refers to its number once |
| Search.PlaceholdersMinPriceClause | backend/src/routes/products.rs:137 | the minimum-price clause refers to its number once |
| Search.PlaceholdersMaxPriceClause | backend/src/routes/products.rs:141 | the maximum-price clause refers to its number once |
| Search.PlaceholdersClause | backend/src/routes/products.rs:119-142 | each filter's clause refers only to its own number and does not start with a digit |
| Search.FixedTextPlain | backend/src/routes/products.rs:98-144 | the base SELECT text and the ORDER BY suffix contribute no references |
| Products.NumberedClausesSnoc | backend/src/routes/products.rs:119-142 | one more present filter appends its clause numbered with the new count |
| Products.PushClause | backend/src/routes/products.rs:120-126 | one `if present { count += 1; push_str }` step keeps the text equal to the numbered clauses of the filters tested so far, and the count equal to their number |
| Products.SearchProducts | backend/src/routes/products.rs:93-163 | the statement is the base text, the numbered clauses of the present filters and ORDER BY; the count is the number of present filters; the arguments are theirs in order |
| Products.PlaceholdersNumbered | backend/src/routes/products.rs:119-142 | the numbered clauses refer to each filter's position, as often as its clause writes it |
| Products.NumberedSqlRefs | backend/src/routes/products.rs:97-144 | the references of the whole statement are those of its clauses |
| Products.NumberedRefsRange | backend/src/routes/products.rs:117-142 | every reference lies between 1 and the number of present filters |
| Products.NumberedRefsCover | backend/src/routes/products.rs:117-142 | every number from 1 to the filter count is referred to |
| Products.NumberedRefsSorted | backend/src/routes/products.rs:117-142 | the references appear in non-decreasing order |
| Products.SearchPlaceholdersBound | backend/src/routes/products.rs:117-163 | every reference has an argument, every argument is referred to, and the references are in non-decreasing order |
| Products.NumberedClauseAt | backend/src/routes/products.rs:119-142 | after the clauses of the filters before it comes the clause of filter i, numbered i + 1 |
| Products.NumberedClauseOf | backend/src/routes/products.rs:117-163 | the statement begins with the base text, the earlier clauses and then the clause of present filter i; that clause refers to `$(i+1)` alone, and the argument bound at that position is the same filter's |
| Products.CreatePrice | backend/src/routes/products.rs:66-68 | present exactly when a price is given, and then equal to the cents divided by 100 |
| Products.FilterMap | backend/src/routes/products.rs:181-182 | never more results than inputs |
| Products.FilterMapAppend | backend/src/routes/products.rs:181-182 | filter-mapping distributes over concatenation |
| Products.FilterMapDrop | backend/src/routes/products.rs:181 | a token that fails to parse is dropped without a trace |
| Products.FilterMapKeep | backend/src/routes/products.rs:181 | a token that parses contributes its value in its place |
| Products.FilterMapEmpty | backend/src/routes/products.rs:181-182 | the result is empty exactly when no input maps to a value |
| Products.FilterMapSound | backend/src/routes/products.rs:181-182 | every result is the value of some input |
| Products.FilterMapAll | backend/src/routes/products.rs:181-182 | when every input maps to the matching output, the result is all of them |
| Products.ParseIdsCases | backend/src/routes/products.rs:178-186 | the id list is empty (so the request is rejected) exactly when no comma-separated token parses; every id is the parse of some token |
| Products.ParseToken | backend/src/routes/products.rs:181 | a token that parses is non-empty after trimming and starts with a sign or a digit; Products.PaddedId states the converse for rendered ids with white space around them |
| Products.ParseIds | backend/src/routes/products.rs:178-182 | at most one id per comma-separated token; Products.ParseIdsCases and Products.ParseShownIds give the rest |
| Products.ShowIntToken | backend/src/routes/products.rs:180-181 | a rendered id contains no comma and is unchanged by trimming |
| Products.KeepShownIds | backend/src/routes/products.rs:181 | parsing the rendered ids token by token gives the ids back |
| Products.ParseShownIds | backend/src/routes/products.rs:178-182 | parsing the comma-joined rendering of any i32 list gives the list back |
| Products.PaddedId | backend/src/routes/products.rs:181 | an i32 rendered in decimal with any white space before and after it, such as " 5 ", parses to that i32 |
| Products.PaddedIds | backend/src/routes/products.rs:178-182 | one token per id, each the id with its own white space around it |
| Products.ParsePaddedIds | backend/src/routes/products.rs:178-182 | comma-joined ids with any white space around each, such as "1, 2 ,3", parse back to the ids in order, repetitions included |
| Products.SameCategory | backend/src/routes/products.rs:210-211 | comparing every product with the first one holds exactly when every two products share a category id |
| Products.CompareProducts | backend/src/routes/products.rs:173-235 | 400 without ids; 500 when a fetch fails; 404 without products; 400 for mixed categories; otherwise the category, the products and their table |
| Products.CompareRejections | backend/src/routes/products.rs:184-213 | 404 exactly when ids parse and no product is found; 400 exactly when no id parses or the categories differ; success only on a non-empty same-category fetch |
| Products.CompareOkTable | backend/src/routes/products.rs:205-235 | a successful response has products of one category and a table starting name, manufacturer, price with one cell per product in every row |
| Routes.HardcodedNumber | backend/src/routes.rs:179-193 | every filter is written with a fixed number from 1 to 5 |
| Routes.WrittenClauses | backend/src/routes.rs:179-193 | each literal clause of the handler is the filter's clause with its fixed number |
| Routes.WrittenClause | backend/src/routes.rs:179-193 | each literal clause is a condition ANDed to the statement that ends in the filter's fixed placeholder `$1`..`$5` (the text search in `$1)`) |
| Routes.HardcodedClausesSnoc | backend/src/routes.rs:179-193 | one more present filter appends its literal clause |
| Routes.PushWritten | backend/src/routes.rs:179-181 | one `if present { push_str }` step keeps the text equal to the literal clauses of the filters tested so far |
| Routes.SearchProductsHardcoded | backend/src/routes.rs:159-214 | the statement is the base text, the fixed-number clauses of the present filters and ORDER BY; the arguments are those of the present filters in order |
| Routes.PlaceholdersHardcoded | backend/src/routes.rs:179-193 | the literal clauses refer to the fixed numbers of the present filters, in order |
| Routes.HardcodedSqlRefs | backend/src/routes.rs:164-195 | the references of the whole statement are those of its clauses |
| Routes.HardcodedIsNumbered | backend/src/routes.rs:179-193 | when the k-th present filter has fixed number k, the literal clauses are the numbered ones |
| Routes.LeadingNumbered | backend/src/routes.rs:179-193 | when the present filters are the first few of the five, the k-th has fixed number k |
| Routes.GapNumbered | backend/src/routes.rs:179-193 | otherwise the last present filter's fixed number exceeds the number of present filters |
| Routes.LeadingAgrees | backend/src/routes.rs:163-195 | with leading filters only, the statement equals the numbered handler's |
| Routes.GapDangling | backend/src/routes.rs:179-214 | otherwise some reference points past the last bound argument |
| Routes.HardcodedBound | backend/src/routes.rs:179-214 | every reference has an argument exactly when the present filters are the leading ones |
| Routes.CategoryOnlyDangling | backend/src/routes.rs:182-204 | a category-only search refers to `$2` while binding the slug alone |
| Db.LastIndex | backend/src/db.rs:6 | absent exactly when the character does not occur; otherwise its last position |
| Db.RSplitTwo | backend/src/db.rs:6 | one part exactly when the separator is absent; otherwise the text after the last separator, then the text before it |
| Db.ParseDatabaseUrl | backend/src/db.rs:6-12 | invalid, with the error text, exactly when the URL has no '/'; otherwise the base precedes the last '/' and the name is the rest cut at its first '?' |
| Db.PostgresUrl | backend/src/db.rs:15 | the base URL followed by "/postgres"; Db.MaintenanceUrl shows it splits back into that base and the name "postgres" |
| Db.CreateDatabaseStatement | backend/src/db.rs:33 | the statement is "CREATE DATABASE " followed by the name |
| Db.NameBoundary | backend/src/db.rs:6-12 | a prefix ending at a '/' followed by '/'-free text is the base |
| Db.ParseJoined | backend/src/db.rs:6-12 | base + "/" + a '/'-free tail gives that base and the tail cut at '?' |
| Db.CutWhole | backend/src/db.rs:11 | a tail without '?' is the name itself |
| Db.CutBeforeQuery | backend/src/db.rs:11 | the name stops before the query string |
| Db.ParseJoinedUrl | backend/src/db.rs:6-12 | splitting base + "/" + name gives back exactly that base and name |
| Db.ParseUrlWithParams | backend/src/db.rs:6-12 | connection parameters after '?' are dropped from the name |
| Db.MaintenanceUrl | backend/src/db.rs:15 | the maintenance URL splits into the same base and the name "postgres" |
| Db.CreateStatementName | backend/src/db.rs:11-33 | the database created is the URL's name cut at '?' |

## Left out

- HTTP extraction, JSON serialisation of responses, logging and the connection pool are left out. The two database fetches of the compare handler are function parameters, and a failed fetch is a `DbFailed` value.
- What the database does with the SQL is not modelled. The statement is modelled as text, and its placeholder references are read by `Search.Placeholders`.
- `BigDecimal::to_string` is the parameter `render`. How decimals print is not modelled.
- Prices arrive as `f64`: the search query's `min_price` and `max_price` (`backend/src/models.rs:81-82`), and `CreateProduct.price` (`backend/src/models.rs:31`). Each is cast with `p as i64` (`backend/src/routes/products.rs:68`, `:111`, `:114`). The model takes the cast's integer result as its input (`Search.SearchQuery`, `Products.CreatePrice`). Floating point and the saturating cast are not modelled.
- The `list_*`, `get_*` and `create_product` handlers are plain single-query plumbing. They are left out, except for `create_product`'s price conversion.
- The pool, the existence query and the execution in `ensure_database_exists` are I/O and are left out; the URL handling is modelled.
- `backend/src/schemas.rs`, `backend/src/main.rs`, the category routes and the frontend scripts are not part of this model.
- The copies of `build_comparison_table` and `compare_products` in `backend/src/routes.rs` (lines 227-383) match `compare.rs` and `routes/products.rs`. They are modelled once.
- Each search handler's five conditional steps are written as calls of one step method (`Products.PushClause`, `Routes.PushWritten`, `Search.PushArg`). The handler has the same branches in the same order.
- Search.CentsToDecimal: only the value n/100 is modelled, as `Decimal(n, 2)`. The scale that `BigDecimal`'s division leaves (it drops trailing zeros) is not modelled. `BigDecimal`'s `==` compares values while the datatype compares structure, so the contracts compare decimals only through `Value()`. The one exception is the bound arguments, which both sides build with the same function.
- Json.Lookup: takes the first member with the key. A `serde_json::Map` never holds two members with one key, but the model's objects may. For such objects, which no source value matches, the first member wins. `Json.LookupDistinct` states the lookup for distinct keys.
- Text.Trim: its own contract states only the length bound and the ends. That the result is the input with white space cut at each end is stated by `Text.TrimSlice`.
- Text.ParseI32: its contract states only what a successful parse needs. The value is given by the body, and the round trip by `Text.ParseShowInt`.

## Findings

| source | as written | input that shows it | evidently intended | confidence | as-written member | corrected member |
|---|---|---|---|---|---|---|
| backend/src/routes.rs:179-193 | each clause carries a fixed placeholder `$1`..`$5`, but arguments are bound only for present filters, one after another | a search with only `category=laptops`: the SQL refers to `$2`, and the one bound argument is the slug, at position 1 | number the placeholders by a running count of present filters, as `backend/src/routes/products.rs:116-142` does | not executed | Routes.CategoryOnlyDangling | Products.SearchPlaceholdersBound |

The handler in `backend/src/routes.rs` is most likely a stale leftover.
`backend/src/main.rs:2` declares `mod routes;` while both
`backend/src/routes.rs` and `backend/src/routes/mod.rs` exist, a layout
rustc rejects as ambiguous, so the code as shown cannot settle which file is
meant. The other files point to `backend/src/routes/mod.rs`:
`backend/src/routes/products.rs:3-10` imports `crate::routes::AppState`, and
only `backend/src/routes/mod.rs:9-29` declares the `products` submodule and
mounts its numbered handler. The finding is therefore a defect in text the
program probably does not use.

`Routes.HardcodedBound` generalises the finding. Every reference of the
fixed-number statement has an argument exactly when the present filters are
the first few of the five. `Routes.LeadingAgrees` shows that in those cases
the statement equals the numbered one. `Products.SearchProducts` is the
corrected handler, and `Products.SearchPlaceholdersBound` proves it binds an
argument for every reference, in order, for every query.
