/** The text handling of `ensure_database_exists` in backend/src/db.rs: the
    connection URL is split at its last '/' into the server part and the
    database name (cut at the first '?'), from which the URL of the
    maintenance database and the creation statement are built. Connecting,
    querying and creating are I/O and are not modelled. */
module Db {

  import opened Wrappers
  import opened Text

  const InvalidFormat: string := "Invalid DATABASE_URL format"

  /** The index of the last `c` in `s`, if any. */
  function LastIndex(s: string, c: char): (r: Option<nat>)
    ensures r.None? <==> c !in s
    ensures r.Some? ==> r.value < |s| && s[r.value] == c && c !in s[r.value + 1..]
    decreases |s|
  {
    if |s| == 0 then None
    else if s[|s| - 1] == c then Some(|s| - 1)
    else
      var r := LastIndex(s[..|s| - 1], c);
      assert s == s[..|s| - 1] + [s[|s| - 1]];
      if r.Some? then
        assert s[r.value + 1..] == s[..|s| - 1][r.value + 1..] + [s[|s| - 1]];
        r
      else r
  }

  /** `s.rsplitn(2, c)`: the text after the last `c`, then the text before
      it; just `s` when there is no `c`. */
  function RSplitTwo(s: string, c: char): (r: seq<string>)
    ensures |r| == 1 || |r| == 2
    ensures |r| == 1 <==> c !in s
    ensures |r| == 1 ==> r[0] == s
    ensures |r| == 2 ==> s == r[1] + [c] + r[0] && c !in r[0]
  {
    match LastIndex(s, c)
    case None => [s]
    case Some(i) =>
      assert s == s[..i] + [c] + s[i + 1..];
      [s[i + 1..], s[..i]]
  }

  /** Where the database lives: the server part of the URL and the name. */
  datatype Target = Target(baseUrl: string, dbName: string)

  datatype ParsedUrl = InvalidUrl(message: string) | Valid(target: Target)

  /** `name` is `rest` cut at its first '?': all of it when it has none. */
  predicate CutAtQuery(name: string, rest: string)
  {
    |name| <= |rest| && rest[..|name|] == name && '?' !in name
    && (|name| < |rest| ==> rest[|name|] == '?')
  }

  /** backend/src/db.rs:6-12, in `ensure_database_exists`: a URL without '/' is rejected;
      otherwise the server part is everything before the last '/', and the
      name is what follows it, up to the first '?'. */
  function ParseDatabaseUrl(url: string): (r: ParsedUrl)
    ensures r.InvalidUrl? <==> '/' !in url
    ensures r.InvalidUrl? ==> r.message == InvalidFormat
    ensures r.Valid? ==>
              var base := r.target.baseUrl;
              && |base| < |url| && url[..|base|] == base && url[|base|] == '/'
              && '/' !in url[|base| + 1..]
              && CutAtQuery(r.target.dbName, url[|base| + 1..])
  {
    var urlParts := RSplitTwo(url, '/');
    if |urlParts| != 2 then InvalidUrl(InvalidFormat)
    else
      var base := urlParts[1];
      assert url[..|base|] == base && url[|base| + 1..] == urlParts[0];
      SplitFirst(urlParts[0], '?');
      Valid(Target(base, Split(urlParts[0], '?')[0]))
  }

  /** `format!("{}/postgres", base_url)`: the maintenance database on the
      same server. */
  function PostgresUrl(t: Target): (r: string)
    ensures |r| == |t.baseUrl| + 9 && r[..|t.baseUrl|] == t.baseUrl && r[|t.baseUrl|..] == "/postgres"
  {
    t.baseUrl + "/postgres"
  }

  /** `format!("CREATE DATABASE {}", db_name)`: the name is spliced in as it
      is, without quoting. */
  function CreateDatabaseStatement(t: Target): (r: string)
    ensures |r| == 16 + |t.dbName| && r[..16] == "CREATE DATABASE " && r[16..] == t.dbName
  {
    "CREATE DATABASE " + t.dbName
  }

  /** The last '/' of `base + "/" + rest`, with no '/' in `rest`, sits right
      after `base`. */
  lemma NameBoundary(base: string, rest: string, found: string, url: string)
    requires url == base + "/" + rest && '/' !in rest
    requires |found| < |url| && url[..|found|] == found && url[|found|] == '/'
    requires '/' !in url[|found| + 1..]
    ensures found == base
  {
    assert url[|base|] == '/' && url[..|base|] == base;
    assert forall k :: |base| < k < |url| ==> url[k] == rest[k - |base| - 1];
    assert forall k :: |found| < k < |url| ==> url[k] == url[|found| + 1..][k - |found| - 1];
    assert |found| <= |base|;
    assert |found| >= |base|;
  }

  /** `base + "/" + rest` with no '/' in `rest` splits at that '/', and the
      name is `rest` cut at its first '?'. */
  lemma ParseJoined(base: string, rest: string)
    requires '/' !in rest
    ensures ParseDatabaseUrl(base + "/" + rest).Valid?
    ensures ParseDatabaseUrl(base + "/" + rest).target.baseUrl == base
    ensures CutAtQuery(ParseDatabaseUrl(base + "/" + rest).target.dbName, rest)
  {
    var url := base + "/" + rest;
    assert url[|base|] == '/';
    var t := ParseDatabaseUrl(url).target;
    NameBoundary(base, rest, t.baseUrl, url);
    assert url[|base| + 1..] == rest;
  }

  /** The only name `rest` can be cut to, when it holds no '?', is all of it. */
  lemma CutWhole(name: string, rest: string)
    requires CutAtQuery(name, rest) && '?' !in rest
    ensures name == rest
  {
    assert forall k :: 0 <= k < |rest| ==> rest[k] != '?';
  }

  /** When a '?' follows a name without one, the cut is right before it. */
  lemma CutBeforeQuery(found: string, name: string, params: string)
    requires '?' !in name
    requires CutAtQuery(found, name + "?" + params)
    ensures found == name
  {
    var rest := name + "?" + params;
    assert forall k :: 0 <= k < |name| ==> rest[k] == name[k] && name[k] != '?';
    assert |name| < |rest| && rest[|name|] == '?';
    assert forall k :: 0 <= k < |found| ==> found[k] == rest[k];
    assert rest[..|name|] == name;
  }

  /** A server part and a database name joined by '/' split back into the
      same two, when the name holds neither '/' nor '?'. */
  lemma ParseJoinedUrl(base: string, name: string)
    requires '/' !in name && '?' !in name
    ensures ParseDatabaseUrl(base + "/" + name) == Valid(Target(base, name))
  {
    ParseJoined(base, name);
    CutWhole(ParseDatabaseUrl(base + "/" + name).target.dbName, name);
  }

  /** Connection parameters after '?' are not part of the name. */
  lemma ParseUrlWithParams(base: string, name: string, params: string)
    requires '/' !in name && '?' !in name && '/' !in params
    ensures ParseDatabaseUrl(base + "/" + (name + "?" + params)) == Valid(Target(base, name))
  {
    var rest := name + "?" + params;
    NotInConcat('/', name, "?");
    NotInConcat('/', name + "?", params);
    ParseJoined(base, rest);
    CutBeforeQuery(ParseDatabaseUrl(base + "/" + rest).target.dbName, name, params);
  }

  /** Parsing the maintenance URL finds the same server and the database
      "postgres". */
  lemma MaintenanceUrl(t: Target)
    ensures ParseDatabaseUrl(PostgresUrl(t)) == Valid(Target(t.baseUrl, "postgres"))
  {
    assert "/" + "postgres" == "/postgres";
    Assoc(t.baseUrl, "/", "postgres");
    assert '/' !in "postgres" && '?' !in "postgres";
    ParseJoinedUrl(t.baseUrl, "postgres");
  }

  /** The creation statement names exactly the text between the last '/'
      and the first '?' after it. */
  lemma CreateStatementName(url: string, rest: string)
    requires ParseDatabaseUrl(url).Valid?
    requires rest == url[|ParseDatabaseUrl(url).target.baseUrl| + 1..]
    ensures CutAtQuery(CreateDatabaseStatement(ParseDatabaseUrl(url).target)[16..], rest)
  {
  }
}
