/** The string operations of Rust's standard library that the handlers use:
    `str::split` on a character, `str::trim`, `i32::from_str`, and the
    decimal rendering of integers that `format!("{}")` performs. */
module Text {

  import opened Wrappers

  // ---------------------------------------------------------------------
  // Small facts about sequences
  // ---------------------------------------------------------------------

  lemma AppendEmpty<T>(a: seq<T>)
    ensures a + [] == a
  {
  }

  lemma Assoc<T>(a: seq<T>, b: seq<T>, c: seq<T>)
    ensures a + (b + c) == a + b + c
  {
  }

  lemma PrefixExtend<T>(p: seq<T>, a: seq<T>, b: seq<T>, y: seq<T>, z: seq<T>)
    requires a + b <= y
    ensures p + a + b <= p + y + z
  {
    assert (p + y + z)[..|p + a + b|] == p + (a + b);
  }

  lemma PrefixSubst<T>(x: seq<T>, y: seq<T>, z: seq<T>)
    requires x <= z && x == y
    ensures y <= z
  {
  }

  lemma TakeOneMore<T>(s: seq<T>, i: nat)
    requires i < |s|
    ensures |s[..i + 1]| == i + 1 && s[..i + 1][..i] == s[..i] && s[..i + 1][i] == s[i]
  {
  }

  lemma NotInConcat(c: char, a: string, b: string)
    requires c !in a && c !in b
    ensures c !in a + b
  {
  }

  // ---------------------------------------------------------------------
  // Splitting on a separator character
  // ---------------------------------------------------------------------

  /** `s.split(c)`: the maximal pieces between occurrences of `c`. An empty
      string yields one empty piece; two adjacent separators yield an empty
      piece between them. */
  function Split(s: string, c: char): (r: seq<string>)
    ensures |r| >= 1
    ensures forall i :: 0 <= i < |r| ==> c !in r[i]
    decreases |s|
  {
    if |s| == 0 then [""]
    else if s[0] == c then [""] + Split(s[1..], c)
    else
      var rest := Split(s[1..], c);
      [[s[0]] + rest[0]] + rest[1..]
  }

  /** The pieces written back with `c` between each two of them. */
  function Join(parts: seq<string>, c: char): string
    decreases |parts|
  {
    if |parts| == 0 then ""
    else if |parts| == 1 then parts[0]
    else parts[0] + [c] + Join(parts[1..], c)
  }

  /** Splitting loses nothing: the separators come back between the pieces. */
  lemma {:induction false} JoinSplit(s: string, c: char)
    ensures Join(Split(s, c), c) == s
    decreases |s|
  {
    if |s| == 0 {
    } else if s[0] == c {
      JoinSplit(s[1..], c);
      var rest := Split(s[1..], c);
      assert Split(s, c) == [""] + rest;
      assert ([""] + rest)[1..] == rest;
    } else {
      JoinSplit(s[1..], c);
      var rest := Split(s[1..], c);
      assert Split(s, c) == [[s[0]] + rest[0]] + rest[1..];
      if |rest| == 1 {
        assert rest[0] == s[1..];
      } else {
        assert Join(rest, c) == rest[0] + [c] + Join(rest[1..], c);
        var r := [[s[0]] + rest[0]] + rest[1..];
        assert r[1..] == rest[1..];
      }
    }
  }

  /** `s.split(c).next()`: the first piece is the longest prefix of `s`
      without `c`; when it is shorter than `s`, a `c` follows it. */
  lemma {:induction false} SplitFirst(s: string, c: char)
    ensures var p := Split(s, c)[0];
            && |p| <= |s| && s[..|p|] == p && c !in p
            && (|p| < |s| ==> s[|p|] == c)
    decreases |s|
  {
    if |s| > 0 && s[0] != c {
      SplitFirst(s[1..], c);
      var q := Split(s[1..], c)[0];
      assert Split(s, c)[0] == [s[0]] + q;
      assert s[..|q| + 1] == [s[0]] + s[1..][..|q|];
    }
  }

  /** Joining pieces that do not contain the separator and splitting again
      gives the same pieces back. */
  lemma {:induction false} SplitJoin(parts: seq<string>, c: char)
    requires |parts| >= 1
    requires forall i :: 0 <= i < |parts| ==> c !in parts[i]
    ensures Split(Join(parts, c), c) == parts
    decreases |parts|, |parts[0]|
  {
    if |parts[0]| == 0 {
      if |parts| == 1 {
      } else {
        SplitJoin(parts[1..], c);
        var s := Join(parts, c);
        assert s == [c] + Join(parts[1..], c);
        assert s[1..] == Join(parts[1..], c);
        assert parts == [""] + parts[1..];
      }
    } else {
      var head := parts[0];
      var shorter := [head[1..]] + parts[1..];
      assert head[0] != c by { assert head[0] in parts[0]; }
      assert forall i :: 0 < i < |shorter| ==> shorter[i] == parts[i];
      SplitJoin(shorter, c);
      var s := Join(parts, c);
      var t := Join(shorter, c);
      if |parts| == 1 {
        assert s == head && t == head[1..];
      } else {
        assert shorter[1..] == parts[1..];
        assert s == head + [c] + Join(parts[1..], c);
        assert t == head[1..] + [c] + Join(parts[1..], c);
      }
      assert s == [head[0]] + t;
      assert s[0] == head[0] && s[1..] == t;
      var rest := Split(t, c);
      assert rest == shorter;
      assert rest[0] == head[1..] && rest[1..] == parts[1..];
      assert [head[0]] + head[1..] == head;
      assert Split(s, c) == [[s[0]] + rest[0]] + rest[1..];
      assert parts == [head] + parts[1..];
    }
  }

  // ---------------------------------------------------------------------
  // Trimming white space
  // ---------------------------------------------------------------------

  /** `char::is_whitespace`: the Unicode White_Space property. */
  predicate IsWhitespace(c: char)
  {
    var n := c as int;
    n == 0x20 || 0x09 <= n <= 0x0D || n == 0x85 || n == 0xA0 || n == 0x1680
    || 0x2000 <= n <= 0x200A || n == 0x2028 || n == 0x2029 || n == 0x202F
    || n == 0x205F || n == 0x3000
  }

  /** The index of the first character at or after `k` that is not white
      space (`|s|` when there is none). */
  function SkipLeading(s: string, k: nat): (i: nat)
    requires k <= |s|
    ensures k <= i <= |s|
    ensures forall m :: k <= m < i ==> IsWhitespace(s[m])
    ensures i < |s| ==> !IsWhitespace(s[i])
    decreases |s| - k
  {
    if k < |s| && IsWhitespace(s[k]) then SkipLeading(s, k + 1) else k
  }

  /** The index just after the last character before `k`, and not before
      `lo`, that is not white space (`lo` when there is none). */
  function SkipTrailing(s: string, lo: nat, k: nat): (j: nat)
    requires lo <= k <= |s|
    ensures lo <= j <= k
    ensures forall m :: j <= m < k ==> IsWhitespace(s[m])
    ensures j > lo ==> !IsWhitespace(s[j - 1])
    decreases k
  {
    if k > lo && IsWhitespace(s[k - 1]) then SkipTrailing(s, lo, k - 1) else k
  }

  /** `str::trim`: the infix left after removing leading and trailing white
      space; what is kept neither starts nor ends with it. */
  function Trim(s: string): (r: string)
    ensures |r| <= |s|
    ensures |r| > 0 ==> !IsWhitespace(r[0]) && !IsWhitespace(r[|r| - 1])
  {
    var i := SkipLeading(s, 0);
    var j := SkipTrailing(s, i, |s|);
    s[i..j]
  }

  /** What trimming removes is white space at either end. */
  lemma TrimSlice(s: string)
    ensures exists i, j :: 0 <= i <= j <= |s| && Trim(s) == s[i..j]
                           && (forall m :: 0 <= m < i ==> IsWhitespace(s[m]))
                           && (forall m :: j <= m < |s| ==> IsWhitespace(s[m]))
  {
    var i := SkipLeading(s, 0);
    var j := SkipTrailing(s, i, |s|);
    assert Trim(s) == s[i..j];
  }

  /** A string that neither starts nor ends with white space is its own trim. */
  lemma TrimUntouched(s: string)
    requires |s| > 0 ==> !IsWhitespace(s[0]) && !IsWhitespace(s[|s| - 1])
    ensures Trim(s) == s
  {
    assert SkipLeading(s, 0) == 0;
    assert SkipTrailing(s, 0, |s|) == |s|;
    assert s[0..|s|] == s;
  }

  /** White space added at either end of a string that neither starts nor
      ends with white space is exactly what trimming removes. */
  lemma TrimPadded(w1: string, s: string, w2: string)
    requires forall m :: 0 <= m < |w1| ==> IsWhitespace(w1[m])
    requires forall m :: 0 <= m < |w2| ==> IsWhitespace(w2[m])
    requires |s| > 0 && !IsWhitespace(s[0]) && !IsWhitespace(s[|s| - 1])
    ensures Trim(w1 + s + w2) == s
  {
    var t := w1 + s + w2;
    var i := SkipLeading(t, 0);
    assert t[|w1|] == s[0];
    assert i == |w1|;
    var e := |w1| + |s|;
    var j := SkipTrailing(t, i, |t|);
    assert t[e - 1] == s[|s| - 1];
    assert j == e;
    assert t[i..j] == s;
  }

  // ---------------------------------------------------------------------
  // Decimal digits
  // ---------------------------------------------------------------------

  predicate IsDigit(c: char)
  {
    '0' <= c <= '9'
  }

  predicate AllDigits(s: string)
  {
    forall i :: 0 <= i < |s| ==> IsDigit(s[i])
  }

  function DigitChar(d: nat): (c: char)
    requires d < 10
    ensures IsDigit(c) && c as int - '0' as int == d
  {
    ('0' as int + d) as char
  }

  /** The number a run of decimal digits denotes, most significant first. */
  function DigitsValue(s: string): nat
    requires AllDigits(s)
    decreases |s|
  {
    if |s| == 0 then 0
    else DigitsValue(s[..|s| - 1]) * 10 + (s[|s| - 1] as int - '0' as int)
  }

  /** The decimal rendering of a natural number, without leading zeros. */
  function ShowNat(n: nat): (r: string)
    ensures |r| >= 1 && AllDigits(r)
    ensures r[0] != '0' || n == 0
    decreases n
  {
    if n < 10 then [DigitChar(n)]
    else ShowNat(n / 10) + [DigitChar(n % 10)]
  }

  /** Reading back what ShowNat wrote gives the number. */
  lemma {:induction false} ShowNatValue(n: nat)
    ensures DigitsValue(ShowNat(n)) == n
    decreases n
  {
    if n >= 10 {
      ShowNatValue(n / 10);
      var s := ShowNat(n);
      assert s[..|s| - 1] == ShowNat(n / 10);
    }
  }

  /** The decimal rendering of an integer, with a leading '-' when negative
      (what `format!("{}")` and `to_string` produce for an `i32`). */
  function ShowInt(n: int): (r: string)
  {
    if n < 0 then "-" + ShowNat(-n) else ShowNat(n)
  }

  // ---------------------------------------------------------------------
  // i32 parsing
  // ---------------------------------------------------------------------

  const I32_MIN: int := -0x8000_0000
  const I32_MAX: int := 0x7FFF_FFFF

  type I32 = n: int | I32_MIN <= n <= I32_MAX

  /** `s.parse::<i32>().ok()`: an optional '+' or '-' followed by at least one
      ASCII digit and nothing else, denoting a value within the i32 range. */
  function ParseI32(s: string): (r: Option<I32>)
    ensures r.Some? ==> |s| > 0
    ensures r.Some? && (s[0] == '+' || s[0] == '-') ==> |s| > 1 && AllDigits(s[1..])
    ensures r.Some? && s[0] != '+' && s[0] != '-' ==> AllDigits(s)
  {
    if |s| == 0 then None
    else
      var signed := s[0] == '+' || s[0] == '-';
      var digits := if signed then s[1..] else s;
      if |digits| == 0 || !AllDigits(digits) then None
      else
        var magnitude: int := DigitsValue(digits);
        var v := if s[0] == '-' then -magnitude else magnitude;
        if I32_MIN <= v <= I32_MAX then Some(v) else None
  }

  /** Every i32 survives rendering and parsing. */
  lemma ParseShowInt(n: I32)
    ensures ParseI32(ShowInt(n)) == Some(n)
  {
    var s := ShowInt(n);
    if n < 0 {
      var d := ShowNat(-(n as int));
      ShowNatValue(-(n as int));
      assert s == "-" + d && s[0] == '-' && s[1..] == d;
    } else {
      ShowNatValue(n);
      assert s == ShowNat(n) && s[0] != '+' && s[0] != '-';
    }
  }
}
