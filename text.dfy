/**
 * String operations the backend and the admin form rely on: JavaScript's
 * `trim`, `split` and `join`, SQL `LOWER` (ASCII only), substring search
 * (`LIKE '%q%'` without wildcards), code-point ordering for `ORDER BY`, and
 * decimal rendering of integers for log details.
 */
module Text {

  /** JavaScript WhiteSpace and LineTerminator code points, which `String.prototype.trim` removes. */
  predicate IsSpace(c: char) {
    c == ' ' || c == '\t' || c == '\n' || c == '\r' || c == '\U{000B}' || c == '\U{000C}'
    || c == '\U{00A0}' || c == '\U{1680}' || ('\U{2000}' <= c <= '\U{200A}')
    || c == '\U{2028}' || c == '\U{2029}' || c == '\U{202F}' || c == '\U{205F}'
    || c == '\U{3000}' || c == '\U{FEFF}'
  }

  predicate AllSpace(s: string) {
    forall i :: 0 <= i < |s| ==> IsSpace(s[i])
  }

  lemma AllSpaceCons(c: char, t: string)
    requires IsSpace(c) && AllSpace(t)
    ensures AllSpace([c] + t)
  {
    forall i | 0 < i < |[c] + t| ensures IsSpace(([c] + t)[i]) {
      assert ([c] + t)[i] == t[i - 1];
    }
  }

  lemma AllSpaceSnoc(t: string, c: char)
    requires AllSpace(t) && IsSpace(c)
    ensures AllSpace(t + [c])
  {
    forall i | 0 <= i < |t| ensures IsSpace((t + [c])[i]) {
      assert (t + [c])[i] == t[i];
    }
  }

  /** No leading and no trailing whitespace. */
  predicate IsTrimmed(s: string) {
    s == [] || (!IsSpace(s[0]) && !IsSpace(s[|s| - 1]))
  }

  function TrimStart(s: string): (r: string)
    ensures |r| <= |s| && r == s[|s| - |r|..]
    ensures AllSpace(s[..|s| - |r|])
    ensures r == [] || !IsSpace(r[0])
  {
    if |s| > 0 && IsSpace(s[0]) then
      var r := TrimStart(s[1..]);
      assert s[..|s| - |r|] == [s[0]] + s[1..][..|s| - 1 - |r|];
      AllSpaceCons(s[0], s[1..][..|s| - 1 - |r|]);
      r
    else s
  }

  function TrimEnd(s: string): (r: string)
    ensures |r| <= |s| && r == s[..|r|]
    ensures AllSpace(s[|r|..])
    ensures r == [] || !IsSpace(r[|r| - 1])
  {
    if |s| > 0 && IsSpace(s[|s| - 1]) then
      var r := TrimEnd(s[..|s| - 1]);
      assert s[..|s| - 1][..|r|] == s[..|r|];
      assert s[|r|..] == s[..|s| - 1][|r|..] + [s[|s| - 1]];
      AllSpaceSnoc(s[..|s| - 1][|r|..], s[|s| - 1]);
      r
    else s
  }

  /** `s.trim()`: the longest infix of `s` with no whitespace at either end. */
  function Trim(s: string): (r: string)
    ensures IsTrimmed(r)
    ensures |r| <= |s|
    ensures forall c :: c in r ==> c in s
  {
    var t := TrimStart(s);
    var r := TrimEnd(t);
    InfixChars(s, |s| - |t|, |s|);
    InfixChars(t, 0, |r|);
    r
  }

  /** `trim` cuts whitespace at the two ends and nothing else: its result is an infix with only whitespace around it. */
  lemma TrimCutsOnlyOuterSpace(s: string)
    ensures exists i, j :: 0 <= i <= j <= |s| && Trim(s) == s[i..j] && AllSpace(s[..i]) && AllSpace(s[j..])
  {
    TrimmedInfix(s, TrimStart(s), Trim(s));
  }

  /** A prefix of a suffix, with only whitespace cut on either side, is an infix with whitespace around it. */
  lemma TrimmedInfix(s: string, t: string, r: string)
    requires |r| <= |t| <= |s| && t == s[|s| - |t|..] && r == t[..|r|]
    requires AllSpace(s[..|s| - |t|]) && AllSpace(t[|r|..])
    ensures exists i, j :: 0 <= i <= j <= |s| && r == s[i..j] && AllSpace(s[..i]) && AllSpace(s[j..])
  {
    var i := |s| - |t|;
    assert r == s[i..i + |r|];
    assert s[i + |r|..] == t[|r|..];
  }

  /** The characters of a slice are characters of the whole. */
  lemma InfixChars(s: string, lo: int, hi: int)
    requires 0 <= lo <= hi <= |s|
    ensures forall c :: c in s[lo..hi] ==> c in s
  {
    forall c | c in s[lo..hi] ensures c in s {
      var i :| 0 <= i < hi - lo && s[lo..hi][i] == c;
      assert s[lo + i] == c;
    }
  }

  lemma {:induction false} TrimStartOfSpaces(p: string, x: string)
    requires AllSpace(p)
    requires x == [] || !IsSpace(x[0])
    ensures TrimStart(p + x) == x
  {
    if p != [] {
      assert (p + x)[1..] == p[1..] + x;
      TrimStartOfSpaces(p[1..], x);
    } else {
      assert p + x == x;
    }
  }

  /** Whitespace in front of a trimmed string is exactly what `trim` removes. */
  lemma TrimAfterSpaces(p: string, x: string)
    requires AllSpace(p) && IsTrimmed(x)
    ensures Trim(p + x) == x
  {
    TrimStartOfSpaces(p, x);
  }

  /** `trim` changes nothing on a string that is already trimmed. */
  lemma TrimOfTrimmed(x: string)
    requires IsTrimmed(x)
    ensures Trim(x) == x
  {
    TrimAfterSpaces([], x);
    assert [] + x == x;
  }

  /** A name is blank (`s.trim().length === 0`) exactly when it is all whitespace. */
  lemma {:induction false} BlankIffAllSpace(s: string)
    ensures Trim(s) == [] <==> AllSpace(s)
  {
    var t := TrimStart(s);
    if !AllSpace(s) {
      var k :| 0 <= k < |s| && !IsSpace(s[k]);
      assert k >= |s| - |t|;
      assert t[k - (|s| - |t|)] == s[k];
    }
  }

  /** SQL `LOWER` and JavaScript `toLowerCase`, restricted to ASCII letters. */
  function LowerChar(c: char): char {
    if 'A' <= c <= 'Z' then (c as int + 32) as char else c
  }

  function Lower(s: string): (r: string)
    ensures |r| == |s|
    ensures forall i :: 0 <= i < |s| ==> !('A' <= r[i] <= 'Z')
    ensures forall i :: 0 <= i < |s| ==> ('A' <= s[i] <= 'Z' || r[i] == s[i])
    ensures forall i :: 0 <= i < |s| && 'A' <= s[i] <= 'Z' ==> r[i] as int == s[i] as int + 32
  {
    seq(|s|, i requires 0 <= i < |s| => LowerChar(s[i]))
  }

  /** `hay.includes(needle)`, and `LIKE '%needle%'` when `needle` holds no wildcard. */
  predicate Contains(hay: string, needle: string)
    ensures Contains(hay, needle) ==> |needle| <= |hay|
    ensures needle <= hay ==> Contains(hay, needle)
  {
    assert hay[0..] == hay;
    exists i :: 0 <= i <= |hay| && needle <= hay[i..]
  }

  /** `s.split(sep)` for a one-character separator: the pieces between separators, at least one. */
  function Split(s: string, sep: char): (r: seq<string>)
    ensures |r| >= 1
    ensures forall k :: 0 <= k < |r| ==> sep !in r[k]
  {
    if s == [] then [""]
    else
      var rest := Split(s[1..], sep);
      if s[0] == sep then [""] + rest
      else [[s[0]] + rest[0]] + rest[1..]
  }

  lemma {:induction false} SplitNoSeparator(a: string, sep: char)
    requires sep !in a
    ensures Split(a, sep) == [a]
  {
    if a != [] {
      SplitNoSeparator(a[1..], sep);
      assert [a[0]] + a[1..] == a;
    }
  }

  /** Splitting at the first separator gives the piece before it, then the pieces of the rest. */
  lemma {:induction false} SplitAtSeparator(a: string, sep: char, b: string)
    requires sep !in a
    ensures Split(a + [sep] + b, sep) == [a] + Split(b, sep)
  {
    if a == [] {
      assert a + [sep] + b == [sep] + b;
      assert ([sep] + b)[1..] == b;
    } else {
      var s := a + [sep] + b;
      assert s[0] == a[0];
      assert s[1..] == a[1..] + [sep] + b;
      SplitAtSeparator(a[1..], sep, b);
      assert [a[0]] + a[1..] == a;
    }
  }

  /** `xs.join(sep)`. */
  function Join(xs: seq<string>, sep: string): string {
    if |xs| == 0 then ""
    else if |xs| == 1 then xs[0]
    else xs[0] + sep + Join(xs[1..], sep)
  }

  /** Splitting what was joined with a one-character separator gives the pieces back. */
  lemma {:induction false} SplitJoin(xs: seq<string>, sep: char)
    requires |xs| >= 1 && forall k :: 0 <= k < |xs| ==> sep !in xs[k]
    ensures Split(Join(xs, [sep]), sep) == xs
    decreases |xs|
  {
    if |xs| == 1 {
      SplitNoSeparator(xs[0], sep);
    } else {
      assert forall k :: 0 <= k < |xs[1..]| ==> xs[1..][k] == xs[k + 1];
      SplitJoin(xs[1..], sep);
      SplitAtSeparator(xs[0], sep, Join(xs[1..], [sep]));
      assert [xs[0]] + xs[1..] == xs;
    }
  }

  /** Joining one more piece appends the separator and the piece. */
  lemma {:induction false} JoinSnoc(xs: seq<string>, sep: string, y: string)
    requires |xs| >= 1
    ensures Join(xs + [y], sep) == Join(xs, sep) + sep + y
    decreases |xs|
  {
    if |xs| == 1 {
      assert (xs + [y])[1..] == [y];
    } else {
      assert (xs + [y])[1..] == xs[1..] + [y];
      JoinSnoc(xs[1..], sep, y);
    }
  }

  /** Code-point lexicographic order on strings (`ORDER BY` under the C collation). */
  predicate StrLe(a: string, b: string) {
    a == [] || (b != [] && (a[0] < b[0] || (a[0] == b[0] && StrLe(a[1..], b[1..]))))
  }

  lemma {:induction false} StrLeTotal(a: string, b: string)
    ensures StrLe(a, b) || StrLe(b, a)
  {
    if a != [] && b != [] && a[0] == b[0] {
      StrLeTotal(a[1..], b[1..]);
    }
  }

  /**
   * `s.length` in JavaScript: the number of UTF-16 code units, two for each
   * character beyond the Basic Multilingual Plane.
   */
  function Utf16Length(s: string): (n: nat)
    ensures |s| <= n <= 2 * |s|
    ensures n == |s| <==> forall k :: 0 <= k < |s| ==> (s[k] as int) < 0x1_0000
  {
    if s == "" then 0 else (if (s[0] as int) < 0x1_0000 then 1 else 2) + Utf16Length(s[1..])
  }

  /** Decimal digits of a natural number. */
  function NatText(n: nat): (r: string)
    ensures |r| >= 1
    ensures forall k :: 0 <= k < |r| ==> '0' <= r[k] <= '9'
  {
    var d := ((n % 10) + '0' as int) as char;
    if n < 10 then [d] else NatText(n / 10) + [d]
  }

  /** `${n}` for an integer `n`. */
  function IntText(n: int): string {
    if n < 0 then "-" + NatText(-n) else NatText(n)
  }
}
