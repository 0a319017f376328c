/**
 * The handful of `java.lang.String` operations the mail-hygiene core relies on,
 * written out over `seq<char>`: ASCII case mapping, `contains`/`indexOf`, `trim`,
 * `isBlank`, decimal rendering of integers and `String.join`.
 */
module Text {

  // ---------------------------------------------------------------- case

  /** `Character.toLowerCase` restricted to ASCII letters. */
  function LowerChar(c: char): char {
    if 'A' <= c <= 'Z' then (c as int + 32) as char else c
  }

  /** `String.toLowerCase()` over ASCII. */
  function Lower(s: string): string {
    seq(|s|, i requires 0 <= i < |s| => LowerChar(s[i]))
  }

  /** `String.equalsIgnoreCase` over ASCII. */
  predicate EqualsIgnoreCase(a: string, b: string) {
    Lower(a) == Lower(b)
  }

  // ------------------------------------------------------ substring search

  /** `sub` occurs in `s` starting at index `i`. */
  predicate OccursAt(s: string, sub: string, i: int) {
    0 <= i && i + |sub| <= |s| && s[i..i + |sub|] == sub
  }

  /** `String.contains`. */
  predicate Contains(s: string, sub: string) {
    exists i | 0 <= i <= |s| - |sub| :: OccursAt(s, sub, i)
  }

  /**
   * `String.indexOf(sub, from)` for `from >= 0`: the first occurrence at or after
   * `from`, or -1.
   */
  function IndexOfFrom(s: string, sub: string, from: nat): (r: int)
    ensures r == -1 || (from <= r && OccursAt(s, sub, r))
    decreases |s| - from
  {
    if from + |sub| > |s| then -1
    else if s[from..from + |sub|] == sub then from
    else IndexOfFrom(s, sub, from + 1)
  }

  /** Nothing is skipped: no occurrence starts between `from` and the one found. */
  lemma {:induction false} IndexOfFromSpec(s: string, sub: string, from: nat)
    ensures var r := IndexOfFrom(s, sub, from);
      forall j :: from <= j && (r == -1 || j < r) ==> !OccursAt(s, sub, j)
    decreases |s| - from
  {
    if from + |sub| <= |s| && s[from..from + |sub|] != sub {
      IndexOfFromSpec(s, sub, from + 1);
    }
  }

  /** `String.indexOf(sub)`. */
  function IndexOf(s: string, sub: string): int {
    IndexOfFrom(s, sub, 0)
  }

  /** `String.indexOf(char)`. */
  function IndexOfChar(s: string, c: char): int {
    IndexOfFrom(s, [c], 0)
  }

  /** `indexOf` finds something exactly when `contains` holds. */
  lemma IndexOfFindsIff(s: string, sub: string)
    ensures IndexOf(s, sub) >= 0 <==> Contains(s, sub)
  {
    IndexOfFromSpec(s, sub, 0);
    var r := IndexOf(s, sub);
    if r >= 0 {
      assert OccursAt(s, sub, r);
    }
  }

  /** For a single character, an occurrence is a position holding it. */
  lemma IndexOfCharSpec(s: string, c: char)
    ensures var r := IndexOfChar(s, c);
      (r == -1 <==> c !in s) &&
      (r >= 0 ==> r < |s| && s[r] == c && c !in s[..r])
  {
    IndexOfFromSpec(s, [c], 0);
    var r := IndexOfChar(s, c);
    forall j | 0 <= j < |s| && s[j] == c
      ensures r != -1 && r <= j
    {
      assert s[j..j + 1] == [c];
      assert OccursAt(s, [c], j);
    }
    if r >= 0 {
      assert s[r..r + 1] == [c];
      assert s[r] == s[r..r + 1][0];
      forall j | 0 <= j < r
        ensures s[j] != c
      {
        assert !OccursAt(s, [c], j);
        assert s[j..j + 1] == [s[j]];
      }
    }
  }

  /** A `c` at `i` with none before it is what `indexOf(c)` finds. */
  lemma IndexOfCharAt(s: string, c: char, i: nat)
    requires i < |s| && s[i] == c && c !in s[..i]
    ensures IndexOfChar(s, c) == i
  {
    IndexOfCharSpec(s, c);
    var r := IndexOfChar(s, c);
    assert s[..i + 1][i] == c;
    assert forall j :: 0 <= j < r && j <= i ==> s[..r][j] == s[j];
    assert forall j :: 0 <= j < i && j <= r ==> s[..i][j] == s[j];
  }

  lemma OccursAtShift(s: string, sub: string, i: int, a: string, b: string)
    requires OccursAt(s, sub, i)
    ensures OccursAt(a + s + b, sub, |a| + i)
  {
    assert (a + s + b)[|a| + i..|a| + i + |sub|] == s[i..i + |sub|];
  }

  /** Text around a match keeps the match. */
  lemma ContainsInContext(s: string, sub: string, a: string, b: string)
    requires Contains(s, sub)
    ensures Contains(a + s + b, sub)
  {
    var i :| 0 <= i <= |s| - |sub| && OccursAt(s, sub, i);
    OccursAtShift(s, sub, i, a, b);
  }

  /** Every string contains itself. */
  lemma ContainsSelf(s: string)
    ensures Contains(s, s)
  {
    assert OccursAt(s, s, 0);
  }

  /** Containment is transitive: a match of `mid` carries every match inside `mid`. */
  lemma ContainsTransitive(s: string, mid: string, sub: string)
    requires Contains(s, mid) && Contains(mid, sub)
    ensures Contains(s, sub)
  {
    var i :| 0 <= i <= |s| - |mid| && OccursAt(s, mid, i);
    var j :| 0 <= j <= |mid| - |sub| && OccursAt(mid, sub, j);
    forall k | 0 <= k < |sub|
      ensures s[i + j + k] == sub[k]
    {
      assert sub[k] == mid[j..j + |sub|][k] == mid[j + k];
      assert mid[j + k] == s[i..i + |mid|][j + k];
    }
    assert s[i + j..i + j + |sub|] == sub;
    assert OccursAt(s, sub, i + j);
  }

  /** Lower-casing keeps matches (lower-cased). */
  lemma LowerKeepsContains(s: string, sub: string)
    requires Contains(s, sub)
    ensures Contains(Lower(s), Lower(sub))
  {
    var i :| 0 <= i <= |s| - |sub| && OccursAt(s, sub, i);
    assert Lower(s)[i..i + |sub|] == Lower(s[i..i + |sub|]);
    assert OccursAt(Lower(s), Lower(sub), i);
  }

  // ------------------------------------------------------------ whitespace

  /** What `String.trim()` strips: every char at or below U+0020. */
  predicate TrimmedChar(c: char) {
    c <= ' '
  }

  /** `Character.isWhitespace`, as it is for ASCII: TAB..CR, FS..US and SPACE. */
  predicate IsJavaWhitespace(c: char) {
    '\t' <= c <= '\r' || '\U{1C}' <= c <= ' '
  }

  /** Java regex `\s` (without UNICODE_CHARACTER_CLASS): `[ \t\n\x0B\f\r]`. */
  predicate IsRegexSpace(c: char) {
    c == ' ' || '\t' <= c <= '\r'
  }

  /** `String.isBlank()`: empty or only whitespace. */
  predicate IsBlank(s: string) {
    forall i | 0 <= i < |s| :: IsJavaWhitespace(s[i])
  }

  /** Leading characters at or below U+0020 removed. */
  function TrimStart(s: string): (r: string)
    ensures |r| <= |s| && r == s[|s| - |r|..]
    ensures r == [] || !TrimmedChar(r[0])
    ensures forall i :: 0 <= i < |s| - |r| ==> TrimmedChar(s[i])
  {
    if s != [] && TrimmedChar(s[0]) then TrimStart(s[1..]) else s
  }

  /** Trailing characters at or below U+0020 removed. */
  function TrimEnd(s: string): (r: string)
    ensures |r| <= |s| && r == s[..|r|]
    ensures r == [] || !TrimmedChar(r[|r| - 1])
    ensures forall i :: |r| <= i < |s| ==> TrimmedChar(s[i])
  {
    if s != [] && TrimmedChar(s[|s| - 1]) then TrimEnd(s[..|s| - 1]) else s
  }

  /** `String.trim()`. */
  function Trim(s: string): string {
    TrimEnd(TrimStart(s))
  }

  /**
   * `r` is the slice of `s` that starts at `lo`, every character cut off on
   * either side of it is trimmable, and neither of its ends is.
   */
  predicate TrimmedMiddle(s: string, lo: int, r: string) {
    0 <= lo && lo + |r| <= |s| && r == s[lo..lo + |r|] &&
    (forall i :: 0 <= i < lo ==> TrimmedChar(s[i])) &&
    (forall i :: lo + |r| <= i < |s| ==> TrimmedChar(s[i])) &&
    (r == [] || (!TrimmedChar(r[0]) && !TrimmedChar(r[|r| - 1])))
  }

  /** `trim()` keeps exactly the middle of `s`. */
  lemma {:induction false} TrimSpec(s: string)
    ensures TrimmedMiddle(s, |s| - |TrimStart(s)|, Trim(s))
  {
    TrimMiddle(s, TrimStart(s), Trim(s));
  }

  /**
   * The facts of `TrimSpec`, from what `TrimStart` (giving `t`) and `TrimEnd`
   * (giving `r`) ensure.
   */
  lemma {:induction false} TrimMiddle(s: string, t: string, r: string)
    requires |t| <= |s| && t == s[|s| - |t|..]
    requires t == [] || !TrimmedChar(t[0])
    requires forall i :: 0 <= i < |s| - |t| ==> TrimmedChar(s[i])
    requires |r| <= |t| && r == t[..|r|]
    requires r == [] || !TrimmedChar(r[|r| - 1])
    requires forall i :: |r| <= i < |t| ==> TrimmedChar(t[i])
    ensures TrimmedMiddle(s, |s| - |t|, r)
  {
    var lo := |s| - |t|;
    forall k | 0 <= k < |r|
      ensures r[k] == s[lo + k]
    {
      assert r[k] == t[k];
    }
    assert r == s[lo..lo + |r|];
    if r != [] {
      assert r[0] == t[0];
    }
    forall i | lo + |r| <= i < |s|
      ensures TrimmedChar(s[i])
    {
      assert s[i] == t[i - lo];
    }
  }

  /** `trim()` is idempotent. */
  lemma TrimIdempotent(s: string)
    ensures Trim(Trim(s)) == Trim(s)
  {
    var r := Trim(s);
    TrimSpec(s);
    if r != [] {
      assert TrimStart(r) == r;
      assert TrimEnd(r) == r;
    }
  }

  // -------------------------------------------------------- character removal

  /** `s.replaceAll(c, "")` for a single literal character `c`. */
  function RemoveChar(s: string, c: char): (r: string)
    ensures c !in r
    ensures |r| <= |s|
    ensures multiset(r) == multiset(s)[c := 0]
  {
    if s == [] then []
    else
      assert s == [s[0]] + s[1..];
      (if s[0] == c then [] else [s[0]]) + RemoveChar(s[1..], c)
  }

  // ----------------------------------------------------- decimal integers

  predicate IsDigit(c: char) {
    '0' <= c <= '9'
  }

  function DigitChar(d: nat): char
    requires d < 10
  {
    ('0' as int + d) as char
  }

  /** `Long.toString` / `%d` for a non-negative value. */
  function NatToString(n: nat): (r: string)
    ensures 1 <= |r|
    ensures forall i :: 0 <= i < |r| ==> IsDigit(r[i])
    ensures |r| > 1 ==> r[0] != '0'
  {
    if n < 10 then [DigitChar(n)] else NatToString(n / 10) + [DigitChar(n % 10)]
  }

  /** `Long.toString` / `%d`: a minus sign for negative values. */
  function IntToString(n: int): string {
    if n < 0 then "-" + NatToString(-n) else NatToString(n)
  }

  /** Reads back a string of decimal digits. */
  function ParseNat(s: string): nat
    requires forall i :: 0 <= i < |s| ==> IsDigit(s[i])
  {
    if s == [] then 0
    else
      assert IsDigit(s[|s| - 1]);
      10 * ParseNat(s[..|s| - 1]) + (s[|s| - 1] as int - '0' as int)
  }

  /** Reads back what `IntToString` printed. */
  function ParseInt(s: string): int
    requires s != [] && (s[0] == '-' ==> |s| > 1)
    requires forall i :: 0 <= i < |s| ==> IsDigit(s[i]) || (i == 0 && s[i] == '-')
  {
    if s[0] == '-' then -(ParseNat(s[1..]) as int) else ParseNat(s)
  }

  lemma {:induction false} NatToStringRoundTrip(n: nat)
    ensures ParseNat(NatToString(n)) == n
  {
    if n >= 10 {
      NatToStringRoundTrip(n / 10);
      var s := NatToString(n);
      assert s[..|s| - 1] == NatToString(n / 10);
    }
  }

  /** Decimal rendering loses nothing: parsing it gives the number back. */
  lemma IntToStringRoundTrip(n: int)
    ensures var s := IntToString(n);
      s != [] && (s[0] == '-' ==> |s| > 1) &&
      (forall i :: 0 <= i < |s| ==> IsDigit(s[i]) || (i == 0 && s[i] == '-')) &&
      ParseInt(s) == n
  {
    var s := IntToString(n);
    if n < 0 {
      NatToStringRoundTrip(-n);
      assert s[1..] == NatToString(-n);
    } else {
      NatToStringRoundTrip(n);
    }
  }

  // -------------------------------------------------------------- joining

  /** `String.join(sep, parts)`. */
  function Join(sep: string, parts: seq<string>): string {
    if |parts| == 0 then ""
    else if |parts| == 1 then parts[0]
    else parts[0] + sep + Join(sep, parts[1..])
  }

  /** Every part appears inside the joined string. */
  lemma {:induction false} JoinContainsParts(sep: string, parts: seq<string>, k: nat)
    requires k < |parts|
    ensures Contains(Join(sep, parts), parts[k])
  {
    if |parts| == 1 {
      ContainsSelf(parts[0]);
    } else if k == 0 {
      ContainsSelf(parts[0]);
      ContainsInContext(parts[0], parts[0], "", sep + Join(sep, parts[1..]));
      assert "" + parts[0] + (sep + Join(sep, parts[1..])) == Join(sep, parts);
    } else {
      JoinContainsParts(sep, parts[1..], k - 1);
      ContainsInContext(Join(sep, parts[1..]), parts[k], parts[0] + sep, "");
      assert (parts[0] + sep) + Join(sep, parts[1..]) + "" == Join(sep, parts);
    }
  }
}
