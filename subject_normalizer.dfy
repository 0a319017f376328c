/**
 * The subject normalisation of `findSimilarSubjects` in SmartAnalysisService: a
 * leading reply or forward prefix is dropped, every run of digits becomes `#`,
 * every run of whitespace a single space, and the ends are trimmed.
 */
module SubjectNormalizer {
  import opened Text

  /** The length of a `(?i)^(re|fwd|fw):` match at the start of `s`, or 0 for none. */
  function ReplyPrefixLength(s: string): (n: nat)
    ensures n <= |s|
  {
    if |s| >= 3 && Lower(s[..3]) == "re:" then 3
    else if |s| >= 4 && Lower(s[..4]) == "fwd:" then 4
    else if |s| >= 3 && Lower(s[..3]) == "fw:" then 3
    else 0
  }

  /** `s` without its leading `\s` characters. */
  function DropSpaces(s: string): string {
    if s != [] && IsRegexSpace(s[0]) then DropSpaces(s[1..]) else s
  }

  /** `replaceAll("(?i)^(re|fwd|fw):\\s*", "")`: one reply prefix and the spaces after it. */
  function StripReplyPrefix(s: string): string {
    var n := ReplyPrefixLength(s);
    if n == 0 then s else DropSpaces(s[n..])
  }

  /** The two regex character classes the normalisation replaces runs of: `\d` and `\s`. */
  datatype CharClass = Digits | Spaces {
    predicate Has(c: char) {
      match this
      case Digits => IsDigit(c)
      case Spaces => IsRegexSpace(c)
    }
  }

  /**
   * One left-to-right pass of `replaceAll(k + "+", rep)`: a character of class `k`
   * writes `rep` when it starts a run (`inRun` is false) and nothing otherwise; any
   * other character is copied.
   */
  function Runs(s: string, k: CharClass, rep: string, inRun: bool): string {
    if s == [] then []
    else if k.Has(s[0]) then (if inRun then [] else rep) + Runs(s[1..], k, rep, true)
    else [s[0]] + Runs(s[1..], k, rep, false)
  }

  /** `replaceAll(k + "+", rep)`: every maximal run of class-`k` characters becomes `rep`. */
  function ReplaceRuns(s: string, k: CharClass, rep: string): string {
    Runs(s, k, rep, false)
  }

  /** The subject normalisation of `findSimilarSubjects`. */
  function NormalizeSubject(s: string): string {
    Trim(ReplaceRuns(ReplaceRuns(StripReplyPrefix(s), Digits, "#"), Spaces, " "))
  }

  /** Whether a pass is inside a run after reading `s`, having started with `inRun`. */
  function EndsInRun(s: string, k: CharClass, inRun: bool): bool {
    if s == [] then inRun else k.Has(s[|s| - 1])
  }

  /** The pass over `x + y` is the pass over `x`, then the pass over `y` in the state `x` left. */
  lemma {:induction false} RunsAppend(x: string, y: string, k: CharClass, rep: string, inRun: bool)
    ensures Runs(x + y, k, rep, inRun) == Runs(x, k, rep, inRun) + Runs(y, k, rep, EndsInRun(x, k, inRun))
  {
    if x == [] {
      assert x + y == y;
    } else {
      assert (x + y)[1..] == x[1..] + y;
      RunsAppend(x[1..], y, k, rep, k.Has(x[0]));
      assert EndsInRun(x[1..], k, k.Has(x[0])) == EndsInRun(x, k, inRun);
    }
  }

  /** A whole run, of any length, becomes one `rep`. */
  lemma {:induction false} RunCollapses(d: string, k: CharClass, rep: string)
    requires d != [] && forall i :: 0 <= i < |d| ==> k.Has(d[i])
    ensures Runs(d, k, rep, false) == rep
  {
    RunInside(d[1..], k, rep);
  }

  lemma {:induction false} RunInside(d: string, k: CharClass, rep: string)
    requires forall i :: 0 <= i < |d| ==> k.Has(d[i])
    ensures Runs(d, k, rep, true) == []
  {
    if d != [] {
      RunInside(d[1..], k, rep);
    }
  }

  /** Text with no class-`k` character is left as it is. */
  lemma {:induction false} NoRunsUnchanged(s: string, k: CharClass, rep: string, inRun: bool)
    requires forall i :: 0 <= i < |s| ==> !k.Has(s[i])
    ensures Runs(s, k, rep, inRun) == s
  {
    if s != [] {
      NoRunsUnchanged(s[1..], k, rep, false);
    }
  }

  /** Text whose class-`k` runs are already single copies of `c` is left as it is. */
  lemma {:induction false} SingleRunsUnchanged(s: string, k: CharClass, c: char)
    requires k.Has(c)
    requires forall i :: 0 <= i < |s| && k.Has(s[i]) ==> s[i] == c
    requires forall i :: 0 <= i < |s| - 1 ==> !(k.Has(s[i]) && k.Has(s[i + 1]))
    ensures Runs(s, k, [c], false) == s
  {
    if s != [] {
      SingleRunsUnchanged(s[1..], k, c);
      if k.Has(s[0]) && |s| > 1 {
        assert !k.Has(s[1]);
      }
    }
  }

  /** Every character of the result is a copied character outside the class, or comes from `rep`. */
  lemma {:induction false} RunsChars(s: string, k: CharClass, rep: string, inRun: bool)
    ensures forall c :: c in Runs(s, k, rep, inRun) ==> (c in s && !k.Has(c)) || c in rep
  {
    if s != [] {
      RunsChars(s[1..], k, rep, k.Has(s[0]));
    }
  }

  /** No two class-`k` characters are adjacent in `r`. */
  predicate NoAdjacent(r: string, k: CharClass) {
    forall i :: 0 <= i < |r| - 1 ==> !(k.Has(r[i]) && k.Has(r[i + 1]))
  }

  lemma ConsNoAdjacent(h: char, t: string, k: CharClass)
    requires NoAdjacent(t, k)
    requires !k.Has(h) || t == [] || !k.Has(t[0])
    ensures NoAdjacent([h] + t, k)
  {
    var r := [h] + t;
    forall i | 0 <= i < |r| - 1
      ensures !(k.Has(r[i]) && k.Has(r[i + 1]))
    {
      if i > 0 {
        assert r[i] == t[i - 1] && r[i + 1] == t[i];
      }
    }
  }

  /**
   * With a single-character `rep` of the class, no two class characters end up
   * adjacent (and inside a run the output does not start with one).
   */
  lemma {:induction false} RunsSingle(s: string, k: CharClass, c: char, inRun: bool)
    requires k.Has(c)
    ensures NoAdjacent(Runs(s, k, [c], inRun), k)
    ensures inRun ==> Runs(s, k, [c], inRun) == [] || !k.Has(Runs(s, k, [c], inRun)[0])
  {
    if s != [] {
      var r := Runs(s, k, [c], inRun);
      var t := Runs(s[1..], k, [c], k.Has(s[0]));
      RunsSingle(s[1..], k, c, k.Has(s[0]));
      if !(k.Has(s[0]) && inRun) {
        var h := if k.Has(s[0]) then c else s[0];
        assert r == [h] + t;
        ConsNoAdjacent(h, t, k);
      }
    }
  }

  /** `trim()` keeps a slice, so it adds no character. */
  lemma TrimSlice(s: string)
    ensures forall c :: c in Trim(s) ==> c in s
  {
    var t := TrimStart(s);
    assert forall c :: c in t ==> c in s;
  }

  /** A normalised subject has no digits. */
  lemma NormalizedHasNoDigits(s: string)
    ensures forall c :: c in NormalizeSubject(s) ==> !IsDigit(c)
  {
    var a := ReplaceRuns(StripReplyPrefix(s), Digits, "#");
    var b := ReplaceRuns(a, Spaces, " ");
    RunsChars(StripReplyPrefix(s), Digits, "#", false);
    RunsChars(a, Spaces, " ", false);
    TrimSlice(b);
  }

  /** Plain single spaces between words: every `\s` is a space, and no two are adjacent. */
  predicate SingleSpaced(n: string) {
    (forall i :: 0 <= i < |n| && IsRegexSpace(n[i]) ==> n[i] == ' ') &&
    (forall i :: 0 <= i < |n| - 1 ==> !(IsRegexSpace(n[i]) && IsRegexSpace(n[i + 1])))
  }

  lemma CollapsedIsSingleSpaced(a: string)
    ensures SingleSpaced(ReplaceRuns(a, Spaces, " "))
  {
    assert [' '] == " ";
    var b := ReplaceRuns(a, Spaces, " ");
    RunsChars(a, Spaces, " ", false);
    RunsSingle(a, Spaces, ' ', false);
    forall i | 0 <= i < |b| && IsRegexSpace(b[i])
      ensures b[i] == ' '
    {
      assert Spaces.Has(b[i]) && b[i] in b;
    }
    forall i | 0 <= i < |b| - 1
      ensures !(IsRegexSpace(b[i]) && IsRegexSpace(b[i + 1]))
    {
      assert !(Spaces.Has(b[i]) && Spaces.Has(b[i + 1]));
    }
  }

  /** A slice of single-spaced text is single-spaced. */
  lemma SliceSingleSpaced(b: string, lo: nat, hi: nat)
    requires lo <= hi <= |b| && SingleSpaced(b)
    ensures SingleSpaced(b[lo..hi])
  {
    var n := b[lo..hi];
    assert forall i :: 0 <= i < |n| ==> n[i] == b[lo + i];
  }

  /** A normalised subject has only plain single spaces and nothing to trim. */
  lemma NormalizedSpacing(s: string)
    ensures SingleSpaced(NormalizeSubject(s))
    ensures var n := NormalizeSubject(s);
      n == [] || (!TrimmedChar(n[0]) && !TrimmedChar(n[|n| - 1]))
  {
    var a := ReplaceRuns(StripReplyPrefix(s), Digits, "#");
    CollapsedIsSingleSpaced(a);
    TrimmedSingleSpaced(ReplaceRuns(a, Spaces, " "));
    TrimSpec(ReplaceRuns(a, Spaces, " "));
  }

  lemma TrimmedSingleSpaced(b: string)
    requires SingleSpaced(b)
    ensures SingleSpaced(Trim(b))
  {
    var t := TrimStart(b);
    SliceSingleSpaced(b, |b| - |t|, |b|);
    SliceSingleSpaced(t, 0, |TrimEnd(t)|);
    assert Trim(b) == TrimEnd(t);
  }

  /**
   * Normalising again changes nothing, unless the result itself starts with a
   * reply prefix (one pass removes one prefix: "Re: Fwd: x" needs two).
   */
  lemma NormalizeIdempotent(s: string)
    requires ReplyPrefixLength(NormalizeSubject(s)) == 0
    ensures NormalizeSubject(NormalizeSubject(s)) == NormalizeSubject(s)
  {
    var n := NormalizeSubject(s);
    NormalizedHasNoDigits(s);
    NormalizedSpacing(s);
    NoRunsUnchanged(n, Digits, "#", false);
    assert [' '] == " ";
    SingleRunsUnchanged(n, Spaces, ' ');
    TrimIdempotent(n);
    TrimSpec(n);
  }

  /**
   * Matching a literal without digits at the start of `a + x`, where `x` starts with
   * a digit, is matching it at the start of `a`.
   */
  lemma LiteralBeforeDigit(a: string, x: string, lit: string)
    requires x != [] && IsDigit(x[0])
    requires forall i :: 0 <= i < |lit| ==> !IsDigit(lit[i])
    ensures (|a + x| >= |lit| && Lower((a + x)[..|lit|]) == lit) <==>
            (|a| >= |lit| && Lower(a[..|lit|]) == lit)
  {
    if |a| >= |lit| {
      assert (a + x)[..|lit|] == a[..|lit|];
    } else if |a + x| >= |lit| {
      assert Lower((a + x)[..|lit|])[|a|] == x[0];
      assert !IsDigit(lit[|a|]);
    }
  }

  /** A reply prefix never reaches a digit, so text from a digit on passes through untouched. */
  lemma StripBeforeDigit(a: string, x: string)
    requires x != [] && IsDigit(x[0])
    ensures StripReplyPrefix(a + x) == StripReplyPrefix(a) + x
  {
    LiteralBeforeDigit(a, x, "re:");
    LiteralBeforeDigit(a, x, "fwd:");
    LiteralBeforeDigit(a, x, "fw:");
    var n := ReplyPrefixLength(a);
    assert ReplyPrefixLength(a + x) == n;
    if n > 0 {
      assert (a + x)[n..] == a[n..] + x;
      DropSpacesBeforeDigit(a[n..], x);
    }
  }

  lemma {:induction false} DropSpacesBeforeDigit(a: string, x: string)
    requires x != [] && IsDigit(x[0])
    ensures DropSpaces(a + x) == DropSpaces(a) + x
  {
    if a == [] {
      assert a + x == x;
      assert !IsRegexSpace(x[0]);
    } else {
      assert (a + x)[1..] == a[1..] + x;
      DropSpacesBeforeDigit(a[1..], x);
    }
  }

  /**
   * Subjects that differ only in one number (a run of digits of any length) have
   * the same normal form, so they fall into the same cluster.
   */
  lemma NumbersDoNotMatter(a: string, d1: string, d2: string, b: string)
    requires d1 != [] && forall i :: 0 <= i < |d1| ==> IsDigit(d1[i])
    requires d2 != [] && forall i :: 0 <= i < |d2| ==> IsDigit(d2[i])
    ensures NormalizeSubject(a + d1 + b) == NormalizeSubject(a + d2 + b)
  {
    DigitRunReplaced(a, d1, b);
    DigitRunReplaced(a, d2, b);
  }

  lemma DigitRunReplaced(a: string, d: string, b: string)
    requires d != [] && forall i :: 0 <= i < |d| ==> IsDigit(d[i])
    ensures var a' := StripReplyPrefix(a);
      ReplaceRuns(StripReplyPrefix(a + d + b), Digits, "#") ==
      Runs(a', Digits, "#", false) + (if EndsInRun(a', Digits, false) then [] else "#") +
      Runs(b, Digits, "#", true)
  {
    var a' := StripReplyPrefix(a);
    assert a + d + b == a + (d + b);
    StripBeforeDigit(a, d + b);
    assert a' + (d + b) == a' + d + b;
    RunsAppend(a' + d, b, Digits, "#", false);
    RunsAppend(a', d, Digits, "#", false);
    var e := EndsInRun(a', Digits, false);
    assert Digits.Has(d[|d| - 1]);
    if e {
      RunInside(d, Digits, "#");
    } else {
      RunCollapses(d, Digits, "#");
    }
  }

  /** No character of `s` is of class `k`. */
  predicate NoneOf(s: string, k: CharClass) {
    forall i :: 0 <= i < |s| ==> !k.Has(s[i])
  }

  /** A run between text outside the class becomes one `rep`. */
  lemma RunThen(a: string, d: string, b: string, k: CharClass, rep: string)
    requires NoneOf(a, k)
    requires d != [] && forall i :: 0 <= i < |d| ==> k.Has(d[i])
    requires b == [] || !k.Has(b[0])
    ensures ReplaceRuns(a + d + b, k, rep) == a + rep + ReplaceRuns(b, k, rep)
  {
    RunsAppend(a + d, b, k, rep, false);
    RunsAppend(a, d, k, rep, false);
    NoRunsUnchanged(a, k, rep, false);
    RunCollapses(d, k, rep);
    assert k.Has(d[|d| - 1]);
    if a != [] {
      assert !k.Has(a[|a| - 1]);
    }
  }

  /** The digit step for the `Order #<n> Confirmed` family. */
  lemma OrderDigits(d: string)
    requires d != [] && forall i :: 0 <= i < |d| ==> IsDigit(d[i])
    ensures ReplaceRuns("Order #" + d + " Confirmed", Digits, "#") == "Order ## Confirmed"
  {
    OrderDigitsPieces(d);
    assert "Order #" + "#" + " Confirmed" == "Order ## Confirmed" by {
      assert "Order #" + "#" == "Order ##";
    }
  }

  lemma OrderDigitsPieces(d: string)
    requires d != [] && forall i :: 0 <= i < |d| ==> IsDigit(d[i])
    ensures ReplaceRuns("Order #" + d + " Confirmed", Digits, "#") == "Order #" + "#" + " Confirmed"
  {
    NoDigitsInOrder();
    RunThen("Order #", d, " Confirmed", Digits, "#");
    NoRunsUnchanged(" Confirmed", Digits, "#", false);
  }

  lemma NoDigitsInOrder()
    ensures NoneOf("Order #", Digits) && NoneOf(" Confirmed", Digits)
  {
  }

  lemma NoSpacesInOrder()
    ensures NoneOf("Order", Spaces) && NoneOf("##", Spaces) && NoneOf("Confirmed", Spaces)
  {
  }

  /** The space and trim steps leave `Order ## Confirmed` as it is. */
  lemma OrderSpaces()
    ensures Trim(ReplaceRuns("Order ## Confirmed", Spaces, " ")) == "Order ## Confirmed"
  {
    OrderSpacesPieces();
    assert "Order" + " " + ("##" + " " + "Confirmed") == "Order ## Confirmed" by {
      assert "##" + " " + "Confirmed" == "## Confirmed";
      assert "Order" + " " == "Order ";
    }
    NothingToTrim("Order ## Confirmed");
  }

  lemma NothingToTrim(n: string)
    requires n != [] && !TrimmedChar(n[0]) && !TrimmedChar(n[|n| - 1])
    ensures Trim(n) == n
  {
    assert TrimStart(n) == n;
  }

  lemma OrderSpacesPieces()
    ensures var n := "Order" + " " + ("##" + " " + "Confirmed");
      ReplaceRuns(n, Spaces, " ") == n
  {
    NoSpacesInOrder();
    RunThen("Order", " ", "##" + " " + "Confirmed", Spaces, " ");
    RunThen("##", " ", "Confirmed", Spaces, " ");
    NoRunsUnchanged("Confirmed", Spaces, " ", false);
  }

  /** A subject starting with a reply prefix, in any case, loses it and the spaces after it. */
  lemma PrefixStripped(pre: string, t: string)
    requires Lower(pre) == "re:" || Lower(pre) == "fwd:" || Lower(pre) == "fw:"
    ensures StripReplyPrefix(pre + t) == DropSpaces(t)
  {
    var s := pre + t;
    assert s[..|pre|] == pre;
    if |s| >= 3 {
      assert Lower(s[..3])[2] == LowerChar(s[2]);
    }
    if |s| >= 4 {
      assert Lower(s[..4])[2] == LowerChar(s[2]);
    }
    assert s[|pre|..] == t;
  }

  /** A subject whose first letter is not `r` or `f`, in either case, has no reply prefix. */
  lemma NoPrefixToStrip(s: string)
    requires s != [] && LowerChar(s[0]) != 'r' && LowerChar(s[0]) != 'f'
    ensures StripReplyPrefix(s) == s
  {
    if |s| >= 3 {
      assert Lower(s[..3])[0] == LowerChar(s[0]);
    }
    if |s| >= 4 {
      assert Lower(s[..4])[0] == LowerChar(s[0]);
    }
  }

  /** `Re: Order #<n> Confirmed` normalises to `Order ## Confirmed`, whatever the number. */
  lemma ReplyOrderNormalized(d: string)
    requires d != [] && forall i :: 0 <= i < |d| ==> IsDigit(d[i])
    ensures NormalizeSubject("Re: Order #" + d + " Confirmed") == "Order ## Confirmed"
  {
    var t := "Order #" + d + " Confirmed";
    assert "Re: Order #" + d + " Confirmed" == "Re:" + ([' '] + t);
    PrefixStripped("Re:", [' '] + t);
    assert DropSpaces([' '] + t) == DropSpaces(t);
    assert DropSpaces(t) == t;
    OrderDigits(d);
    OrderSpaces();
  }

  /** `Order #<n> Confirmed` normalises to `Order ## Confirmed`, whatever the number. */
  lemma PlainOrderNormalized(d: string)
    requires d != [] && forall i :: 0 <= i < |d| ==> IsDigit(d[i])
    ensures NormalizeSubject("Order #" + d + " Confirmed") == "Order ## Confirmed"
  {
    var t := "Order #" + d + " Confirmed";
    assert t[0] == 'O';
    NoPrefixToStrip(t);
    OrderDigits(d);
    OrderSpaces();
  }

  /** `FWD:Order #<n> Confirmed` normalises to `Order ## Confirmed`, whatever the number. */
  lemma ForwardOrderNormalized(d: string)
    requires d != [] && forall i :: 0 <= i < |d| ==> IsDigit(d[i])
    ensures NormalizeSubject("FWD:Order #" + d + " Confirmed") == "Order ## Confirmed"
  {
    var t := "Order #" + d + " Confirmed";
    assert "FWD:Order #" + d + " Confirmed" == "FWD:" + t;
    PrefixStripped("FWD:", t);
    assert DropSpaces(t) == t;
    OrderDigits(d);
    OrderSpaces();
  }
}
