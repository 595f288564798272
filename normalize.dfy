/**
 * `normalize_sid`: reduces any identifier text to its canonical string of
 * ASCII digits by a fixed chain of four substitutions.
 */
module Normalize {
  import opened Strings

  /** Where Python's `$` matches when MULTILINE is off: at the very end of
      `s`, or just before a `"\n"` that is the last character. */
  predicate DollarAt(s: string, i: int) {
    i == |s| || (0 <= i == |s| - 1 && s[i] == '\n')
  }

  /** The pattern `\.0$` matches `s` at position `i`. */
  predicate FloatSuffixAt(s: string, i: int) {
    0 <= i && i + 2 <= |s| && s[i] == '.' && s[i + 1] == '0' && DollarAt(s, i + 2)
  }

  /** The pattern matches in at most one place, so `re.sub` deletes at most one `.0`. */
  lemma FloatSuffixUnique(s: string, i: int, j: int)
    requires FloatSuffixAt(s, i) && FloatSuffixAt(s, j)
    ensures i == j
  {
  }

  /** `re.sub(r"\.0$", "", s)`: deletes the match of `\.0$` if there is one. */
  function DropFloatSuffix(s: string): (r: string)
    ensures forall i :: FloatSuffixAt(s, i) ==> r == s[..i] + s[i + 2..]
    ensures (forall i :: !FloatSuffixAt(s, i)) ==> r == s
  {
    if EndsWith(s, ".0") then s[..|s| - 2]
    else if EndsWith(s, ".0\n") then s[..|s| - 3] + "\n"
    else s
  }

  /** `re.sub(r"\s+", "", s)` */
  function DropSpaces(s: string): (r: string)
    ensures |r| <= |s|
    ensures forall i :: 0 <= i < |r| ==> NotSpace(r[i])
  {
    Keep(s, NotSpace)
  }

  /** `re.sub(r"[^0-9]", "", s)` */
  function Digits(s: string): (r: string)
    ensures |r| <= |s|
    ensures AllDigits(r)
  {
    Keep(s, IsDigit)
  }

  /** `normalize_sid(s)` for a string `s`. */
  function NormalizeSid(s: string): (r: string)
    ensures AllDigits(r)
  {
    Strip(Digits(DropSpaces(DropFloatSuffix(s))))
  }

  /** The whitespace deletion and the final strip are subsumed by the digit
      filter: each leaves a digit string as it is. */
  lemma {:induction false} RedundantSteps(s: string)
    ensures Digits(DropSpaces(s)) == Digits(s)
    ensures Strip(Digits(s)) == Digits(s)
  {
    KeepCompose(s, NotSpace, IsDigit);
    StripNoSpace(Digits(s));
  }

  /** After at most one trailing `.0` is removed, the result is exactly the
      ASCII digits of what remains, in their order. */
  lemma {:induction false} NormalizeSidIsDigits(s: string)
    ensures NormalizeSid(s) == Digits(DropFloatSuffix(s))
    ensures IsSubsequence(NormalizeSid(s), DropFloatSuffix(s))
    ensures forall c :: multiset(NormalizeSid(s))[c] ==
                        if IsDigit(c) then multiset(DropFloatSuffix(s))[c] else 0
  {
    RedundantSteps(DropFloatSuffix(s));
    KeepIsSubsequence(DropFloatSuffix(s), IsDigit);
    KeepCounts(DropFloatSuffix(s), IsDigit);
  }

  /** A digit string is already canonical. */
  lemma {:induction false} NormalizeSidOfDigits(s: string)
    requires AllDigits(s)
    ensures NormalizeSid(s) == s
  {
    assert forall i :: !FloatSuffixAt(s, i);
    NormalizeSidIsDigits(s);
    KeepAll(s, IsDigit);
  }

  lemma {:induction false} NormalizeSidIdempotent(s: string)
    ensures NormalizeSid(NormalizeSid(s)) == NormalizeSid(s)
  {
    NormalizeSidOfDigits(NormalizeSid(s));
  }

  /** The substitution removes a trailing `.0`, and a `.0` before a final
      newline, and nothing else. */
  lemma DropFloatSuffixOf(p: string)
    ensures DropFloatSuffix(p + ".0") == p
    ensures DropFloatSuffix(p + ".0\n") == p + "\n"
  {
    var a := p + ".0";
    assert DropFloatSuffix(a) == p by {
      assert FloatSuffixAt(a, |p|);
      assert a[..|p|] == p;
      assert a[|p| + 2..] == [];
    }
    var b := p + ".0\n";
    assert DropFloatSuffix(b) == p + "\n" by {
      assert FloatSuffixAt(b, |p|);
      assert b[..|p|] == p;
      assert b[|p| + 2..] == "\n";
    }
  }

  /** A trailing `.0`, and a `.0` before a final newline, are both removed
      before the digits are taken: `"12.0\n"` becomes `"12"`, not `"120"`. */
  lemma {:induction false} NormalizeSidFloatSuffix(p: string)
    ensures NormalizeSid(p + ".0") == Digits(p)
    ensures NormalizeSid(p + ".0\n") == Digits(p)
  {
    DropFloatSuffixOf(p);
    NormalizeSidIsDigits(p + ".0");
    NormalizeSidIsDigits(p + ".0\n");
    KeepAppend(p, "\n", IsDigit);
    assert Digits("\n") == [];
    assert Digits(p) + [] == Digits(p);
  }

  /** The value pandas gives a missing cell after `astype(str)` has no digits;
      the literal is a parameter fixed by a `requires`, so the proof
      reasons about one variable of known value rather than about the
      literal written out in every term, which keeps it small. */
  lemma NormalizeSidOfNan(s: string)
    requires s == "nan"
    ensures NormalizeSid(s) == ""
  {
    assert s[|s| - 1] == 'n';
    NormalizeSidNoFloatSuffix(s);
    assert NoDigits(s);
    DigitsOfNonDigits(s);
  }

  lemma {:induction false} DigitsOfNonDigits(s: string)
    requires forall i :: 0 <= i < |s| ==> !IsDigit(s[i])
    ensures Digits(s) == []
  {
    if s != [] {
      DigitsOfNonDigits(s[1..]);
    }
  }

  predicate NoDigits(s: string) { forall i :: 0 <= i < |s| ==> !IsDigit(s[i]) }

  /** Appending a run without digits, or a run of digits, to a string. */
  lemma DigitsExtend(a: string, x: string, d: string)
    requires NoDigits(x) && AllDigits(d)
    ensures Digits(a + x + d) == Digits(a) + d
  {
    KeepAppend(a, x, IsDigit);
    KeepAppend(a + x, d, IsDigit);
    DigitsOfNonDigits(x);
    KeepAll(d, IsDigit);
    assert Digits(a) + [] == Digits(a);
  }

  /** Putting a run without digits and a run of digits in front of a string. */
  lemma DigitsPrepend(x: string, d: string, t: string)
    requires NoDigits(x) && AllDigits(d)
    ensures Digits(x + d + t) == d + Digits(t)
  {
    KeepAppend(x + d, t, IsDigit);
    DigitsExtend([], x, d);
    assert [] + x + d == x + d;
  }

  /** The text of `runs`, each a run without digits followed by a run of
      digits, written one after the other. */
  function Joined(runs: seq<(string, string)>): string {
    if runs == [] then [] else runs[0].0 + runs[0].1 + Joined(runs[1..])
  }

  /** The digit runs of `runs` alone, joined. */
  function DigitRuns(runs: seq<(string, string)>): string {
    if runs == [] then [] else runs[0].1 + DigitRuns(runs[1..])
  }

  /** Unfolds `Joined` and `DigitRuns` at the first run. */
  lemma JoinedCons(x: string, d: string, rest: seq<(string, string)>)
    ensures Joined([(x, d)] + rest) == x + d + Joined(rest)
    ensures DigitRuns([(x, d)] + rest) == d + DigitRuns(rest)
  {
    assert ([(x, d)] + rest)[1..] == rest;
  }

  predicate WellSeparated(runs: seq<(string, string)>) {
    forall i :: 0 <= i < |runs| ==> NoDigits(runs[i].0) && AllDigits(runs[i].1)
  }

  /** The digits of digit runs separated by runs without digits are the runs, joined. */
  lemma {:induction false} DigitsOfRuns(runs: seq<(string, string)>)
    requires WellSeparated(runs)
    ensures Digits(Joined(runs)) == DigitRuns(runs)
  {
    if runs != [] {
      var x, d, rest := runs[0].0, runs[0].1, runs[1..];
      assert WellSeparated(rest) by {
        forall i | 0 <= i < |rest| ensures NoDigits(rest[i].0) && AllDigits(rest[i].1) {
          assert rest[i] == runs[i + 1];
        }
      }
      DigitsOfRuns(rest);
      DigitsPrepend(x, d, Joined(rest));
    }
  }

  /** Input that does not end in `0` or a newline has no `.0` to remove. */
  lemma NormalizeSidNoFloatSuffix(s: string)
    requires s == [] || (s[|s| - 1] != '0' && s[|s| - 1] != '\n')
    ensures NormalizeSid(s) == Digits(s)
  {
    NormalizeSidIsDigits(s);
  }

  /** Digit runs separated by runs without digits normalize to the runs,
      joined, when the text does not end in `0` or a newline. */
  lemma NormalizeSidOfRuns(s: string, runs: seq<(string, string)>, tail: string)
    requires s == Joined(runs) + tail
    requires s == [] || (s[|s| - 1] != '0' && s[|s| - 1] != '\n')
    requires WellSeparated(runs) && NoDigits(tail)
    ensures NormalizeSid(s) == DigitRuns(runs)
  {
    NormalizeSidNoFloatSuffix(s);
    DigitsOfRuns(runs);
    DigitsExtend(Joined(runs), tail, []);
    assert Joined(runs) + tail + [] == s;
    assert Digits(Joined(runs)) + [] == Digits(Joined(runs));
  }

  /** A digit string with a trailing `.0` or `.0` and a final newline. */
  lemma NormalizeSidOfFloatDigits(p: string)
    requires AllDigits(p)
    ensures NormalizeSid(p + ".0") == p && NormalizeSid(p + ".0\n") == p
  {
    NormalizeSidFloatSuffix(p);
    KeepAll(p, IsDigit);
  }
}

/** Identifiers as they arrive from spreadsheet cells and the query box, worked through the lemmas above. */
module NormalizeExamples {
  import opened Strings
  import opened Normalize

  lemma ExampleFloatCell()
    ensures NormalizeSid("2023320033.0") == "2023320033"
  {
    assert "2023320033.0" == "2023320033" + ".0";
    NormalizeSidOfFloatDigits("2023320033");
  }

  /** Python's `$` also matches before a final newline. */
  lemma ExampleFloatCellNewline()
    ensures NormalizeSid("12.0\n") == "12"
  {
    assert "12.0\n" == "12" + ".0\n";
    NormalizeSidOfFloatDigits("12");
  }

  lemma ExampleSpaced()
    ensures NormalizeSid(" 2023 3200 33 ") == "2023320033"
  {
    var r3 := [(" ", "33")];
    var r2 := [(" ", "3200")] + r3;
    var runs := [(" ", "2023")] + r2;
    JoinedCons(" ", "33", []);
    JoinedCons(" ", "3200", r3);
    JoinedCons(" ", "2023", r2);
    assert Joined(runs) + " " == " 2023 3200 33 " by {}
    assert DigitRuns(runs) == "2023320033" by {}
    assert NoDigits(" ") && AllDigits("2023") && AllDigits("3200") && AllDigits("33") by {}
    assert WellSeparated(runs);
    NormalizeSidOfRuns(" 2023 3200 33 ", runs, " ");
  }

  lemma ExamplePunctuation()
    ensures NormalizeSid("abc-123") == "123"
  {
    var runs := [("abc-", "123")];
    JoinedCons("abc-", "123", []);
    assert Joined(runs) + "" == "abc-123" by {}
    assert DigitRuns(runs) == "123" by {}
    assert NoDigits("abc-") && NoDigits("") && AllDigits("123") by {}
    assert WellSeparated(runs);
    NormalizeSidOfRuns("abc-123", runs, "");
  }

  lemma ExampleEmpty()
    ensures NormalizeSid("") == ""
  {
    NormalizeSidNoFloatSuffix("");
  }

  lemma ExampleDashed()
    ensures NormalizeSid(" 2023-320033 ") == "2023320033"
  {
    var r2 := [("-", "320033")];
    var runs := [(" ", "2023")] + r2;
    JoinedCons("-", "320033", []);
    JoinedCons(" ", "2023", r2);
    assert Joined(runs) + " " == " 2023-320033 " by {}
    assert DigitRuns(runs) == "2023320033" by {}
    assert NoDigits(" ") && NoDigits("-") && AllDigits("2023") && AllDigits("320033") by {}
    assert WellSeparated(runs);
    NormalizeSidOfRuns(" 2023-320033 ", runs, " ");
  }
}
