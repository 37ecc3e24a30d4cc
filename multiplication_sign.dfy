/**
 * The multiplication-sign processor: a number, a `*`, `x` or `X` (each
 * optionally surrounded by one space) and a second number become the two
 * numbers joined by `×`. A unit `m` written directly after the second number
 * is separated from it by a space, so that `2x50m` becomes `2×50 m`.
 */
module MultiplicationSign {
  import opened Wrappers
  import opened Text
  import opened Rewriting

  predicate IsSign(c: char) { c == '*' || c == 'x' || c == 'X' }

  /** The position after an optional space at `i`. */
  function SkipSpace(s: string, i: nat): (j: nat)
    requires i <= |s|
    ensures i <= j <= |s|
    ensures j == i || s[i] == ' '
  {
    if i < |s| && s[i] == ' ' then i + 1 else i
  }

  /** `s[..n]` is a number; a sign and a second number may follow it. */
  function Product(s: string, n: nat): Option<Step>
    requires n <= |s|
  {
    var i := SkipSpace(s, n);
    if i < |s| && IsSign(s[i]) then Second(s, n, SkipSpace(s, i + 1)) else None
  }

  /** Is the number ending at `j` directly followed by the unit `m`? */
  predicate Metres(s: string, j: nat)
  {
    j < |s| && s[j] == 'm' && WordEnds(s, j + 1)
  }

  /** The second number of a product starts at `k`. */
  function Second(s: string, n: nat, k: nat): Option<Step>
    requires n <= k <= |s|
  {
    var j := k + DigitRun(s[k..]);
    if j == k then None
    else if Metres(s, j) then Some(Step(j + 1, s[..n] + "×" + s[k..j] + " m"))
    else Some(Step(j, s[..n] + "×" + s[k..j]))
  }

  function Rule(s: string): Option<Step>
  {
    if |s| > 0 && IsDigit(s[0]) then Product(s, DigitRun(s)) else None
  }

  /** The processed text. */
  function Modify(s: string): string
  {
    Rewrite(Rule, s)
  }

  // ---------------------------------------------------------------------
  // The processor keeps every digit of the text, in order.

  lemma {:induction false} NoDigits(s: string)
    requires forall k :: 0 <= k < |s| ==> !IsDigit(s[k])
    ensures Digits(s) == ""
    decreases |s|
  {
    if |s| > 0 {
      NoDigits(s[1..]);
    }
  }

  lemma DigitsJoin(x: string, mid: string, y: string)
    requires Digits(mid) == ""
    ensures Digits(x + mid + y) == Digits(x) + Digits(y)
  {
    DigitsAppend(x + mid, y);
    DigitsAppend(x, mid);
  }

  /** Between the two numbers of a product there are only spaces and the sign. */
  lemma SignHasNoDigits(s: string, n: nat, k: nat)
    requires n <= |s|
    requires SkipSpace(s, n) < |s| && IsSign(s[SkipSpace(s, n)])
    requires k == SkipSpace(s, SkipSpace(s, n) + 1)
    ensures n <= k <= |s| && Digits(s[n..k]) == ""
  {
    NoDigits(s[n..k]);
  }

  lemma SecondKeepsDigits(s: string, n: nat, k: nat)
    requires n <= k <= |s| && Digits(s[n..k]) == "" && Second(s, n, k).Some?
    ensures Second(s, n, k).value.len <= |s|
    ensures Digits(Second(s, n, k).value.out) == Digits(s[..Second(s, n, k).value.len])
  {
    var j := k + DigitRun(s[k..]);
    var out := s[..n] + "×" + s[k..j];
    ProductDigits(s, n, k, j);
    if Metres(s, j) {
      assert Second(s, n, k) == Some(Step(j + 1, out + " m"));
      UnitDigits(s, j, out);
    } else {
      assert Second(s, n, k) == Some(Step(j, out));
    }
  }

  /** The product written with `×` has the digits of the text it replaces. */
  lemma ProductDigits(s: string, n: nat, k: nat, j: nat)
    requires n <= k <= j <= |s| && Digits(s[n..k]) == ""
    ensures Digits(s[..n] + "×" + s[k..j]) == Digits(s[..j])
  {
    assert s[..j] == s[..n] + s[n..k] + s[k..j];
    DigitsJoin(s[..n], s[n..k], s[k..j]);
    NoDigits("×");
    DigitsJoin(s[..n], "×", s[k..j]);
  }

  /** The unit adds no digit. */
  lemma UnitDigits(s: string, j: nat, out: string)
    requires j < |s| && s[j] == 'm' && Digits(out) == Digits(s[..j])
    ensures Digits(out + " m") == Digits(s[..j + 1])
  {
    assert s[..j + 1] == s[..j] + "m";
    NoDigits("m");
    DigitsAppend(s[..j], "m");
    NoDigits(" m");
    DigitsAppend(out, " m");
  }

  lemma ProductKeepsDigits(s: string, n: nat)
    requires n <= |s| && Product(s, n).Some?
    ensures Product(s, n).value.len <= |s|
    ensures Digits(Product(s, n).value.out) == Digits(s[..Product(s, n).value.len])
  {
    var k := SkipSpace(s, SkipSpace(s, n) + 1);
    SignHasNoDigits(s, n, k);
    SecondKeepsDigits(s, n, k);
  }

  lemma StepKeepsDigits(s: string)
    requires |s| > 0
    ensures Digits(StepOut(Rule, s)) == Digits(s[..StepLen(Rule, s)])
  {
    if Fires(Rule, s) {
      ProductKeepsDigits(s, DigitRun(s));
    } else {
      assert s[..1] == [s[0]];
    }
  }

  lemma {:induction false} DigitsKept(s: string)
    ensures Digits(Modify(s)) == Digits(s)
    decreases |s|
  {
    if |s| == 0 {
      RewriteEmpty(Rule);
    } else {
      RewriteStep(Rule, s);
      var n := StepLen(Rule, s);
      DigitsKept(s[n..]);
      StepKeepsDigits(s);
      DigitsAppend(StepOut(Rule, s), Modify(s[n..]));
      assert s == s[..n] + s[n..];
      DigitsAppend(s[..n], s[n..]);
    }
  }

  // ---------------------------------------------------------------------
  // One product, and text the processor leaves alone.

  /** A character that ends a number without leading to a product. */
  predicate Halts(c: char)
  {
    !IsDigit(c) && c != ' ' && !IsSign(c)
  }

  /** A number at the start of the text, and what follows it. */
  lemma NumberFirst(d: string, t: string, s: string)
    requires AllDigits(d) && (|t| == 0 || !IsDigit(t[0]))
    requires s == d + t
    ensures DigitRun(s) == |d| && s[..|d|] == d && s[|d|..] == t
  {
    DigitRunOfDigits(d, t);
  }

  /** An optional space at `i`, before text that does not start with one. */
  lemma GapSkipped(s: string, i: nat, gap: string, t: string)
    requires i <= |s| && s[i..] == gap + t
    requires gap == "" || gap == " "
    requires |t| > 0 && t[0] != ' '
    ensures SkipSpace(s, i) == i + |gap| && s[i + |gap|..] == t
  {
    assert s[i] == (gap + t)[0];
    assert s[i + |gap|..] == (gap + t)[|gap|..];
  }

  lemma SecondAt(s: string, n: nat, k: nat, d2: string, rest: string)
    requires n <= k <= |s| && s[k..] == d2 + rest
    requires |d2| > 0 && AllDigits(d2) && (|rest| == 0 || !IsDigit(rest[0]))
    ensures Second(s, n, k) == if |rest| > 0 && rest[0] == 'm' && WordEnds(rest, 1)
                               then Some(Step(k + |d2| + 1, s[..n] + "×" + d2 + " m"))
                               else Some(Step(k + |d2|, s[..n] + "×" + d2))
  {
    DigitRunOfDigits(d2, rest);
    var j := k + |d2|;
    assert s[k..j] == (d2 + rest)[..|d2|];
    assert s[j..] == rest;
    if j + 1 < |s| {
      assert s[j + 1] == rest[1];
    }
  }

  lemma SignSkipped(s: string, i: nat, sign: char, u: string)
    requires i <= |s| && s[i..] == [sign] + u
    ensures i < |s| && s[i] == sign && s[i + 1..] == u
  {
    assert s[i] == ([sign] + u)[0];
    assert s[i + 1..] == ([sign] + u)[1..];
  }

  /** The rule at a number followed by a sign and a second number, from where these sit. */
  lemma RuleFires(s: string, d1: string, k: nat, d2: string, rest: string)
    requires 0 < |d1| && DigitRun(s) == |d1| && s[..|d1|] == d1
    requires SkipSpace(s, |d1|) < |s| && IsSign(s[SkipSpace(s, |d1|)]) && k == SkipSpace(s, SkipSpace(s, |d1|) + 1)
    requires s[k..] == d2 + rest
    requires |d2| > 0 && AllDigits(d2) && (|rest| == 0 || !IsDigit(rest[0]))
    ensures Rule(s) == if |rest| > 0 && rest[0] == 'm' && WordEnds(rest, 1)
                       then Some(Step(k + |d2| + 1, d1 + "×" + d2 + " m"))
                       else Some(Step(k + |d2|, d1 + "×" + d2))
  {
    SecondAt(s, |d1|, k, d2, rest);
  }

  /** Where the parts of a written product sit in the text. */
  lemma ProductLayout(d1: string, gap1: string, sign: char, gap2: string, d2: string, rest: string, s: string)
    requires |d1| > 0 && AllDigits(d1) && |d2| > 0 && AllDigits(d2) && IsSign(sign)
    requires gap1 == "" || gap1 == " "
    requires gap2 == "" || gap2 == " "
    requires s == d1 + (gap1 + ([sign] + (gap2 + (d2 + rest))))
    ensures DigitRun(s) == |d1| && s[..|d1|] == d1
    ensures SkipSpace(s, |d1|) == |d1| + |gap1| < |s| && s[|d1| + |gap1|] == sign
    ensures SkipSpace(s, |d1| + |gap1| + 1) == |d1| + |gap1| + 1 + |gap2|
    ensures s[|d1| + |gap1| + 1 + |gap2|..] == d2 + rest
  {
    var u := gap2 + (d2 + rest);
    var t := [sign] + u;
    NumberFirst(d1, gap1 + t, s);
    var i := |d1| + |gap1|;
    GapSkipped(s, |d1|, gap1, t);
    SignSkipped(s, i, sign, u);
    GapSkipped(s, i + 1, gap2, d2 + rest);
  }

  lemma RuleAtProduct(d1: string, gap1: string, sign: char, gap2: string, d2: string, rest: string, s: string)
    requires |d1| > 0 && AllDigits(d1) && |d2| > 0 && AllDigits(d2) && IsSign(sign)
    requires gap1 == "" || gap1 == " "
    requires gap2 == "" || gap2 == " "
    requires |rest| == 0 || !IsDigit(rest[0])
    requires s == d1 + (gap1 + ([sign] + (gap2 + (d2 + rest))))
    ensures var n := |d1| + |gap1| + 1 + |gap2| + |d2|;
            Rule(s) == if |rest| > 0 && rest[0] == 'm' && WordEnds(rest, 1)
                       then Some(Step(n + 1, d1 + "×" + d2 + " m"))
                       else Some(Step(n, d1 + "×" + d2))
  {
    ProductLayout(d1, gap1, sign, gap2, d2, rest, s);
    RuleFires(s, d1, |d1| + |gap1| + 1 + |gap2|, d2, rest);
  }

  /** A written product followed by more text, regrouped to the right. */
  lemma Spread(d1: string, gap1: string, sign: char, gap2: string, d2: string, rest: string)
    ensures d1 + gap1 + [sign] + gap2 + d2 + rest == d1 + (gap1 + ([sign] + (gap2 + (d2 + rest))))
  {
    Lead(d1 + gap1 + [sign] + gap2, d2, rest);
    Lead(d1 + gap1 + [sign], gap2, d2 + rest);
    Lead(d1 + gap1, [sign], gap2 + (d2 + rest));
    Lead(d1, gap1, [sign] + (gap2 + (d2 + rest)));
  }

  /** A product followed by something other than the unit `m`. */
  lemma Times(d1: string, gap1: string, sign: char, gap2: string, d2: string, p: string, rest: string)
    requires |d1| > 0 && AllDigits(d1) && |d2| > 0 && AllDigits(d2) && IsSign(sign)
    requires gap1 == "" || gap1 == " "
    requires gap2 == "" || gap2 == " "
    requires p == d1 + gap1 + [sign] + gap2 + d2
    requires |rest| == 0 || (!IsDigit(rest[0]) && rest[0] != 'm')
    ensures Modify(p + rest) == d1 + "×" + d2 + Modify(rest)
  {
    Spread(d1, gap1, sign, gap2, d2, rest);
    RuleAtProduct(d1, gap1, sign, gap2, d2, rest, p + rest);
    assert Rule(p + rest) == Some(Step(|p|, d1 + "×" + d2));
    RewriteFire(Rule, p, rest, d1 + "×" + d2);
  }

  /** The unit `m` ends a word when what follows it does not go on with the word. */
  lemma UnitThen(rest: string)
    requires |rest| == 0 || !IsWordChar(rest[0])
    ensures var u := "m" + rest; 0 < |u| && u[0] == 'm' && !IsDigit(u[0]) && WordEnds(u, 1)
  {
    assert |rest| == 0 || ("m" + rest)[1] == rest[0];
  }

  /** A product whose second number is directly followed by the unit `m`. */
  lemma TimesMetres(d1: string, gap1: string, sign: char, gap2: string, d2: string, p: string, rest: string)
    requires |d1| > 0 && AllDigits(d1) && |d2| > 0 && AllDigits(d2) && IsSign(sign)
    requires gap1 == "" || gap1 == " "
    requires gap2 == "" || gap2 == " "
    requires p == d1 + gap1 + [sign] + gap2 + d2 + "m"
    requires |rest| == 0 || !IsWordChar(rest[0])
    ensures Modify(p + rest) == d1 + "×" + d2 + " m" + Modify(rest)
  {
    var q := d1 + gap1 + [sign] + gap2 + d2;
    Lead(q, "m", rest);
    Spread(d1, gap1, sign, gap2, d2, "m" + rest);
    UnitThen(rest);
    RuleAtProduct(d1, gap1, sign, gap2, d2, "m" + rest, p + rest);
    assert |p| == |d1| + |gap1| + 1 + |gap2| + |d2| + 1;
    assert Rule(p + rest) == Some(Step(|p|, d1 + "×" + d2 + " m"));
    RewriteFire(Rule, p, rest, d1 + "×" + d2 + " m");
  }

  /** Every number in `p` ends on a character that cannot lead to a product. */
  predicate Quiet(p: string)
  {
    forall k :: 0 <= k < |p| ==> Ends(p, k)
  }

  /** A number ending at `k` is followed by nothing or by a character that halts it. */
  predicate Ends(p: string, k: int)
    requires 0 <= k < |p|
  {
    IsDigit(p[k]) ==> k + 1 == |p| || IsDigit(p[k + 1]) || Halts(p[k + 1])
  }

  lemma QuietDeclines(p: string, rest: string, i: nat)
    requires Quiet(p) && i < |p|
    requires |rest| == 0 || (|p| > 0 && !IsDigit(p[|p| - 1]))
    ensures Rule((p + rest)[i..]).None?
  {
    var s := (p + rest)[i..];
    if IsDigit(s[0]) {
      DigitRunStops(s);
      var e := DigitRun(s);
      if i + e >= |p| {
        assert IsDigit(p[|p| - 1]) by { assert s[|p| - 1 - i] == p[|p| - 1]; }
        assert |rest| == 0;
        assert e == |s|;
      } else {
        assert s[e] == p[i + e];
        assert IsDigit(p[i + e - 1]) by { assert s[e - 1] == p[i + e - 1]; }
        assert Ends(p, i + e - 1);
        assert Halts(s[e]);
      }
    }
  }

  /** Text where no product starts is copied as it is. */
  lemma QuietThen(p: string, rest: string)
    requires Quiet(p)
    requires |rest| == 0 || (|p| > 0 && !IsDigit(p[|p| - 1]))
    ensures Modify(p + rest) == p + Modify(rest)
  {
    forall i | 0 <= i < |p| ensures Rule((p + rest)[i..]).None? {
      QuietDeclines(p, rest, i);
    }
    RewriteSkip(Rule, p, rest);
  }

  lemma QuietUnchanged(p: string)
    requires Quiet(p)
    ensures Modify(p) == p
  {
    QuietThen(p, "");
    assert p + "" == p;
    RewriteEmpty(Rule);
  }

  // ---------------------------------------------------------------------
  // Test vectors.

  lemma ThreeRopesPieces()
    ensures Modify("2*50m" + (", " + ("2x50" + (" m, " + ("2X50" + " m")))))
         == "2×50 m" + (", " + ("2×50" + (" m, " + ("2×50" + " m"))))
  {
    var r1 := "2x50" + (" m, " + ("2X50" + " m"));
    ThreeRopesTail();
    var r0 := ", " + r1;
    QuietThen(", ", r1);
    TimesMetres("2", "", '*', "", "50", "2*50m", r0);
  }

  lemma ThreeRopesTail()
    ensures Modify("2x50" + (" m, " + ("2X50" + " m"))) == "2×50" + (" m, " + ("2×50" + " m"))
  {
    var r4 := " m";
    QuietThen(r4, "");
    RewriteEmpty(Rule);
    assert r4 + "" == r4;
    var r3 := "2X50" + r4;
    Times("2", "", 'X', "", "50", "2X50", r4);
    var r2 := " m, " + r3;
    QuietThen(" m, ", r3);
    Times("2", "", 'x', "", "50", "2x50", r2);
  }

  lemma ThreeRopesSpelled()
    ensures "2*50m" + (", " + ("2x50" + (" m, " + ("2X50" + " m")))) == "2*50m, 2x50 m, 2X50 m"
    ensures "2×50 m" + (", " + ("2×50" + (" m, " + ("2×50" + " m")))) == "2×50 m, 2×50 m, 2×50 m"
  {}

  lemma ThreeRopes()
    ensures Modify("2*50m, 2x50 m, 2X50 m") == "2×50 m, 2×50 m, 2×50 m"
  {
    ThreeRopesPieces();
    ThreeRopesSpelled();
  }

  lemma LongRopePieces()
    ensures Modify("Prendre une corde 10-15m ou " + ("2x50m" + (" ou " + "2X50m")))
         == "Prendre une corde 10-15m ou " + ("2×50 m" + (" ou " + ("2×50 m" + "")))
  {
    LongRopeTail();
    SentenceQuiet();
    QuietThen("Prendre une corde 10-15m ou ", "2x50m" + (" ou " + "2X50m"));
  }

  lemma LongRopeTail()
    ensures Modify("2x50m" + (" ou " + "2X50m")) == "2×50 m" + (" ou " + ("2×50 m" + ""))
  {
    RewriteEmpty(Rule);
    assert "2X50m" + "" == "2X50m";
    TimesMetres("2", "", 'X', "", "50", "2X50m", "");
    var r1 := " ou " + "2X50m";
    QuietThen(" ou ", "2X50m");
    TimesMetres("2", "", 'x', "", "50", "2x50m", r1);
  }

  /** The length `10-15m` is no product. */
  lemma SentenceQuiet()
    ensures Quiet("Prendre une corde 10-15m ou ")
  {
    var a := "Prendre une corde ";
    var b := "10-15m ou ";
    assert Quiet(a) by {
      forall k | 0 <= k < |a| ensures !IsDigit(a[k]) {}
    }
    assert Quiet(b) by {
      forall k | 0 <= k < |b| ensures Ends(b, k) {
        if IsDigit(b[k]) {
          assert k == 0 || k == 1 || k == 3 || k == 4;
        }
      }
    }
    QuietAppend(a, b);
    assert a + b == "Prendre une corde 10-15m ou ";
  }

  /** Quiet texts stay quiet side by side when the first does not end in a digit. */
  lemma QuietAppend(a: string, b: string)
    requires Quiet(a) && Quiet(b)
    requires |a| == 0 || !IsDigit(a[|a| - 1])
    ensures Quiet(a + b)
  {
    var s := a + b;
    forall k | 0 <= k < |s| ensures Ends(s, k) {
      if k < |a| {
        assert s[k] == a[k];
        if k + 1 < |a| {
          assert Ends(a, k);
          assert s[k + 1] == a[k + 1];
        }
      } else {
        assert s[k] == b[k - |a|];
        assert Ends(b, k - |a|);
        if k + 1 < |s| {
          assert s[k + 1] == b[k + 1 - |a|];
        }
      }
    }
  }

  /** The products of a longer sentence; the length `10-15m` is no product. */
  lemma LongRopeSpelled()
    ensures "Prendre une corde 10-15m ou " + ("2x50m" + (" ou " + "2X50m")) == "Prendre une corde 10-15m ou 2x50m ou 2X50m"
    ensures "Prendre une corde 10-15m ou " + ("2×50 m" + (" ou " + ("2×50 m" + ""))) == "Prendre une corde 10-15m ou 2×50 m ou 2×50 m"
  {}

  lemma LongRope()
    ensures Modify("Prendre une corde 10-15m ou 2x50m ou 2X50m") == "Prendre une corde 10-15m ou 2×50 m ou 2×50 m"
  {
    LongRopePieces();
    LongRopeSpelled();
  }

  /**
   * The scan resumes after the second number of a product, so that number
   * cannot start the next product: a second pass joins it. The processor is
   * not idempotent.
   */
  lemma NotIdempotent()
    ensures Modify("2x3x4") == "2×3x4" && Modify("2×3x4") == "2×3×4"
  {
    Times("2", "", 'x', "", "3", "2x3", "x4");
    QuietUnchanged("x4");
    assert "2x3" + "x4" == "2x3x4" && "2" + "×" + "3" + "x4" == "2×3x4";
    QuietThen("2×", "3x4");
    Times("3", "", 'x', "", "4", "3x4", "");
    RewriteEmpty(Rule);
    assert "2×" + "3x4" == "2×3x4" && "3x4" + "" == "3x4" && "2×" + ("3" + "×" + "4" + "") == "2×3×4";
  }
}
