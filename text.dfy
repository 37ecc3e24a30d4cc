/**
 * Character classes shared by the text processors. Python's `\d` and `\w`
 * are modelled on the characters the processors meet: ASCII digits, ASCII
 * letters, `_` and every character from U+00C0 on (accented letters and the
 * like) except the two Latin-1 operators `×` and `÷`.
 */
module Text {
  predicate IsDigit(c: char) { '0' <= c <= '9' }

  predicate IsLetter(c: char)
  {
    'a' <= c <= 'z' || 'A' <= c <= 'Z' || (c >= 'À' && c != '×' && c != '÷')
  }

  predicate IsWordChar(c: char) { IsDigit(c) || IsLetter(c) || c == '_' }

  /** Blank characters inside a line (never the line break). */
  predicate IsBlank(c: char) { c == ' ' || c == '\t' }

  predicate AllDigits(s: string) { forall k :: 0 <= k < |s| ==> IsDigit(s[k]) }

  /** The text without any character `c`. */
  function Without(s: string, c: char): (r: string)
    ensures |r| <= |s|
    ensures forall k :: 0 <= k < |r| ==> r[k] != c
  {
    if |s| == 0 then "" else (if s[0] == c then "" else [s[0]]) + Without(s[1..], c)
  }

  lemma {:induction false} WithoutAppend(a: string, b: string, c: char)
    ensures Without(a + b, c) == Without(a, c) + Without(b, c)
    decreases |a|
  {
    if |a| == 0 {
      assert a + b == b;
    } else {
      assert (a + b)[1..] == a[1..] + b;
      WithoutAppend(a[1..], b, c);
    }
  }

  /** Length of the longest prefix of `s` made of digits. */
  function DigitRun(s: string): (n: nat)
    ensures n <= |s|
  {
    if |s| > 0 && IsDigit(s[0]) then 1 + DigitRun(s[1..]) else 0
  }

  /** The run is made of digits and stops at the first character that is not one. */
  lemma {:induction false} DigitRunStops(s: string)
    ensures forall k :: 0 <= k < DigitRun(s) ==> IsDigit(s[k])
    ensures DigitRun(s) == |s| || !IsDigit(s[DigitRun(s)])
    decreases |s|
  {
    if |s| > 0 && IsDigit(s[0]) {
      DigitRunStops(s[1..]);
    }
  }

  lemma {:induction false} DigitRunOfDigits(d: string, rest: string)
    requires AllDigits(d)
    requires |rest| == 0 || !IsDigit(rest[0])
    ensures DigitRun(d + rest) == |d|
    decreases |d|
  {
    if |d| == 0 {
      assert d + rest == rest;
    } else {
      assert (d + rest)[1..] == d[1..] + rest;
      DigitRunOfDigits(d[1..], rest);
    }
  }

  /** A run of digits is not lengthened by text that does not start with a digit. */
  lemma {:induction false} DigitRunAppend(u: string, r: string)
    requires DigitRun(u) < |u| || |r| == 0 || !IsDigit(r[0])
    ensures DigitRun(u + r) == DigitRun(u)
    decreases |u|
  {
    if |u| == 0 {
      assert u + r == r;
    } else {
      assert (u + r)[1..] == u[1..] + r;
      if IsDigit(u[0]) {
        DigitRunAppend(u[1..], r);
      }
    }
  }

  /** The digits of the text, in order. */
  function Digits(s: string): (r: string)
    ensures |r| <= |s| && AllDigits(r)
  {
    if |s| == 0 then "" else (if IsDigit(s[0]) then [s[0]] else "") + Digits(s[1..])
  }

  lemma {:induction false} DigitsAppend(a: string, b: string)
    ensures Digits(a + b) == Digits(a) + Digits(b)
    decreases |a|
  {
    if |a| == 0 {
      assert a + b == b;
    } else {
      var head := if IsDigit(a[0]) then [a[0]] else "";
      assert (a + b)[1..] == a[1..] + b;
      assert Digits(a + b) == head + Digits(a[1..] + b);
      DigitsAppend(a[1..], b);
      assert head + (Digits(a[1..]) + Digits(b)) == (head + Digits(a[1..])) + Digits(b);
    }
  }

  /** Does a word end at position `n` of `s`? */
  predicate WordEnds(s: string, n: nat)
  {
    n <= |s| && (n == |s| || !IsWordChar(s[n]))
  }

  /** Removing spaces removes no digit. */
  lemma {:induction false} DigitsWithoutSpaces(s: string)
    ensures Digits(Without(s, ' ')) == Digits(s)
    decreases |s|
  {
    if |s| > 0 {
      DigitsWithoutSpaces(s[1..]);
      var head := if s[0] == ' ' then "" else [s[0]];
      DigitsAppend(head, Without(s[1..], ' '));
    }
  }

  /** No character of `s` is in `cs`. */
  predicate Avoids(s: string, cs: set<char>)
  {
    forall k :: 0 <= k < |s| ==> s[k] !in cs
  }

  /** Length of the longest prefix of `s` free of the characters `stops`. */
  function Before(s: string, stops: set<char>): (n: nat)
    ensures n <= |s|
    ensures n == |s| || s[n] in stops
  {
    if |s| == 0 || s[0] in stops then 0 else 1 + Before(s[1..], stops)
  }

  lemma {:induction false} BeforeAt(p: string, stops: set<char>, rest: string)
    requires Avoids(p, stops)
    requires |rest| > 0 && rest[0] in stops
    ensures Before(p + rest, stops) == |p|
    decreases |p|
  {
    if |p| == 0 {
      assert p + rest == rest;
    } else {
      assert (p + rest)[1..] == p[1..] + rest;
      BeforeAt(p[1..], stops, rest);
    }
  }

  lemma {:induction false} BeforeAvoids(s: string, stops: set<char>)
    ensures Avoids(s[..Before(s, stops)], stops)
    decreases |s|
  {
    if 0 < |s| && s[0] !in stops {
      BeforeAvoids(s[1..], stops);
      assert s[..Before(s, stops)] == [s[0]] + s[1..][..Before(s[1..], stops)];
    }
  }

  lemma {:induction false} BeforeAll(p: string, stops: set<char>)
    requires Avoids(p, stops)
    ensures Before(p, stops) == |p|
    decreases |p|
  {
    if 0 < |p| {
      BeforeAll(p[1..], stops);
    }
  }

  lemma AvoidsAppend(a: string, b: string, cs: set<char>)
    requires Avoids(a, cs) && Avoids(b, cs)
    ensures Avoids(a + b, cs)
  {
    forall k | 0 <= k < |a + b| ensures (a + b)[k] !in cs {
      if k >= |a| {
        assert (a + b)[k] == b[k - |a|];
      }
    }
  }

  /** Concatenation regrouped to the right. */
  lemma Lead(u: string, w: string, z: string)
    ensures u + w + z == u + (w + z)
  {
  }

  /** Does `s` start with `p`? */
  predicate StartsWith(s: string, p: string)
  {
    |p| <= |s| && s[..|p|] == p
  }

  /** `x` is obtained from `y` by deleting characters. */
  predicate IsSubseq(x: string, y: string)
    decreases |y|
  {
    |x| == 0 || (|y| > 0 && ((x[0] == y[0] && IsSubseq(x[1..], y[1..])) || IsSubseq(x, y[1..])))
  }

  lemma {:induction false} SubseqRefl(y: string)
    ensures IsSubseq(y, y)
    decreases |y|
  {
    if |y| > 0 {
      SubseqRefl(y[1..]);
    }
  }

  lemma {:induction false} SubseqPrepend(x: string, y1: string, y2: string)
    requires IsSubseq(x, y2)
    ensures IsSubseq(x, y1 + y2)
    decreases |y1|
  {
    if |y1| == 0 {
      assert y1 + y2 == y2;
    } else if |x| > 0 {
      SubseqPrepend(x, y1[1..], y2);
      assert (y1 + y2)[1..] == y1[1..] + y2;
    }
  }

  lemma {:induction false} SubseqConcat(x1: string, y1: string, x2: string, y2: string)
    requires IsSubseq(x1, y1) && IsSubseq(x2, y2)
    ensures IsSubseq(x1 + x2, y1 + y2)
    decreases |y1|
  {
    if |x1| == 0 {
      assert x1 + x2 == x2;
      SubseqPrepend(x2, y1, y2);
    } else {
      assert (y1 + y2)[1..] == y1[1..] + y2;
      if x1[0] == y1[0] && IsSubseq(x1[1..], y1[1..]) {
        SubseqConcat(x1[1..], y1[1..], x2, y2);
        assert (x1 + x2)[1..] == x1[1..] + x2;
      } else {
        SubseqConcat(x1, y1[1..], x2, y2);
      }
    }
  }

  // ---------------------------------------------------------------------------
  // Lines.

  /** The pieces of `s` between newlines (one more than the number of newlines). */
  function Lines(s: string): (r: seq<string>)
    ensures 0 < |r|
    decreases |s|
  {
    var n := Before(s, {'\n'});
    if n == |s| then [s] else [s[..n]] + Lines(s[n + 1..])
  }

  /** The lines put back together, a newline between two lines. */
  function Join(ls: seq<string>): string
  {
    if |ls| == 0 then "" else if |ls| == 1 then ls[0] else ls[0] + "\n" + Join(ls[1..])
  }

  predicate OneLine(line: string) { Avoids(line, {'\n'}) }

  predicate AllOneLine(ls: seq<string>) { forall k :: 0 <= k < |ls| ==> OneLine(ls[k]) }

  lemma {:induction false} LinesAreLines(s: string)
    ensures AllOneLine(Lines(s))
    decreases |s|
  {
    var n := Before(s, {'\n'});
    BeforeAvoids(s, {'\n'});
    if n == |s| {
      assert s[..n] == s;
    } else {
      LinesAreLines(s[n + 1..]);
    }
  }

  lemma LinesCons(p: string, rest: string)
    requires OneLine(p)
    ensures Lines(p + "\n" + rest) == [p] + Lines(rest)
  {
    var s := p + "\n" + rest;
    assert s == p + ("\n" + rest);
    BeforeAt(p, {'\n'}, "\n" + rest);
    assert s[..|p|] == p;
    assert s[|p| + 1..] == rest;
  }

  lemma LinesOne(p: string)
    requires OneLine(p)
    ensures Lines(p) == [p]
  {
    BeforeAll(p, {'\n'});
  }

  lemma JoinCons(p: string, r: seq<string>)
    requires 0 < |r|
    ensures Join([p] + r) == p + "\n" + Join(r)
  {
    assert ([p] + r)[1..] == r;
  }

  lemma JoinLast(p: string)
    ensures Join([p] + []) == p
  {
    assert [p] + [] == [p];
  }

  lemma OneLineCons(p: string, r: seq<string>)
    requires OneLine(p) && AllOneLine(r)
    ensures AllOneLine([p] + r)
  {
    assert forall k :: 1 <= k < |[p] + r| ==> ([p] + r)[k] == r[k - 1];
  }

  lemma BreakAt(s: string, n: nat)
    requires n < |s| && s[n] == '\n'
    ensures s == s[..n] + "\n" + s[n + 1..]
  {
    assert s[..n + 1] == s[..n] + "\n";
    assert s == s[..n + 1] + s[n + 1..];
  }

  /** Cutting a text into lines loses nothing. */
  lemma {:induction false} JoinLines(s: string)
    ensures Join(Lines(s)) == s
    decreases |s|
  {
    var n := Before(s, {'\n'});
    if n < |s| {
      var r := Lines(s[n + 1..]);
      assert Lines(s) == [s[..n]] + r;
      JoinCons(s[..n], r);
      JoinLines(s[n + 1..]);
      BreakAt(s, n);
    }
  }

  /** Lines put together are cut back into the same lines. */
  lemma {:induction false} LinesJoin(ls: seq<string>)
    requires 0 < |ls| && AllOneLine(ls)
    ensures Lines(Join(ls)) == ls
    decreases |ls|
  {
    assert OneLine(ls[0]);
    if |ls| == 1 {
      LinesOne(ls[0]);
    } else {
      var r := ls[1..];
      assert ls == [ls[0]] + r;
      JoinCons(ls[0], r);
      LinesCons(ls[0], Join(r));
      assert AllOneLine(r) by {
        forall k | 0 <= k < |r| ensures OneLine(r[k]) {
          assert r[k] == ls[k + 1];
        }
      }
      LinesJoin(r);
    }
  }
}
