/**
 * SpaceBetweenNumberAndUnit: puts one space between a number and the unit
 * written right after it (`km`, `min`, `mn`, `m`, `h`), and one more after an
 * hour that is followed by minutes (`1h30` becomes `1 h 30`). Numbers that
 * follow a route marker `L#` are left alone (`L#6h`).
 */
module SpaceBetweenNumberAndUnit {
  import opened Wrappers
  import opened Text
  import opened Rewriting

  /** The units the processor recognises. */
  datatype Unit = Kilometre | Minute | MinuteShort | Metre | Hour

  function Name(u: Unit): string
  {
    match u
    case Kilometre => "km"
    case Minute => "min"
    case MinuteShort => "mn"
    case Metre => "m"
    case Hour => "h"
  }

  /**
   * The `n` characters at the start of `s` end a word: what follows is not a
   * word character, except that a digit may follow an hour.
   */
  predicate EndsWord(s: string, n: nat, hour: bool)
  {
    n <= |s| && (n == |s| || !IsWordChar(s[n]) || (hour && IsDigit(s[n])))
  }

  /** The unit written at the start of `s`, if any. */
  function UnitAt(s: string): (r: Option<Unit>)
    ensures r.Some? ==> |Name(r.value)| <= |s|
    ensures r.Some? ==> s[0] == 'k' || s[0] == 'm' || s[0] == 'h'
  {
    if |s| >= 2 && s[0] == 'k' && s[1] == 'm' && EndsWord(s, 2, false) then Some(Kilometre)
    else if |s| >= 3 && s[0] == 'm' && s[1] == 'i' && s[2] == 'n' && EndsWord(s, 3, false) then Some(Minute)
    else if |s| >= 2 && s[0] == 'm' && s[1] == 'n' && EndsWord(s, 2, false) then Some(MinuteShort)
    else if |s| >= 1 && s[0] == 'm' && EndsWord(s, 1, false) then Some(Metre)
    else if |s| >= 1 && s[0] == 'h' && EndsWord(s, 1, true) then Some(Hour)
    else None
  }

  /** After an hour directly followed by minutes, a second space. */
  function Gap(u: Unit, s: string, m: nat): string
  {
    if u == Hour && m < |s| && IsDigit(s[m]) then " " else ""
  }

  /** The number `s[..n]` followed by a unit gets its space; a number without a unit is left to the scan. */
  function NumberStep(s: string, n: nat): Option<Step>
    requires n <= |s|
  {
    match UnitAt(s[n..])
    case None => None
    case Some(u) =>
      var m := n + |Name(u)|;
      Some(Step(m, s[..n] + " " + Name(u) + Gap(u, s, m)))
  }

  /**
   * At `L#` the marker and its number are copied as they are; at a number
   * followed by a unit, the space is inserted.
   */
  function Rule(s: string): Option<Step>
  {
    if |s| >= 2 && s[0] == 'L' && s[1] == '#' then
      var n := 2 + DigitRun(s[2..]);
      Some(Step(n, s[..n]))
    else if |s| > 0 && IsDigit(s[0]) then NumberStep(s, DigitRun(s))
    else None
  }

  function Modify(s: string): string
  {
    Rewrite(Rule, s)
  }

  // ---------------------------------------------------------------------------
  // Where the text may be cut

  /** A character after which no rule looks further. */
  predicate Closes(c: char)
  {
    !IsDigit(c) && c != 'L' && c != '#' && c != 'k' && c != 'm' && c != 'i' && c != 'n' && c != 'h'
  }

  /** A character before which every rule has stopped looking. */
  predicate Opens(c: char)
  {
    !IsWordChar(c) && c != '#'
  }

  predicate Separated(a: string, b: string)
  {
    |a| == 0 || |b| == 0 || Opens(b[0]) || Closes(a[|a| - 1])
  }

  lemma {:induction false} DigitRunAppend(x: string, b: string)
    requires DigitRun(x) < |x| || |b| == 0 || !IsDigit(b[0])
    ensures DigitRun(x + b) == DigitRun(x)
    decreases |x|
  {
    if |x| == 0 {
      assert x + b == b;
    } else if IsDigit(x[0]) {
      assert (x + b)[1..] == x[1..] + b;
      DigitRunAppend(x[1..], b);
    }
  }

  lemma UnitAtAppend(y: string, b: string)
    requires |y| == 0 ==> |b| == 0 || Opens(b[0])
    requires |y| > 0 ==> Separated(y, b)
    ensures UnitAt(y + b) == UnitAt(y)
  {
    var yb := y + b;
    assert forall k :: 0 <= k < |y| ==> yb[k] == y[k];
    assert |b| > 0 ==> yb[|y|] == b[0];
  }

  lemma StableAtMarker(x: string, b: string)
    requires |x| >= 2 && x[0] == 'L' && x[1] == '#' && Separated(x, b)
    ensures Stable(Rule, x, b)
  {
    var xb := x + b;
    assert xb[0] == 'L' && xb[1] == '#';
    assert xb[2..] == x[2..] + b;
    DigitRunStops(x[2..]);
    DigitRunAppend(x[2..], b);
    var n := 2 + DigitRun(x[2..]);
    assert xb[..n] == x[..n];
  }

  lemma NumberStepAppend(x: string, b: string, n: nat)
    requires n <= |x| && Separated(x, b)
    requires n == |x| ==> |b| == 0 || Opens(b[0])
    ensures NumberStep(x + b, n) == NumberStep(x, n)
    ensures NumberStep(x, n).Some? ==> NumberStep(x, n).value.len <= |x|
  {
    var xb := x + b;
    assert xb[n..] == x[n..] + b;
    UnitAtAppend(x[n..], b);
    assert xb[..n] == x[..n];
    match UnitAt(x[n..])
    case None =>
    case Some(u) =>
      var m := n + |Name(u)|;
      assert Gap(u, xb, m) == Gap(u, x, m) by {
        if u == Hour {
          assert m < |x| ==> xb[m] == x[m];
          assert m == |x| ==> |b| == 0 || Opens(b[0]);
        }
      }
  }

  lemma StableAtNumber(x: string, b: string)
    requires |x| > 0 && IsDigit(x[0]) && Separated(x, b)
    ensures Stable(Rule, x, b)
  {
    var xb := x + b;
    assert xb[0] == x[0];
    DigitRunStops(x);
    DigitRunAppend(x, b);
    NumberStepAppend(x, b, DigitRun(x));
  }

  lemma StableAt(x: string, b: string)
    requires |x| > 0 && Separated(x, b)
    ensures Stable(Rule, x, b)
  {
    if |x| >= 2 && x[0] == 'L' && x[1] == '#' {
      StableAtMarker(x, b);
    } else if IsDigit(x[0]) {
      StableAtNumber(x, b);
    } else {
      var xb := x + b;
      assert xb[0] == x[0];
      assert |x| >= 2 ==> xb[1] == x[1];
      assert |x| == 1 && |b| > 0 ==> xb[1] == b[0];
    }
  }

  /** The processor works on the two sides of a cut independently. */
  lemma ModifyAppend(a: string, b: string)
    requires Separated(a, b)
    ensures Modify(a + b) == Modify(a) + Modify(b)
  {
    forall i | 0 <= i < |a| ensures Stable(Rule, a[i..], b) {
      StableAt(a[i..], b);
    }
    RewriteAppend(Rule, a, b);
  }

  // ---------------------------------------------------------------------------
  // What the processor does to each kind of piece

  lemma UnitAtName(u: Unit, rest: string)
    requires |rest| == 0 || !IsWordChar(rest[0]) || (u == Hour && IsDigit(rest[0]))
    ensures UnitAt(Name(u) + rest) == Some(u)
  {
    var w := Name(u) + rest;
    assert |rest| > 0 ==> w[|Name(u)|] == rest[0];
  }

  /** The gap that follows a unit: one space between hours and minutes. */
  function GapBefore(u: Unit, rest: string): string
  {
    if u == Hour && |rest| > 0 && IsDigit(rest[0]) then " " else ""
  }

  lemma RuleAtNumber(d: string, u: Unit, rest: string)
    requires |d| > 0 && AllDigits(d)
    requires |rest| == 0 || !IsWordChar(rest[0]) || (u == Hour && IsDigit(rest[0]))
    ensures Rule(d + Name(u) + rest) == Some(Step(|d| + |Name(u)|, d + " " + Name(u) + GapBefore(u, rest)))
  {
    var s := d + Name(u) + rest;
    assert s == d + (Name(u) + rest);
    DigitRunOfDigits(d, Name(u) + rest);
    assert s[|d|..] == Name(u) + rest;
    UnitAtName(u, rest);
    assert s[..|d|] == d;
    var m := |d| + |Name(u)|;
    assert |rest| > 0 ==> s[m] == rest[0];
    assert Gap(u, s, m) == GapBefore(u, rest);
  }

  /** One space between a number and its unit; a second one between hours and minutes. */
  lemma SpaceBeforeUnit(d: string, u: Unit, rest: string)
    requires |d| > 0 && AllDigits(d)
    requires |rest| == 0 || !IsWordChar(rest[0]) || (u == Hour && IsDigit(rest[0]))
    ensures Modify(d + Name(u) + rest) == d + " " + Name(u) + GapBefore(u, rest) + Modify(rest)
  {
    RuleAtNumber(d, u, rest);
    RewriteFire(Rule, d + Name(u), rest, d + " " + Name(u) + GapBefore(u, rest));
  }

  /** The number of a route marker `L#` is never separated from what follows it. */
  lemma MarkerNumberKept(d: string, rest: string)
    requires AllDigits(d)
    requires |rest| == 0 || !IsDigit(rest[0])
    ensures Modify("L#" + d + rest) == "L#" + d + Modify(rest)
  {
    var s := "L#" + d + rest;
    assert s[2..] == d + rest;
    DigitRunOfDigits(d, rest);
    assert s[..2 + |d|] == "L#" + d;
    RewriteFire(Rule, "L#" + d, rest, "L#" + d);
  }

  /** The characters at `k` and `k + 1` start neither a marker nor a unit after a number. */
  predicate Harmless(p: string, k: int)
    requires 0 <= k < |p| - 1
  {
    !(p[k] == 'L' && p[k + 1] == '#') && !(IsDigit(p[k]) && (p[k + 1] == 'k' || p[k + 1] == 'm' || p[k + 1] == 'h'))
  }

  /** Text with no marker and no digit directly followed by a unit letter. */
  predicate Plain(p: string)
  {
    forall k :: 0 <= k < |p| - 1 ==> Harmless(p, k)
  }

  lemma PlainUnchanged(p: string)
    requires Plain(p)
    ensures Modify(p) == p
  {
    forall i | 0 <= i < |p| ensures Rule(p[i..]).None? {
      var s := p[i..];
      if IsDigit(s[0]) {
        DigitRunStops(s);
        var n := DigitRun(s);
        if n < |s| {
          assert IsDigit(p[i + n - 1]) && s[n] == p[i + n];
          assert Harmless(p, i + n - 1);
        }
      } else if i < |p| - 1 {
        assert Harmless(p, i);
      }
    }
    RewritePlain(Rule, p);
  }

  // ---------------------------------------------------------------------------
  // The examples of campbot/tests/test_processors.py

  /** The unit found at the start of a text is spelled there. */
  lemma UnitAtSpelled(s: string)
    requires UnitAt(s).Some?
    ensures s[..|Name(UnitAt(s).value)|] == Name(UnitAt(s).value)
  {}

  lemma NameHasNoSpace(u: Unit)
    ensures Without(Name(u), ' ') == Name(u)
  {
    match u
    case Kilometre => assert Without("m", ' ') == "m";
    case Minute => assert Without("in", ' ') == "in" by { assert Without("n", ' ') == "n"; }
    case MinuteShort => assert Without("n", ' ') == "n";
    case Metre =>
    case Hour =>
  }

  lemma NumberStepAddsSpaces(s: string, n: nat)
    requires n <= |s| && NumberStep(s, n).Some?
    ensures NumberStep(s, n).value.len <= |s|
    ensures Without(NumberStep(s, n).value.out, ' ') == Without(s[..NumberStep(s, n).value.len], ' ')
  {
    var u := UnitAt(s[n..]).value;
    var m := n + |Name(u)|;
    UnitAtSpelled(s[n..]);
    assert s[..m] == s[..n] + Name(u);
    NameHasNoSpace(u);
    SpaceInserted(s[..n], Name(u), Gap(u, s, m));
  }

  /** Inserting a space before `y` and spaces after it changes nothing once spaces are removed. */
  lemma SpaceInserted(x: string, y: string, gap: string)
    requires Without(y, ' ') == y
    requires gap == "" || gap == " "
    ensures Without(x + " " + y + gap, ' ') == Without(x + y, ' ')
  {
    WithoutAppend(x + " " + y, gap, ' ');
    WithoutAppend(x + " ", y, ' ');
    WithoutAppend(x, " ", ' ');
    WithoutAppend(x, y, ' ');
  }

  /** What one step emits is what it consumed, with spaces added. */
  lemma StepAddsSpaces(s: string)
    requires |s| > 0
    ensures Without(StepOut(Rule, s), ' ') == Without(s[..StepLen(Rule, s)], ' ')
  {
    if !Fires(Rule, s) {
      assert s[..1] == [s[0]];
    } else if |s| >= 2 && s[0] == 'L' && s[1] == '#' {
    } else {
      NumberStepAddsSpaces(s, DigitRun(s));
    }
  }

  /** The processor only ever inserts spaces: removing every space from its input and its output gives the same text. */
  lemma {:induction false} InsertsOnlySpaces(s: string)
    ensures Without(Modify(s), ' ') == Without(s, ' ')
    decreases |s|
  {
    if |s| == 0 {
      RewriteEmpty(Rule);
    } else {
      RewriteStep(Rule, s);
      var n := StepLen(Rule, s);
      InsertsOnlySpaces(s[n..]);
      StepAddsSpaces(s);
      WithoutAppend(StepOut(Rule, s), Modify(s[n..]), ' ');
      assert s == s[..n] + s[n..];
      WithoutAppend(s[..n], s[n..], ' ');
    }
  }

  /** Hence every digit of the text is kept, in order. */
  lemma DigitsKept(s: string)
    ensures Digits(Modify(s)) == Digits(s)
  {
    InsertsOnlySpaces(s);
    DigitsWithoutSpaces(Modify(s));
    DigitsWithoutSpaces(s);
  }

  /** A number directly followed by a unit, with nothing after it. */
  lemma NumberUnit(d: string, u: Unit, p: string, q: string)
    requires |d| > 0 && AllDigits(d)
    requires p == d + Name(u) && q == d + " " + Name(u)
    ensures Modify(p) == q
  {
    SpaceBeforeUnit(d, u, "");
    assert d + Name(u) + "" == p;
    RewriteEmpty(Rule);
  }

  lemma EveryUnitPieces()
    ensures Modify("6h" + ", " + "2min" + "! " + "4mn" + "? " + "5m" + " et " + "6km")
         == "6 h" + ", " + "2 min" + "! " + "4 mn" + "? " + "5 m" + " et " + "6 km"
  {
    NumberUnit("6", Hour, "6h", "6 h");
    NumberUnit("2", Minute, "2min", "2 min");
    NumberUnit("4", MinuteShort, "4mn", "4 mn");
    NumberUnit("5", Metre, "5m", "5 m");
    NumberUnit("6", Kilometre, "6km", "6 km");
    PlainUnchanged(", ");
    PlainUnchanged("! ");
    PlainUnchanged("? ");
    PlainUnchanged(" et ");
    var a1 := "6h" + ", ";
    ModifyAppend("6h", ", ");
    var a2 := a1 + "2min";
    ModifyAppend(a1, "2min");
    var a3 := a2 + "! ";
    ModifyAppend(a2, "! ");
    var a4 := a3 + "4mn";
    ModifyAppend(a3, "4mn");
    var a5 := a4 + "? ";
    ModifyAppend(a4, "? ");
    var a6 := a5 + "5m";
    ModifyAppend(a5, "5m");
    var a7 := a6 + " et ";
    ModifyAppend(a6, " et ");
    ModifyAppend(a7, "6km");
  }

  lemma EveryUnitSpelled()
    ensures "6h" + ", " + "2min" + "! " + "4mn" + "? " + "5m" + " et " + "6km" == "6h, 2min! 4mn? 5m et 6km"
    ensures "6 h" + ", " + "2 min" + "! " + "4 mn" + "? " + "5 m" + " et " + "6 km" == "6 h, 2 min! 4 mn? 5 m et 6 km"
  {}

  lemma EveryUnit()
    ensures Modify("6h, 2min! 4mn? 5m et 6km") == "6 h, 2 min! 4 mn? 5 m et 6 km"
  {
    EveryUnitPieces();
    EveryUnitSpelled();
  }

  /** A marker with its number and a plain tail is left as it is. */
  lemma MarkerKept(d: string, t: string, p: string)
    requires AllDigits(d) && Plain(t) && (|t| == 0 || !IsDigit(t[0]))
    requires p == "L#" + d + t
    ensures Modify(p) == p
  {
    MarkerNumberKept(d, t);
    PlainUnchanged(t);
  }

  lemma EmptyText()
    ensures Modify("") == ""
  {
    RewriteEmpty(Rule);
  }

  lemma RopePieces()
    ensures Modify("prendre une corde 10-" + "15m" + " ou 2x" + "50m" + " ou 2X" + "50m")
         == "prendre une corde 10-" + "15 m" + " ou 2x" + "50 m" + " ou 2X" + "50 m"
  {
    PlainUnchanged("prendre une corde 10-");
    NumberUnit("15", Metre, "15m", "15 m");
    PlainUnchanged(" ou 2x");
    NumberUnit("50", Metre, "50m", "50 m");
    PlainUnchanged(" ou 2X");
    var a1 := "prendre une corde 10-" + "15m";
    ModifyAppend("prendre une corde 10-", "15m");
    var a2 := a1 + " ou 2x";
    ModifyAppend(a1, " ou 2x");
    var a3 := a2 + "50m";
    ModifyAppend(a2, "50m");
    var a4 := a3 + " ou 2X";
    ModifyAppend(a3, " ou 2X");
    ModifyAppend(a4, "50m");
  }

  lemma RopeSpelled()
    ensures "prendre une corde 10-" + "15m" + " ou 2x" + "50m" + " ou 2X" + "50m" == "prendre une corde 10-15m ou 2x50m ou 2X50m"
    ensures "prendre une corde 10-" + "15 m" + " ou 2x" + "50 m" + " ou 2X" + "50 m" == "prendre une corde 10-15 m ou 2x50 m ou 2X50 m"
  {}

  lemma Rope()
    ensures Modify("prendre une corde 10-15m ou 2x50m ou 2X50m") == "prendre une corde 10-15 m ou 2x50 m ou 2X50 m"
  {
    RopePieces();
    RopeSpelled();
  }

  /** A length in a table row whose marker has no number. */
  lemma TableCell(lead: string, trail: string)
    requires lead == " | " || lead == " |"
    requires trail == " |" || trail == "|"
    ensures Modify("L#" + lead + "30m" + trail) == "L#" + lead + "30 m" + trail
  {
    MarkerKept("", lead, "L#" + lead);
    NumberUnit("30", Metre, "30m", "30 m");
    PlainUnchanged(trail);
    ModifyAppend("L#" + lead, "30m");
    ModifyAppend("L#" + lead + "30m", trail);
  }

  lemma TableCells()
    ensures Modify("L# | 30m |") == "L# | 30 m |"
    ensures Modify("L# |30m |") == "L# |30 m |"
    ensures Modify("L# | 30m|") == "L# | 30 m|"
  {
    TableCell(" | ", " |");
    assert "L#" + " | " + "30m" + " |" == "L# | 30m |";
    assert "L#" + " | " + "30 m" + " |" == "L# | 30 m |";
    TableCell(" |", " |");
    assert "L#" + " |" + "30m" + " |" == "L# |30m |";
    assert "L#" + " |" + "30 m" + " |" == "L# |30 m |";
    TableCell(" | ", "|");
    assert "L#" + " | " + "30m" + "|" == "L# | 30m|";
    assert "L#" + " | " + "30 m" + "|" == "L# | 30 m|";
  }

  lemma HourAtLineEdges()
    ensures Modify("6h\n") == "6 h\n"
    ensures Modify("\n6h\n") == "\n6 h\n"
    ensures Modify("\n6h") == "\n6 h"
  {
    NumberUnit("6", Hour, "6h", "6 h");
    PlainUnchanged("\n");
    ModifyAppend("6h", "\n");
    ModifyAppend("\n", "6h");
    ModifyAppend("\n" + "6h", "\n");
    assert "6h" + "\n" == "6h\n";
    assert "\n" + "6h" + "\n" == "\n6h\n";
    assert "\n" + "6h" == "\n6h";
  }

  lemma Untouched()
    ensures Modify("L#6h") == "L#6h"
    ensures Modify(" 6A ") == " 6A "
  {
    MarkerKept("6", "h", "L#6h");
    PlainUnchanged(" 6A ");
  }

  /** Hours followed by minutes: the space goes on both sides of `h`. */
  lemma HoursAndMinutes(d: string, m: string, p: string, q: string)
    requires |d| > 0 && AllDigits(d) && |m| > 0 && AllDigits(m)
    requires p == d + "h" + m && q == d + " h " + m
    ensures Modify(p) == q
  {
    SpaceBeforeUnit(d, Hour, m);
    assert d + Name(Hour) + m == p;
    PlainUnchanged(m);
  }

  lemma LongRopePieces()
    ensures Modify("Prendre une corde 10-" + "15m" + " ou 2×50 m ou 2×50 m")
         == "Prendre une corde 10-" + "15 m" + " ou 2×50 m ou 2×50 m"
  {
    PlainUnchanged("Prendre une corde 10-");
    NumberUnit("15", Metre, "15m", "15 m");
    PlainUnchanged(" ou 2×50 m ou 2×50 m");
    ModifyAppend("Prendre une corde 10-", "15m");
    ModifyAppend("Prendre une corde 10-" + "15m", " ou 2×50 m ou 2×50 m");
  }

  lemma LongRopeInput()
    ensures "Prendre une corde 10-" + "15m" + " ou 2×50 m ou 2×50 m" == "Prendre une corde 10-15m ou 2×50 m ou 2×50 m"
  {}

  lemma LongRopeOutput()
    ensures "Prendre une corde 10-" + "15 m" + " ou 2×50 m ou 2×50 m" == "Prendre une corde 10-15 m ou 2×50 m ou 2×50 m"
  {}

  /** The length keeps its own step; the products, already written with `×`, are left alone. */
  lemma LongRope()
    ensures Modify("Prendre une corde 10-15m ou 2×50 m ou 2×50 m") == "Prendre une corde 10-15 m ou 2×50 m ou 2×50 m"
  {
    LongRopeInput();
    LongRopeOutput();
    LongRopePieces();
  }

  lemma DurationsPieces()
    ensures Modify("1h30" + ". Compter " + "1h15" + ". ou " + "1h10")
         == "1 h 30" + ". Compter " + "1 h 15" + ". ou " + "1 h 10"
  {
    HoursAndMinutes("1", "30", "1h30", "1 h 30");
    HoursAndMinutes("1", "15", "1h15", "1 h 15");
    HoursAndMinutes("1", "10", "1h10", "1 h 10");
    PlainUnchanged(". Compter ");
    PlainUnchanged(". ou ");
    var a1 := "1h30" + ". Compter ";
    ModifyAppend("1h30", ". Compter ");
    var a2 := a1 + "1h15";
    ModifyAppend(a1, "1h15");
    var a3 := a2 + ". ou ";
    ModifyAppend(a2, ". ou ");
    ModifyAppend(a3, "1h10");
  }

  /** Hours followed by minutes, as the chained corrections meet them. */
  lemma DurationsSpelled()
    ensures "1h30" + ". Compter " + "1h15" + ". ou " + "1h10" == "1h30. Compter 1h15. ou 1h10"
    ensures "1 h 30" + ". Compter " + "1 h 15" + ". ou " + "1 h 10" == "1 h 30. Compter 1 h 15. ou 1 h 10"
  {}

  lemma Durations()
    ensures Modify("1h30. Compter 1h15. ou 1h10") == "1 h 30. Compter 1 h 15. ou 1 h 10"
  {
    DurationsPieces();
    DurationsSpelled();
  }

  // ---------------------------------------------------------------------------
  // Running the processor twice

  /** A character at which no rule starts: neither a digit nor the `L` of a marker. */
  predicate Inert(c: char)
  {
    !IsDigit(c) && c != 'L'
  }

  /** The output starts with the character the input starts with, and is empty only for empty input. */
  lemma ModifyFirst(x: string)
    ensures |x| == 0 ==> Modify(x) == ""
    ensures |x| > 0 ==> |Modify(x)| > 0 && Modify(x)[0] == x[0]
  {
    if |x| == 0 {
      RewriteEmpty(Rule);
    } else {
      RewriteStep(Rule, x);
      if Fires(Rule, x) {
        if |x| >= 2 && x[0] == 'L' && x[1] == '#' {
        } else {
          var n := DigitRun(x);
          var u := UnitAt(x[n..]).value;
          assert StepOut(Rule, x) == x[..n] + " " + Name(u) + Gap(u, x, n + |Name(u)|);
        }
      }
    }
  }

  /** Inert characters are copied, whatever follows them. */
  lemma InertThen(p: string, rest: string)
    requires forall k :: 0 <= k < |p| ==> Inert(p[k])
    ensures Modify(p + rest) == p + Modify(rest)
  {
    forall i | 0 <= i < |p| ensures Rule((p + rest)[i..]).None? {
      assert (p + rest)[i..][0] == p[i];
    }
    RewriteSkip(Rule, p, rest);
  }

  /** A number followed by no unit is copied digit by digit. */
  lemma RunCopied(d: string, x: string)
    requires AllDigits(d) && (|x| == 0 || !IsDigit(x[0])) && UnitAt(x).None?
    ensures Modify(d + x) == d + Modify(x)
  {
    forall i | 0 <= i < |d| ensures Rule((d + x)[i..]).None? {
      var s := (d + x)[i..];
      assert s == d[i..] + x;
      DigitRunOfDigits(d[i..], x);
      assert s[|d| - i..] == x;
    }
    RewriteSkip(Rule, d, x);
  }

  /** Two texts that agree up to position `j`, where `j` is past every unit name or at a character no name holds, start with the same unit. */
  lemma UnitAtAgree(a: string, b: string, j: nat)
    requires j < |a| && j < |b| && forall k :: 0 <= k <= j ==> a[k] == b[k]
    requires j == 3 || !Inert(a[j])
    ensures UnitAt(a) == UnitAt(b)
  {
  }

  /** The processor keeps the unit, if any, that its input starts with. */
  lemma UnitAtModify(x: string)
    ensures UnitAt(Modify(x)) == UnitAt(x)
  {
    ModifyFirst(x);
    if |x| > 0 && Inert(x[0]) {
      var j := 1;
      while j < 3 && j < |x| && Inert(x[j])
        invariant 1 <= j <= 3 && j <= |x|
        invariant forall k :: 0 <= k < j ==> Inert(x[k])
      {
        j := j + 1;
      }
      InertThen(x[..j], x[j..]);
      assert x[..j] + x[j..] == x;
      if j < |x| {
        ModifyFirst(x[j..]);
        var m := Modify(x);
        assert forall k :: 0 <= k < j ==> m[k] == x[k];
        assert m[j] == x[j];
        UnitAtAgree(m, x, j);
      } else {
        assert x[j..] == "";
        RewriteEmpty(Rule);
        assert Modify(x) == x;
      }
    }
  }

  /** The unit found at the start of a text ends a word there. */
  lemma UnitAtEndsWord(s: string)
    requires UnitAt(s).Some?
    ensures EndsWord(s, |Name(UnitAt(s).value)|, UnitAt(s).value == Hour)
  {
  }

  lemma NameInert(u: Unit)
    ensures forall k :: 0 <= k < |Name(u)| ==> Inert(Name(u)[k])
  {
  }

  /** A number already spaced from its unit is copied as it is. */
  lemma SpacedPieceThen(d: string, u: Unit, gap: string, rest: string)
    requires |d| > 0 && AllDigits(d) && (gap == "" || gap == " ")
    ensures Modify(d + " " + Name(u) + gap + rest) == d + " " + Name(u) + gap + Modify(rest)
  {
    var t := " " + Name(u) + gap;
    NameInert(u);
    forall k | 0 <= k < |t| ensures Inert(t[k]) {
      if 0 < k <= |Name(u)| {
        assert t[k] == Name(u)[k - 1];
      }
    }
    InertThen(t, rest);
    assert (t + rest)[0] == ' ';
    RunCopied(d, t + rest);
    assert d + " " + Name(u) + gap + rest == d + (t + rest);
  }

  /** A marker and its number, run through twice. */
  lemma MarkerTwice(d: string, x: string)
    requires AllDigits(d) && (|x| == 0 || !IsDigit(x[0]))
    ensures Modify("L#" + d + x) == "L#" + d + Modify(x)
    ensures Modify(Modify("L#" + d + x)) == "L#" + d + Modify(Modify(x))
  {
    MarkerNumberKept(d, x);
    ModifyFirst(x);
    MarkerNumberKept(d, Modify(x));
  }

  /** A number and its unit, run through twice. */
  lemma UnitTwice(d: string, u: Unit, r: string)
    requires |d| > 0 && AllDigits(d)
    requires |r| == 0 || !IsWordChar(r[0]) || (u == Hour && IsDigit(r[0]))
    ensures Modify(Modify(d + Name(u) + r)) == d + " " + Name(u) + GapBefore(u, r) + Modify(Modify(r))
    ensures Modify(d + Name(u) + r) == d + " " + Name(u) + GapBefore(u, r) + Modify(r)
  {
    SpaceBeforeUnit(d, u, r);
    SpacedPieceThen(d, u, GapBefore(u, r), Modify(r));
  }

  /** A number with no unit after it, run through twice. */
  lemma RunTwice(d: string, x: string)
    requires AllDigits(d) && (|x| == 0 || !IsDigit(x[0])) && UnitAt(x).None?
    ensures Modify(d + x) == d + Modify(x)
    ensures Modify(Modify(d + x)) == d + Modify(Modify(x))
  {
    RunCopied(d, x);
    ModifyFirst(x);
    UnitAtModify(x);
    RunCopied(d, Modify(x));
  }

  /** A character at which no rule fires, run through twice. */
  lemma CopyTwice(s: string)
    requires |s| > 0 && !IsDigit(s[0]) && Rule(s).None?
    ensures Modify(s) == [s[0]] + Modify(s[1..])
    ensures Modify(Modify(s)) == [s[0]] + Modify(Modify(s[1..]))
  {
    var t := s[1..];
    assert s == [s[0]] + t;
    RewriteSkip(Rule, [s[0]], t);
    ModifyFirst(t);
    var w := [s[0]] + Modify(t);
    assert w[0] == s[0] && (|w| >= 2 ==> w[1] == t[0]);
    assert Rule(w).None?;
    RewriteSkip(Rule, [s[0]], Modify(t));
  }

  /** A marker at the start of `s`: it comes out as `p` on both runs, and `x` is what follows it. */
  lemma MarkerPieceTwice(s: string) returns (p: string, x: string)
    requires |s| >= 2 && s[0] == 'L' && s[1] == '#'
    ensures |x| < |s|
    ensures Modify(s) == p + Modify(x) && Modify(Modify(s)) == p + Modify(Modify(x))
  {
    DigitRunStops(s[2..]);
    var n := DigitRun(s[2..]);
    var d := s[2..2 + n];
    x := s[2 + n..];
    assert AllDigits(d);
    assert s == "L#" + d + x;
    MarkerTwice(d, x);
    p := "L#" + d;
  }

  /** A number at the start of `s`: it comes out as `p` on both runs, and `x` is what follows it and its unit. */
  lemma NumberPieceTwice(s: string) returns (p: string, x: string)
    requires |s| > 0 && IsDigit(s[0])
    ensures |x| < |s|
    ensures Modify(s) == p + Modify(x) && Modify(Modify(s)) == p + Modify(Modify(x))
  {
    DigitRunStops(s);
    var n := DigitRun(s);
    var d := s[..n];
    var y := s[n..];
    assert AllDigits(d) && 0 < n;
    assert s == d + y;
    if UnitAt(y).Some? {
      var u := UnitAt(y).value;
      UnitAtSpelled(y);
      UnitAtEndsWord(y);
      x := y[|Name(u)|..];
      assert y == Name(u) + x;
      assert d + Name(u) + x == s;
      UnitTwice(d, u, x);
      p := d + " " + Name(u) + GapBefore(u, x);
    } else {
      RunTwice(d, y);
      p, x := d, y;
    }
  }

  /** Running the processor a second time changes nothing. */
  lemma {:induction false} ModifyIdempotent(s: string)
    ensures Modify(Modify(s)) == Modify(s)
    decreases |s|
  {
    if |s| == 0 {
      RewriteEmpty(Rule);
    } else if |s| >= 2 && s[0] == 'L' && s[1] == '#' {
      var p, x := MarkerPieceTwice(s);
      ModifyIdempotent(x);
    } else if IsDigit(s[0]) {
      var p, x := NumberPieceTwice(s);
      ModifyIdempotent(x);
    } else {
      CopyTwice(s);
      ModifyIdempotent(s[1..]);
    }
  }
}
