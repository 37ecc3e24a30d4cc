/**
 * The generic Markdown clean-up, line by line: a run of blank lines becomes
 * one blank line, blank lines at the start and at the end disappear, and the
 * hash run that opens a heading is followed by exactly one space.
 *
 * The text is cut into lines at `\n`; a blank line is an empty line.
 */
module MarkdownCleaner {
  import opened Text

  // ---------------------------------------------------------------------------
  // Headings.

  /** Length of the run of `c` at the start of `s`. */
  function Run(s: string, c: char): (n: nat)
    ensures n <= |s|
  {
    if 0 < |s| && s[0] == c then 1 + Run(s[1..], c) else 0
  }

  /** The run is made of `c` and stops at the first other character. */
  lemma {:induction false} RunStops(s: string, c: char)
    ensures forall k :: 0 <= k < Run(s, c) ==> s[k] == c
    ensures Run(s, c) == |s| || s[Run(s, c)] != c
    decreases |s|
  {
    if 0 < |s| && s[0] == c {
      RunStops(s[1..], c);
    }
  }

  lemma {:induction false} RunOf(p: string, c: char, rest: string)
    requires forall k :: 0 <= k < |p| ==> p[k] == c
    requires |rest| == 0 || rest[0] != c
    ensures Run(p + rest, c) == |p|
    decreases |p|
  {
    if |p| == 0 {
      assert p + rest == rest;
    } else {
      assert (p + rest)[1..] == p[1..] + rest;
      RunOf(p[1..], c, rest);
    }
  }

  /** A line that opens with hashes and goes on after spaces gets exactly one space after the hashes. */
  function Heading(line: string): string
  {
    var h := Run(line, '#');
    var w := Run(line[h..], ' ');
    if h == 0 || h + w == |line| then line else line[..h] + " " + line[h + w..]
  }

  /** The hashes that open the line, if any, are followed by one space or by nothing but spaces. */
  predicate Spaced(line: string)
  {
    var h := Run(line, '#');
    var w := Run(line[h..], ' ');
    h == 0 || h + w == |line| || w == 1
  }

  /** The run of `c` that opens `s`, followed by anything else, is still the whole run. */
  lemma RunPrefix(s: string, c: char, rest: string)
    requires |rest| == 0 || rest[0] != c
    ensures Run(s[..Run(s, c)] + rest, c) == Run(s, c)
  {
    var n := Run(s, c);
    RunStops(s, c);
    assert forall k :: 0 <= k < n ==> s[..n][k] == c;
    RunOf(s[..n], c, rest);
  }

  lemma HeadingIs(line: string, h: nat, w: nat)
    requires h == Run(line, '#') && w == Run(line[h..], ' ') && 0 < h && h + w < |line|
    ensures Heading(line) == line[..h] + " " + line[h + w..]
  {
  }

  lemma HeadingChanged(line: string, h: nat, w: nat)
    requires h == Run(line, '#') && w == Run(line[h..], ' ') && 0 < h && h + w < |line|
    ensures var r := line[..h] + " " + line[h + w..];
      Run(r, '#') == h && Run(r[h..], ' ') == 1 && r[h] == ' ' && r[h + 1..] == line[h + w..]
  {
    var tail := line[h + w..];
    assert tail[0] != ' ' by {
      RunStops(line[h..], ' ');
      assert line[h..][w] == tail[0];
    }
    RunPrefix(line, '#', " " + tail);
    var r := line[..h] + " " + tail;
    assert r == line[..h] + (" " + tail);
    assert r[h..] == " " + tail;
    RunOf(" ", ' ', tail);
  }


  /** A heading keeps its hashes and its text, with one space between them. */
  lemma HeadingText(line: string, h: nat, w: nat)
    requires h == Run(line, '#') && w == Run(line[h..], ' ')
    ensures Run(Heading(line), '#') == h
    ensures 0 < h && h + w < |line| ==> Heading(line)[h] == ' ' && Heading(line)[h + 1..] == line[h + w..]
    ensures h == 0 || h + w == |line| ==> Heading(line) == line
  {
    if 0 < h && h + w < |line| {
      HeadingIs(line, h, w);
      HeadingChanged(line, h, w);
    }
  }

  /** A heading is spaced. */
  lemma HeadingSpaced(line: string)
    ensures Spaced(Heading(line))
  {
    var h := Run(line, '#');
    var w := Run(line[h..], ' ');
    if 0 < h && h + w < |line| {
      HeadingIs(line, h, w);
      HeadingChanged(line, h, w);
    }
  }

  /** A line whose hashes are already followed by one space is left alone. */
  lemma SpacedUnchanged(line: string)
    requires Spaced(line)
    ensures Heading(line) == line
  {
    var h := Run(line, '#');
    var w := Run(line[h..], ' ');
    if 0 < h && h + w < |line| {
      RunStops(line[h..], ' ');
      assert line[h..][0] == line[h];
      assert line == line[..h] + " " + line[h + w..];
    }
  }

  lemma HeadingIdempotent(line: string)
    ensures Heading(Heading(line)) == Heading(line)
  {
    HeadingSpaced(line);
    SpacedUnchanged(Heading(line));
  }

  /** A heading is blank exactly when the line is, and stays on one line. */
  lemma HeadingKeepsLine(line: string)
    ensures Heading(line) == "" <==> line == ""
    ensures OneLine(line) ==> OneLine(Heading(line))
  {
    var h := Run(line, '#');
    var w := Run(line[h..], ' ');
    if 0 < h && h + w < |line| && OneLine(line) {
      AvoidsAppend(line[..h], " ", {'\n'});
      AvoidsAppend(line[..h] + " ", line[h + w..], {'\n'});
    }
  }

  function Headings(ls: seq<string>): (r: seq<string>)
  {
    seq(|ls|, k requires 0 <= k < |ls| => Heading(ls[k]))
  }

  // ---------------------------------------------------------------------------
  // Blank lines.

  /** A run of blank lines is replaced by its last blank line. */
  function Squeeze(ls: seq<string>): seq<string>
    decreases |ls|
  {
    if |ls| < 2 then ls
    else if ls[0] == "" && ls[1] == "" then Squeeze(ls[1..])
    else [ls[0]] + Squeeze(ls[1..])
  }

  /** Without its blank lines at the start. */
  function TrimLeading(ls: seq<string>): (r: seq<string>)
    ensures |r| <= |ls| && r == ls[|ls| - |r|..]
    ensures |r| == 0 || r[0] != ""
    ensures forall k :: 0 <= k < |ls| - |r| ==> ls[k] == ""
    decreases |ls|
  {
    if 0 < |ls| && ls[0] == "" then TrimLeading(ls[1..]) else ls
  }

  /** Without its blank lines at the end. */
  function TrimTrailing(ls: seq<string>): (r: seq<string>)
    ensures |r| <= |ls| && r == ls[..|r|]
    ensures |r| == 0 || r[|r| - 1] != ""
    ensures forall k :: |r| <= k < |ls| ==> ls[k] == ""
    decreases |ls|
  {
    if 0 < |ls| && ls[|ls| - 1] == "" then TrimTrailing(ls[..|ls| - 1]) else ls
  }

  /** The clean-up of a list of lines. */
  function Clean(ls: seq<string>): seq<string>
  {
    TrimTrailing(TrimLeading(Squeeze(Headings(ls))))
  }

  /** The clean-up of a text. */
  function Modify(s: string): string
  {
    Join(Clean(Lines(s)))
  }

  // ---------------------------------------------------------------------------
  // What the clean-up keeps: the non-blank lines, in order, each with whether a
  // blank line (or the start of the text) comes before it.

  datatype Para = Para(afterBlank: bool, line: string)

  /** The non-blank lines of `ls`; `gap` says whether a blank line comes just before `ls`. */
  function Marks(ls: seq<string>, gap: bool): seq<Para>
    decreases |ls|
  {
    if |ls| == 0 then []
    else if ls[0] == "" then Marks(ls[1..], true)
    else [Para(gap, ls[0])] + Marks(ls[1..], false)
  }

  function HeadingMarks(m: seq<Para>): seq<Para>
  {
    seq(|m|, k requires 0 <= k < |m| => Para(m[k].afterBlank, Heading(m[k].line)))
  }

  predicate Separated(ls: seq<string>, k: int)
    requires 0 <= k < |ls| - 1
  {
    ls[k] != "" || ls[k + 1] != ""
  }

  /** No two blank lines follow each other. */
  predicate NoDoubleBlank(ls: seq<string>)
  {
    forall k :: 0 <= k < |ls| - 1 ==> Separated(ls, k)
  }

  /** No double blank line, none at the end, and none at the start when `gap`. */
  predicate Compact(ls: seq<string>, gap: bool)
  {
    && NoDoubleBlank(ls)
    && (|ls| == 0 || ls[|ls| - 1] != "")
    && (gap ==> |ls| == 0 || ls[0] != "")
  }

  /** The form of a cleaned text. */
  predicate Tidy(ls: seq<string>)
  {
    Compact(ls, true) && forall k :: 0 <= k < |ls| ==> Spaced(ls[k])
  }

  lemma ConsNoDoubleBlank(a: string, r: seq<string>)
    requires NoDoubleBlank(r) && (a != "" || |r| == 0 || r[0] != "")
    ensures NoDoubleBlank([a] + r)
  {
    var ls := [a] + r;
    forall k | 0 <= k < |ls| - 1 ensures Separated(ls, k) {
      if 0 < k {
        assert Separated(r, k - 1);
        assert ls[k] == r[k - 1] && ls[k + 1] == r[k];
      }
    }
  }

  lemma NoDoubleBlankSlice(ls: seq<string>, i: int, j: int)
    requires NoDoubleBlank(ls) && 0 <= i <= j <= |ls|
    ensures NoDoubleBlank(ls[i..j])
  {
    var s := ls[i..j];
    forall k | 0 <= k < |s| - 1 ensures Separated(s, k) {
      assert Separated(ls, i + k);
    }
  }

  lemma {:induction false} SqueezeFacts(ls: seq<string>)
    ensures NoDoubleBlank(Squeeze(ls))
    ensures forall x :: x in Squeeze(ls) ==> x in ls
    ensures 0 < |ls| ==> 0 < |Squeeze(ls)| && Squeeze(ls)[0] == ls[0]
    decreases |ls|
  {
    if 2 <= |ls| {
      SqueezeFacts(ls[1..]);
      forall x | x in ls[1..] ensures x in ls {}
      if !(ls[0] == "" && ls[1] == "") {
        ConsNoDoubleBlank(ls[0], Squeeze(ls[1..]));
      }
    }
  }

  /** Every line of the clean-up is the heading form of a line of the input. */
  lemma CleanFrom(ls: seq<string>)
    ensures forall k :: 0 <= k < |Clean(ls)| ==> Clean(ls)[k] in Headings(ls)
  {
    var hs := Headings(ls);
    var q := Squeeze(hs);
    var l := TrimLeading(q);
    var c := TrimTrailing(l);
    SqueezeFacts(hs);
    forall k | 0 <= k < |c| ensures c[k] in hs {
      var i := |q| - |l| + k;
      assert c[k] == l[k] == q[i];
      assert q[i] in q;
    }
  }

  lemma TrimCompact(q: seq<string>)
    requires NoDoubleBlank(q)
    ensures Compact(TrimTrailing(TrimLeading(q)), true)
  {
    var l := TrimLeading(q);
    var c := TrimTrailing(l);
    NoDoubleBlankDrop(q, |q| - |l|);
    NoDoubleBlankTake(l, |c|);
    if 0 < |c| {
      assert c[0] == l[0];
    }
  }

  lemma NoDoubleBlankDrop(ls: seq<string>, i: int)
    requires NoDoubleBlank(ls) && 0 <= i <= |ls|
    ensures NoDoubleBlank(ls[i..])
  {
    var s := ls[i..];
    forall k | 0 <= k < |s| - 1 ensures Separated(s, k) {
      assert Separated(ls, i + k);
    }
  }

  lemma NoDoubleBlankTake(ls: seq<string>, j: int)
    requires NoDoubleBlank(ls) && 0 <= j <= |ls|
    ensures NoDoubleBlank(ls[..j])
  {
    var s := ls[..j];
    forall k | 0 <= k < |s| - 1 ensures Separated(s, k) {
      assert Separated(ls, k);
    }
  }

  lemma CleanCompact(ls: seq<string>)
    ensures Compact(Clean(ls), true)
  {
    SqueezeFacts(Headings(ls));
    TrimCompact(Squeeze(Headings(ls)));
  }

  /** The clean-up gives a tidy list of lines. */
  lemma CleanTidy(ls: seq<string>)
    ensures Tidy(Clean(ls))
  {
    var c := Clean(ls);
    CleanCompact(ls);
    CleanFrom(ls);
    forall k | 0 <= k < |c| ensures Spaced(c[k]) {
      var j :| 0 <= j < |ls| && Headings(ls)[j] == c[k];
      HeadingSpaced(ls[j]);
    }
  }

  lemma MarksBlankFirst(ls: seq<string>, gap: bool)
    requires 0 < |ls| && ls[0] == ""
    ensures Marks(ls, gap) == Marks(ls, true)
  {
  }

  lemma {:induction false} MarksSqueeze(ls: seq<string>, gap: bool)
    ensures Marks(Squeeze(ls), gap) == Marks(ls, gap)
    decreases |ls|
  {
    if 2 <= |ls| {
      MarksSqueeze(ls[1..], true);
      MarksSqueeze(ls[1..], false);
      if ls[0] == "" && ls[1] == "" {
        SqueezeFacts(ls[1..]);
        MarksBlankFirst(Squeeze(ls[1..]), gap);
      } else {
        assert ([ls[0]] + Squeeze(ls[1..]))[1..] == Squeeze(ls[1..]);
      }
    }
  }

  lemma {:induction false} MarksTrimLeading(ls: seq<string>)
    ensures Marks(TrimLeading(ls), true) == Marks(ls, true)
    decreases |ls|
  {
    if 0 < |ls| && ls[0] == "" {
      MarksTrimLeading(ls[1..]);
    }
  }

  lemma {:induction false} MarksDropBlank(ls: seq<string>, gap: bool)
    requires 0 < |ls| && ls[|ls| - 1] == ""
    ensures Marks(ls[..|ls| - 1], gap) == Marks(ls, gap)
    decreases |ls|
  {
    if 1 < |ls| {
      var init := ls[..|ls| - 1];
      assert init[1..] == ls[1..][..|ls[1..]| - 1];
      MarksDropBlank(ls[1..], true);
      MarksDropBlank(ls[1..], false);
    }
  }

  lemma {:induction false} MarksTrimTrailing(ls: seq<string>, gap: bool)
    ensures Marks(TrimTrailing(ls), gap) == Marks(ls, gap)
    decreases |ls|
  {
    if 0 < |ls| && ls[|ls| - 1] == "" {
      MarksTrimTrailing(ls[..|ls| - 1], gap);
      MarksDropBlank(ls, gap);
    }
  }

  lemma {:induction false} MarksHeadings(ls: seq<string>, gap: bool)
    ensures Marks(Headings(ls), gap) == HeadingMarks(Marks(ls, gap))
    decreases |ls|
  {
    if 0 < |ls| {
      assert Headings(ls)[1..] == Headings(ls[1..]);
      HeadingKeepsLine(ls[0]);
      MarksHeadings(ls[1..], true);
      MarksHeadings(ls[1..], false);
    }
  }

  /**
   * The clean-up keeps every non-blank line, in order, with its heading
   * spacing set, and keeps whether a paragraph break comes before it.
   */
  lemma CleanMarks(ls: seq<string>)
    ensures Marks(Clean(ls), true) == HeadingMarks(Marks(ls, true))
  {
    var hs := Headings(ls);
    var q := Squeeze(hs);
    var l := TrimLeading(q);
    MarksHeadings(ls, true);
    MarksSqueeze(hs, true);
    MarksTrimLeading(q);
    MarksTrimTrailing(l, true);
  }

  lemma {:induction false} MarksNonEmpty(ls: seq<string>, gap: bool)
    requires 0 < |ls| && ls[|ls| - 1] != ""
    ensures 0 < |Marks(ls, gap)|
    decreases |ls|
  {
    if ls[0] == "" {
      MarksNonEmpty(ls[1..], true);
    }
  }

  lemma CompactTail(ls: seq<string>, gap: bool)
    requires Compact(ls, gap) && 0 < |ls|
    ensures Compact(ls[1..], ls[0] == "")
  {
    NoDoubleBlankSlice(ls, 1, |ls|);
    assert ls[1..|ls|] == ls[1..];
    if 1 < |ls| {
      assert ls[1..][|ls| - 2] == ls[|ls| - 1];
      assert ls[1..][0] == ls[1];
      assert Separated(ls, 0);
    }
  }

  /** The first mark of a compact list of lines: its line, and whether a gap precedes it. */
  lemma MarksFirst(ls: seq<string>, gap: bool)
    requires Compact(ls, gap) && 0 < |ls|
    ensures 0 < |Marks(ls, gap)|
    ensures Marks(ls, gap)[0].afterBlank == (gap || ls[0] == "")
    ensures ls[0] != "" ==> Marks(ls, gap)[0].line == ls[0] && Marks(ls, gap)[1..] == Marks(ls[1..], false)
    ensures ls[0] == "" ==> Marks(ls, gap) == Marks(ls[1..], true)
  {
    if ls[0] == "" {
      CompactTail(ls, gap);
      MarksNonEmpty(ls[1..], true);
    }
  }

  /** A compact list of lines is determined by what the clean-up keeps of it. */
  lemma {:induction false} CompactDetermined(a: seq<string>, b: seq<string>, gap: bool)
    requires Compact(a, gap) && Compact(b, gap) && Marks(a, gap) == Marks(b, gap)
    ensures a == b
    decreases |a|
  {
    if |a| == 0 || |b| == 0 {
      if 0 < |a| { MarksNonEmpty(a, gap); }
      if 0 < |b| { MarksNonEmpty(b, gap); }
    } else {
      CompactTail(a, gap);
      CompactTail(b, gap);
      MarksFirst(a, gap);
      MarksFirst(b, gap);
      CompactDetermined(a[1..], b[1..], a[0] == "");
      assert a == [a[0]] + a[1..] && b == [b[0]] + b[1..];
    }
  }

  /** Cleaning a cleaned list of lines changes nothing. */
  lemma CleanIdempotent(ls: seq<string>)
    ensures Clean(Clean(ls)) == Clean(ls)
  {
    var c := Clean(ls);
    CleanTidy(ls);
    CleanTidy(c);
    CleanMarks(ls);
    CleanMarks(c);
    var m := Marks(ls, true);
    assert HeadingMarks(HeadingMarks(m)) == HeadingMarks(m) by {
      forall k | 0 <= k < |m| ensures HeadingMarks(HeadingMarks(m))[k] == HeadingMarks(m)[k] {
        HeadingIdempotent(m[k].line);
      }
    }
    CompactDetermined(Clean(c), c, true);
  }

  lemma CleanOneLine(ls: seq<string>)
    requires AllOneLine(ls)
    ensures AllOneLine(Clean(ls))
  {
    var c := Clean(ls);
    CleanFrom(ls);
    forall k | 0 <= k < |c| ensures OneLine(c[k]) {
      var j :| 0 <= j < |ls| && Headings(ls)[j] == c[k];
      HeadingKeepsLine(ls[j]);
    }
  }

  /** The lines of the cleaned text are the cleaned lines (none when the text is all blank). */
  lemma LinesOfModify(s: string)
    ensures var c := Clean(Lines(s));
      if |c| == 0 then Modify(s) == "" else Lines(Modify(s)) == c
  {
    var c := Clean(Lines(s));
    if 0 < |c| {
      LinesAreLines(s);
      CleanOneLine(Lines(s));
      LinesJoin(c);
    }
  }

  /** The clean-up of a text is idempotent. */
  lemma ModifyIdempotent(s: string)
    ensures Modify(Modify(s)) == Modify(s)
  {
    var c := Clean(Lines(s));
    LinesOfModify(s);
    if |c| == 0 {
      assert Lines("") == [""];
      assert Clean([""]) == [];
    } else {
      CleanIdempotent(Lines(s));
    }
  }

  /** The lines of a cleaned text are tidy and keep the non-blank lines of the original. */
  lemma ModifyTidy(s: string)
    ensures var m := Lines(Modify(s));
      Modify(s) == "" || (Tidy(m) && Marks(m, true) == HeadingMarks(Marks(Lines(s), true)))
  {
    LinesOfModify(s);
    CleanTidy(Lines(s));
    CleanMarks(Lines(s));
  }

  // ---------------------------------------------------------------------------
  // One step at a time, for the test vectors.

  lemma HeadingsCons(a: string, r: seq<string>)
    ensures Headings([a] + r) == [Heading(a)] + Headings(r)
  {
  }

  lemma SqueezeKeep(a: string, r: seq<string>)
    requires a != "" || |r| == 0 || r[0] != ""
    ensures Squeeze([a] + r) == [a] + Squeeze(r)
  {
    if 0 < |r| {
      assert ([a] + r)[1..] == r;
    }
  }

  lemma SqueezeDrop(r: seq<string>)
    requires 0 < |r| && r[0] == ""
    ensures Squeeze([""] + r) == Squeeze(r)
  {
    assert ([""] + r)[1..] == r;
  }

  /** A line that does not open with a hash is no heading. */
  lemma NotHeading(line: string)
    requires line == "" || line[0] != '#'
    ensures Heading(line) == line
  {
  }

  // ---------------------------------------------------------------------------
  // Test vectors (tests/test_processors.py:300-316).

  /** The lines of the first vector, with any non-heading line `x` in place of "x". */
  lemma BlankRunsLines(x: string)
    requires OneLine(x)
    ensures Lines("" + "\n" + ("" + "\n" + (x + "\n" + ("" + "\n" + (x + "\n" + (x + "\n" + ("" + "\n" + ("" + "\n" + (x + "\n" + ("" + "\n" + ""))))))))))
      == [""] + ([""] + ([x] + ([""] + ([x] + ([x] + ([""] + ([""] + ([x] + ([""] + [""])))))))))
  {
    LinesOne("");
    LinesCons("", "");
    LinesCons(x, "" + "\n" + "");
    LinesCons("", x + "\n" + ("" + "\n" + ""));
    LinesCons("", "" + "\n" + (x + "\n" + ("" + "\n" + "")));
    LinesCons(x, "" + "\n" + ("" + "\n" + (x + "\n" + ("" + "\n" + ""))));
    LinesCons(x, x + "\n" + ("" + "\n" + ("" + "\n" + (x + "\n" + ("" + "\n" + "")))));
    LinesCons("", x + "\n" + (x + "\n" + ("" + "\n" + ("" + "\n" + (x + "\n" + ("" + "\n" + ""))))));
    LinesCons(x, "" + "\n" + (x + "\n" + (x + "\n" + ("" + "\n" + ("" + "\n" + (x + "\n" + ("" + "\n" + "")))))));
    LinesCons("", x + "\n" + ("" + "\n" + (x + "\n" + (x + "\n" + ("" + "\n" + ("" + "\n" + (x + "\n" + ("" + "\n" + ""))))))));
    LinesCons("", "" + "\n" + (x + "\n" + ("" + "\n" + (x + "\n" + (x + "\n" + ("" + "\n" + ("" + "\n" + (x + "\n" + ("" + "\n" + "")))))))));
  }

  lemma BlankRunsSqueeze(x: string)
    requires x != ""
    ensures Squeeze([""] + ([""] + ([x] + ([""] + ([x] + ([x] + ([""] + ([""] + ([x] + ([""] + [""]))))))))))
      == [""] + ([x] + ([""] + ([x] + ([x] + ([""] + ([x] + [""]))))))
  {
    var t8 := [x] + ([""] + [""]);
    SqueezeDrop([""]);
    SqueezeKeep(x, [""] + [""]);
    var t6 := [""] + ([""] + t8);
    SqueezeKeep("", t8);
    SqueezeDrop([""] + t8);
    var t3 := [""] + ([x] + ([x] + t6));
    SqueezeKeep(x, t6);
    SqueezeKeep(x, [x] + t6);
    SqueezeKeep("", [x] + ([x] + t6));
    SqueezeKeep(x, t3);
    SqueezeKeep("", [x] + t3);
    SqueezeDrop([""] + ([x] + t3));
  }

  lemma BlankRunsTrim(x: string)
    requires x != ""
    ensures TrimTrailing(TrimLeading([""] + ([x] + ([""] + ([x] + ([x] + ([""] + ([x] + [""])))))))) == [x] + ([""] + ([x] + ([x] + ([""] + [x]))))
  {
    var a := [""] + ([x] + ([""] + ([x] + ([x] + ([""] + ([x] + [""]))))));
    var b := [x] + ([""] + ([x] + ([x] + ([""] + ([x] + [""])))));
    var c := [x] + ([""] + ([x] + ([x] + ([""] + [x]))));
    assert a[1..] == b;
    assert TrimLeading(b) == b;
    assert b[..6] == c;
    assert TrimTrailing(c) == c;
  }

  lemma BlankRunsClean(x: string)
    requires x != "" && x[0] != '#'
    ensures Clean([""] + ([""] + ([x] + ([""] + ([x] + ([x] + ([""] + ([""] + ([x] + ([""] + [""]))))))))))
      == [x] + ([""] + ([x] + ([x] + ([""] + [x]))))
  {
    var ls := [""] + ([""] + ([x] + ([""] + ([x] + ([x] + ([""] + ([""] + ([x] + ([""] + [""])))))))));
    assert Headings(ls) == ls by {
      forall k | 0 <= k < |ls| ensures Heading(ls[k]) == ls[k] {
        NotHeading(ls[k]);
      }
    }
    BlankRunsSqueeze(x);
    BlankRunsTrim(x);
  }

  lemma BlankRunsJoin(x: string)
    ensures Join([x] + ([""] + ([x] + ([x] + ([""] + [x]))))) == x + "\n" + ("" + "\n" + (x + "\n" + (x + "\n" + ("" + "\n" + x))))
  {
    JoinCons(x, [""] + ([x] + ([x] + ([""] + [x]))));
    JoinCons("", [x] + ([x] + ([""] + [x])));
    JoinCons(x, [x] + ([""] + [x]));
    JoinCons(x, [""] + [x]);
    JoinCons("", [x]);
  }

  /** Runs of blank lines shrink to one, and blank lines at both ends go, whatever the other lines say. */
  lemma BlankRuns(x: string)
    requires x != "" && OneLine(x) && x[0] != '#'
    ensures Modify("" + "\n" + ("" + "\n" + (x + "\n" + ("" + "\n" + (x + "\n" + (x + "\n" + ("" + "\n" + ("" + "\n" + (x + "\n" + ("" + "\n" + ""))))))))))
      == x + "\n" + ("" + "\n" + (x + "\n" + (x + "\n" + ("" + "\n" + x))))
  {
    BlankRunsLines(x);
    BlankRunsClean(x);
    BlankRunsJoin(x);
  }

  lemma BlankLinesInput()
    ensures "" + "\n" + ("" + "\n" + ("x" + "\n" + ("" + "\n" + ("x" + "\n" + ("x" + "\n" + ("" + "\n" + ("" + "\n" + ("x" + "\n" + ("" + "\n" + "")))))))))
      == "\n\nx\n\nx\nx\n\n\nx\n\n"
  {
  }

  lemma BlankLinesOutput()
    ensures "x" + "\n" + ("" + "\n" + ("x" + "\n" + ("x" + "\n" + ("" + "\n" + "x")))) == "x\n\nx\nx\n\nx"
  {
  }

  lemma BlankLines()
    ensures Modify("\n\nx\n\nx\nx\n\n\nx\n\n") == "x\n\nx\nx\n\nx"
  {
    assert OneLine("x");
    BlankRuns("x");
    BlankLinesInput();
    BlankLinesOutput();
  }

  lemma HeadingA()
    ensures Heading("#a") == "# a"
  {
    assert Run("#a", '#') == 1;
    assert Run("#a"[1..], ' ') == 0;
    HeadingIs("#a", 1, 0);
  }

  lemma HeadingB()
    ensures Heading("##  b") == "## b"
  {
    assert Run("##  b", '#') == 2;
    assert Run("##  b"[2..], ' ') == 2;
    HeadingIs("##  b", 2, 2);
  }

  lemma HeadingC()
    ensures Heading("# c") == "# c"
  {
    assert Run("# c", '#') == 1;
    assert Run("# c"[1..], ' ') == 1;
    SpacedUnchanged("# c");
  }

  lemma HeadingSpacesLines()
    ensures Lines("#a" + "\n" + ("##  b" + "\n" + "# c")) == ["#a"] + (["##  b"] + ["# c"])
  {
    assert OneLine("#a") && OneLine("##  b") && OneLine("# c");
    LinesOne("# c");
    LinesCons("##  b", "# c");
    LinesCons("#a", "##  b" + "\n" + "# c");
  }

  lemma HeadingSpacesClean()
    ensures Clean(["#a"] + (["##  b"] + ["# c"])) == ["# a"] + (["## b"] + ["# c"])
  {
    HeadingsCons("#a", ["##  b"] + ["# c"]);
    HeadingsCons("##  b", ["# c"]);
    HeadingA();
    HeadingB();
    HeadingC();
    var hs := ["# a"] + (["## b"] + ["# c"]);
    assert Headings(["# c"]) == ["# c"];
    assert Headings(["#a"] + (["##  b"] + ["# c"])) == hs;
    SqueezeKeep("## b", ["# c"]);
    SqueezeKeep("# a", ["## b"] + ["# c"]);
    assert hs[0] == "# a" && hs[2] == "# c";
  }

  lemma HeadingSpacesJoin()
    ensures Join(["# a"] + (["## b"] + ["# c"])) == "# a" + "\n" + ("## b" + "\n" + "# c")
  {
    JoinCons("## b", ["# c"]);
    JoinCons("# a", ["## b"] + ["# c"]);
  }

  lemma HeadingSpacesInput()
    ensures "#a" + "\n" + ("##  b" + "\n" + "# c") == "#a\n##  b\n# c"
  {
  }

  lemma HeadingSpacesOutput()
    ensures "# a" + "\n" + ("## b" + "\n" + "# c") == "# a\n## b\n# c"
  {
  }

  /** The hash run of a heading is followed by exactly one space. */
  lemma HeadingSpaces()
    ensures Modify("#a\n##  b\n# c") == "# a\n## b\n# c"
  {
    HeadingSpacesInput();
    HeadingSpacesLines();
    HeadingSpacesClean();
    HeadingSpacesJoin();
    HeadingSpacesOutput();
  }
}
