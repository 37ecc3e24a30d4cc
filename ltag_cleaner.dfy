/**
 * The clean-up of the `L#` rows of a route description's tables, in two
 * passes over the lines of the text.
 *
 *  1. A line that follows a row, or a line already joined to one, continues
 *     that row when it is not blank and does not start something of its own
 *     (a heading, another `L#` row, an `R#` line and the like). It is joined
 *     to the row: directly when a cell bar `|` meets the break, with `<br>`
 *     otherwise.
 *  2. In each row, the first separator after the numbering token becomes one
 *     `|` (and one is put in when the row has none), and every later run of
 *     `|` and `::` separators becomes one `|`. A single `:` is text, and an
 *     internal link `[[target|label]]` is copied as it is.
 *
 * A free-text row, `L#~`, is joined with `<br>` only and its separators are
 * left alone.
 */
module LtagCleaner {
  import opened Text

  // ---------------------------------------------------------------------------
  // Character runs.

  const Blanks: set<char> := {' ', '\t'}
  const Bars: set<char> := {':', '|'}
  /** What ends the numbering token after `L#`. */
  const Stops: set<char> := {' ', '\t', ':', '|'}

  predicate AllIn(s: string, cs: set<char>) { forall k :: 0 <= k < |s| ==> s[k] in cs }

  /** Length of the longest prefix of `s` made of characters of `cs`. */
  function Within(s: string, cs: set<char>): (n: nat)
    ensures n <= |s|
    ensures n == |s| || s[n] !in cs
  {
    if 0 < |s| && s[0] in cs then 1 + Within(s[1..], cs) else 0
  }

  lemma {:induction false} WithinAll(s: string, cs: set<char>)
    ensures AllIn(s[..Within(s, cs)], cs)
    decreases |s|
  {
    if 0 < |s| && s[0] in cs {
      WithinAll(s[1..], cs);
      assert s[..Within(s, cs)] == [s[0]] + s[1..][..Within(s[1..], cs)];
    }
  }

  lemma {:induction false} WithinAt(p: string, cs: set<char>, rest: string)
    requires AllIn(p, cs)
    requires |rest| == 0 || rest[0] !in cs
    ensures Within(p + rest, cs) == |p|
    decreases |p|
  {
    if |p| == 0 {
      assert p + rest == rest;
    } else {
      assert (p + rest)[1..] == p[1..] + rest;
      WithinAt(p[1..], cs, rest);
    }
  }

  // ---------------------------------------------------------------------------
  // Separators and links.

  /** Does a separator, `|` or `::`, start `s`? */
  predicate SepStart(s: string)
  {
    (0 < |s| && s[0] == '|') || (1 < |s| && s[0] == ':' && s[1] == ':')
  }

  /** Length of the run of separators at the start of `s`. */
  function SepRun(s: string): (n: nat)
    ensures n <= |s|
    ensures 0 < n <==> SepStart(s)
    decreases |s|
  {
    if 0 < |s| && s[0] == '|' then 1 + SepRun(s[1..])
    else if 1 < |s| && s[0] == ':' && s[1] == ':' then 2 + SepRun(s[2..])
    else 0
  }

  /** A run of separators is made of `|` and `:` and is maximal. */
  lemma {:induction false} SepRunEnds(s: string)
    ensures AllIn(s[..SepRun(s)], Bars)
    ensures !SepStart(s[SepRun(s)..])
    decreases |s|
  {
    if 0 < |s| && s[0] == '|' {
      SepRunEnds(s[1..]);
      assert s[..SepRun(s)] == [s[0]] + s[1..][..SepRun(s[1..])];
      assert s[SepRun(s)..] == s[1..][SepRun(s[1..])..];
    } else if 1 < |s| && s[0] == ':' && s[1] == ':' {
      SepRunEnds(s[2..]);
      assert s[..SepRun(s)] == s[..2] + s[2..][..SepRun(s[2..])];
      assert s[SepRun(s)..] == s[2..][SepRun(s[2..])..];
    }
  }

  /** Does an internal link, `[[`, start `s`? */
  predicate LinkAt(s: string) { 1 < |s| && s[0] == '[' && s[1] == '[' }

  /** Length of `u` up to and including its first `]]`, or all of `u` when it has none. */
  function Close(u: string): (n: nat)
    ensures n <= |u|
    decreases |u|
  {
    if |u| < 2 then |u| else if u[0] == ']' && u[1] == ']' then 2 else 1 + Close(u[1..])
  }

  /** Does `u` end, at `n`, with the `]]` that closes a link? */
  predicate ClosedAt(u: string, n: nat) { 2 <= n <= |u| && u[n - 2] == ']' && u[n - 1] == ']' }

  /** The link that starts `s`: up to its `]]`, or to the end of the row when it is not closed. */
  function LinkLen(s: string): (n: nat)
    requires LinkAt(s)
    ensures 2 <= n <= |s|
  {
    2 + Close(s[2..])
  }

  /** The search for `]]` either finds one or runs to the end. */
  lemma {:induction false} CloseEnds(u: string)
    ensures Close(u) == |u| || ClosedAt(u, Close(u))
    decreases |u|
  {
    if 2 <= |u| && !(u[0] == ']' && u[1] == ']') {
      CloseEnds(u[1..]);
    }
  }

  /** Once found, the `]]` does not depend on what follows it. */
  lemma {:induction false} CloseFound(u: string, r: string)
    requires ClosedAt(u, Close(u))
    ensures Close(u[..Close(u)] + r) == Close(u)
    decreases |u|
  {
    var n := Close(u);
    var v := u[..n] + r;
    assert v[0] == u[0] && v[1] == u[1];
    if !(u[0] == ']' && u[1] == ']') {
      assert n == 1 + Close(u[1..]);
      assert v[1..] == u[1..][..n - 1] + r;
      CloseFound(u[1..], r);
    }
  }

  /** A closed link is read the same whatever follows it. */
  lemma LinkLocal(s: string, r: string)
    requires LinkAt(s)
    ensures LinkLen(s) == |s| || (LinkAt(s[..LinkLen(s)] + r) && LinkLen(s[..LinkLen(s)] + r) == LinkLen(s))
  {
    var k := LinkLen(s);
    CloseEnds(s[2..]);
    if k < |s| {
      var v := s[..k] + r;
      assert v[2..] == s[2..][..k - 2] + r;
      CloseFound(s[2..], r);
    }
  }

  // ---------------------------------------------------------------------------
  // The cells of a row.

  /**
   * The text after the first separator of a row: every run of separators
   * becomes one `|`, links and everything else are copied.
   */
  function Body(s: string): (r: string)
    decreases |s|
  {
    if |s| == 0 then ""
    else if LinkAt(s) then s[..LinkLen(s)] + Body(s[LinkLen(s)..])
    else if SepStart(s) then "|" + Body(s[SepRun(s)..])
    else [s[0]] + Body(s[1..])
  }

  /** The cells: the text between separator runs, links included. */
  function Segs(s: string): (r: seq<string>)
    ensures 0 < |r|
    decreases |s|
  {
    if |s| == 0 then [""]
    else if LinkAt(s) then Attach(s[..LinkLen(s)], Segs(s[LinkLen(s)..]))
    else if SepStart(s) then [""] + Segs(s[SepRun(s)..])
    else Attach([s[0]], Segs(s[1..]))
  }

  function Attach(x: string, cells: seq<string>): (r: seq<string>)
    requires 0 < |cells|
    ensures |r| == |cells|
  {
    [x + cells[0]] + cells[1..]
  }

  /** The links, in order. */
  function Links(s: string): seq<string>
    decreases |s|
  {
    if |s| == 0 then []
    else if LinkAt(s) then [s[..LinkLen(s)]] + Links(s[LinkLen(s)..])
    else Links(s[1..])
  }

  /** How the cleaned text starts: with `|` in place of a separator run, else as `s` does. */
  lemma {:induction false} BodyHead(s: string)
    requires 0 < |s|
    ensures 0 < |Body(s)|
    ensures Body(s)[0] == if !LinkAt(s) && SepStart(s) then '|' else s[0]
  {
  }

  /** Text that does not start with a separator still does not once cleaned. */
  lemma {:induction false} BodyNoSep(s: string)
    requires !SepStart(s)
    ensures !SepStart(Body(s))
    ensures LinkAt(Body(s)) ==> LinkAt(s)
  {
    if 0 < |s| && !LinkAt(s) {
      if 1 < |s| {
        BodyHead(s[1..]);
        assert Body(s)[1] == Body(s[1..])[0];
      }
    }
  }

  /** A link at the start is copied, and cleaning goes on after it. */
  lemma BodyLink(s: string)
    requires LinkAt(s)
    ensures Body(s) == s[..LinkLen(s)] + Body(s[LinkLen(s)..])
    ensures LinkLen(s) == |s| || (LinkAt(Body(s)) && LinkLen(Body(s)) == LinkLen(s))
  {
    LinkLocal(s, Body(s[LinkLen(s)..]));
  }

  /** Cleaning twice is cleaning once: no run of separators is left outside links. */
  lemma {:induction false} BodyIdempotent(s: string)
    ensures Body(Body(s)) == Body(s)
    decreases |s|
  {
    if |s| == 0 {
    } else if LinkAt(s) {
      var k := LinkLen(s);
      BodyLink(s);
      BodyIdempotent(s[k..]);
      if k == |s| {
        assert s[..k] == s && s[k..] == "" && Body(s) == s;
      } else {
        var b := Body(s);
        assert b[..k] == s[..k] && b[k..] == Body(s[k..]);
      }
    } else if SepStart(s) {
      var t := s[SepRun(s)..];
      SepRunEnds(s);
      BodyNoSep(t);
      var b := Body(s);
      assert b == "|" + Body(t);
      assert !LinkAt(b) && SepRun(b) == 1 + SepRun(Body(t));
      assert b[SepRun(b)..] == Body(t);
      BodyIdempotent(t);
    } else {
      var t := s[1..];
      var b := Body(s);
      assert b == [s[0]] + Body(t);
      BodyNoSep(s);
      assert b[1..] == Body(t);
      BodyIdempotent(t);
    }
  }

  /**
   * Cleaning keeps the cells of a row, their number and their text: only the
   * separators between them change.
   */
  lemma {:induction false} BodyKeepsCells(s: string)
    ensures Segs(Body(s)) == Segs(s)
    decreases |s|
  {
    if |s| == 0 {
    } else if LinkAt(s) {
      var k := LinkLen(s);
      BodyLink(s);
      BodyKeepsCells(s[k..]);
      if k == |s| {
        assert s[..k] == s && s[k..] == "" && Body(s) == s;
      } else {
        var b := Body(s);
        assert b[..k] == s[..k] && b[k..] == Body(s[k..]);
      }
    } else if SepStart(s) {
      var t := s[SepRun(s)..];
      SepRunEnds(s);
      BodyNoSep(t);
      var b := Body(s);
      assert b == "|" + Body(t);
      assert !LinkAt(b) && SepRun(b) == 1 + SepRun(Body(t));
      assert b[SepRun(b)..] == Body(t);
      BodyKeepsCells(t);
    } else {
      var t := s[1..];
      var b := Body(s);
      assert b == [s[0]] + Body(t);
      BodyNoSep(s);
      assert b[1..] == Body(t);
      BodyKeepsCells(t);
    }
  }

  /** Text made of separators holds no link. */
  lemma {:induction false} LinksSkip(s: string, n: nat)
    requires n <= |s| && AllIn(s[..n], Bars)
    ensures Links(s) == Links(s[n..])
    decreases n
  {
    if 0 < n {
      assert s[0] in Bars;
      assert s[1..][..n - 1] == s[1..n];
      LinksSkip(s[1..], n - 1);
      assert s[1..][n - 1..] == s[n..];
    }
  }

  /** Links are copied as they are, in order: none is lost, changed or made. */
  lemma {:induction false} BodyKeepsLinks(s: string)
    ensures Links(Body(s)) == Links(s)
    decreases |s|
  {
    if |s| == 0 {
    } else if LinkAt(s) {
      var k := LinkLen(s);
      BodyLink(s);
      BodyKeepsLinks(s[k..]);
      if k == |s| {
        assert s[..k] == s && s[k..] == "" && Body(s) == s;
      } else {
        var b := Body(s);
        assert b[..k] == s[..k] && b[k..] == Body(s[k..]);
      }
    } else if SepStart(s) {
      var t := s[SepRun(s)..];
      SepRunEnds(s);
      LinksSkip(s, SepRun(s));
      var b := Body(s);
      assert b == "|" + Body(t);
      assert b[1..] == Body(t);
      BodyKeepsLinks(t);
    } else {
      var t := s[1..];
      var b := Body(s);
      assert b == [s[0]] + Body(t);
      BodyNoSep(s);
      assert b[1..] == Body(t);
      BodyKeepsLinks(t);
    }
  }

  // ---------------------------------------------------------------------------
  // The first separator of a row.

  /** A table row: a line that starts with the `L#` marker. */
  predicate IsRow(line: string) { 2 <= |line| && line[0] == 'L' && line[1] == '#' }

  /** A free-text row, `L#~`. */
  predicate Free(row: string) { 2 < |row| && row[2] == '~' }

  /**
   * A row with its separators cleaned. A free-text row and a line that is not
   * a row are left as they are.
   */
  function Tidy(line: string): string
  {
    if !IsRow(line) || Free(line) then line else "L#" + TidyCells(line[2..])
  }

  /**
   * The text after `L#`: the numbering token and the blanks after it are kept;
   * the run of `:` and `|` that follows becomes one `|`, or one `|` is put in
   * when the cells start at once; the rest is cleaned by `Body`. A row with
   * nothing after its token is left as it is.
   */
  function TidyCells(rest: string): string
  {
    if Gap(rest) == |rest| then rest else rest[..Gap(rest)] + "|" + Body(rest[CellsStart(rest)..])
  }

  /** Where the numbering token and the blanks after it end. */
  function Gap(rest: string): (n: nat)
    ensures n <= |rest|
  {
    Before(rest, Stops) + Within(rest[Before(rest, Stops)..], Blanks)
  }

  /** Where the first separator run after the token ends. */
  function CellsStart(rest: string): (n: nat)
    requires Gap(rest) < |rest|
    ensures Gap(rest) <= n <= |rest|
  {
    Gap(rest) + Within(rest[Gap(rest)..], Bars)
  }

  lemma TidyRow(rest: string)
    requires |rest| == 0 || rest[0] != '~'
    ensures Tidy("L#" + rest) == "L#" + TidyCells(rest)
  {
    assert ("L#" + rest)[2..] == rest;
  }

  lemma TidyOf(line: string)
    requires IsRow(line) && !Free(line)
    ensures line == "L#" + line[2..]
    ensures Tidy(line) == "L#" + TidyCells(line[2..])
  {
    assert line == line[..2] + line[2..];
  }

  lemma GapAt(rest: string, t: nat, w: nat)
    requires Before(rest, Stops) == t && t <= |rest| && t + Within(rest[t..], Blanks) == w
    ensures Gap(rest) == w
  {
  }

  lemma CellsStartAt(rest: string, w: nat, b: nat)
    requires Gap(rest) == w < |rest| && w + Within(rest[w..], Bars) == b
    ensures CellsStart(rest) == b
  {
  }

  lemma TidyCellsAt(rest: string, w: nat, b: nat)
    requires Gap(rest) == w < |rest| && CellsStart(rest) == b
    ensures TidyCells(rest) == rest[..w] + "|" + Body(rest[b..])
  {
  }

  /** Where the token, the blanks and the first separator run end in `tok` + `blanks` + `lead` + `x`. */
  lemma TidyCellsCut(tok: string, blanks: string, lead: string, x: string)
    requires Avoids(tok, Stops)
    requires AllIn(blanks, Blanks) && AllIn(lead, Bars)
    requires 0 < |blanks| + |lead| && 0 < |lead| + |x|
    requires |x| == 0 || (x[0] !in Bars && (|lead| == 0 ==> x[0] !in Blanks))
    ensures var rest := tok + blanks + lead + x;
      Before(rest, Stops) == |tok| && Within(rest[|tok|..], Blanks) == |blanks| &&
      Within(rest[|tok| + |blanks|..], Bars) == |lead| &&
      rest[..|tok| + |blanks|] == tok + blanks && rest[|tok| + |blanks| + |lead|..] == x
  {
    var rest := tok + blanks + lead + x;
    var v := lead + x;
    var u := blanks + v;
    assert rest == tok + u && rest == (tok + blanks) + v && rest == (tok + blanks + lead) + x;
    assert u[0] in Stops;
    BeforeAt(tok, Stops, u);
    Cut(tok, u);
    WithinAt(blanks, Blanks, v);
    Cut(tok + blanks, v);
    WithinAt(lead, Bars, x);
    Cut(tok + blanks + lead, x);
  }

  lemma Cut(p: string, q: string)
    ensures (p + q)[..|p|] == p && (p + q)[|p|..] == q
  {
  }

  /**
   * The text `tok` + `blanks` + `lead` + `x` after `L#`, where `lead` is the
   * first separator run (possibly empty) and `x` the cells after it.
   */
  lemma TidyCellsIs(tok: string, blanks: string, lead: string, x: string)
    requires Avoids(tok, Stops)
    requires AllIn(blanks, Blanks) && AllIn(lead, Bars)
    requires 0 < |blanks| + |lead| && 0 < |lead| + |x|
    requires |x| == 0 || (x[0] !in Bars && (|lead| == 0 ==> x[0] !in Blanks))
    ensures TidyCells(tok + blanks + lead + x) == tok + blanks + "|" + Body(x)
  {
    var rest := tok + blanks + lead + x;
    var w := |tok| + |blanks|;
    TidyCellsCut(tok, blanks, lead, x);
    GapAt(rest, |tok|, w);
    CellsStartAt(rest, w, w + |lead|);
    TidyCellsAt(rest, w, w + |lead|);
  }

  /** The row `L#` + `tok` + `blanks` + `lead` + `x`, read as in `TidyCellsIs`. */
  lemma TidyIs(tok: string, blanks: string, lead: string, x: string)
    requires Avoids(tok, Stops) && (0 < |tok| ==> tok[0] != '~')
    requires AllIn(blanks, Blanks) && AllIn(lead, Bars)
    requires 0 < |blanks| + |lead| && 0 < |lead| + |x|
    requires |x| == 0 || (x[0] !in Bars && (|lead| == 0 ==> x[0] !in Blanks))
    ensures Tidy("L#" + tok + blanks + lead + x) == "L#" + tok + blanks + "|" + Body(x)
  {
    var rest := tok + blanks + lead + x;
    TidyCellsIs(tok, blanks, lead, x);
    FirstOfFour(tok, blanks, lead, x);
    TidyRow(rest);
    Associate(tok, blanks, lead, x);
    Associate(tok, blanks, "|", Body(x));
  }

  /** The first character of `tok` + `blanks` + `lead` + `x` is not `~`. */
  lemma FirstOfFour(tok: string, blanks: string, lead: string, x: string)
    requires (0 < |tok| ==> tok[0] != '~') && AllIn(blanks, Blanks) && AllIn(lead, Bars)
    requires 0 < |blanks| + |lead|
    ensures 0 < |tok + blanks + lead + x| && (tok + blanks + lead + x)[0] != '~'
  {
    var rest := tok + blanks + lead + x;
    assert rest == tok + (blanks + (lead + x));
    if 0 < |tok| {
      assert rest[0] == tok[0];
    } else if 0 < |blanks| {
      assert rest[0] == blanks[0] && blanks[0] in Blanks;
    } else {
      assert rest[0] == lead[0] && lead[0] in Bars;
    }
  }

  lemma Associate(a: string, b: string, c: string, d: string)
    ensures "L#" + a + b + c + d == "L#" + (a + b + c + d)
  {
  }

  lemma SliceSplit(s: string, i: nat, j: nat)
    requires i <= j <= |s|
    ensures s[..j] == s[..i] + s[i..j]
  {
  }

  lemma WithinEnd(s: string, i: nat, cs: set<char>)
    requires i <= |s|
    ensures i + Within(s[i..], cs) == |s| || s[i + Within(s[i..], cs)..][0] !in cs
  {
    var n := Within(s[i..], cs);
    if i + n < |s| {
      assert s[i + n..][0] == s[i..][n];
    }
  }

  lemma WithinSlice(s: string, i: nat, cs: set<char>)
    requires i <= |s|
    ensures AllIn(s[i..i + Within(s[i..], cs)], cs)
  {
    WithinAll(s[i..], cs);
    assert s[i..][..Within(s[i..], cs)] == s[i..i + Within(s[i..], cs)];
  }

  /** The cleaned text after `L#` starts with the same token, and with the same character or `|`. */
  lemma TidyCellsHead(rest: string)
    ensures Before(rest, Stops) <= |TidyCells(rest)|
    ensures TidyCells(rest)[..Before(rest, Stops)] == rest[..Before(rest, Stops)]
    ensures 0 < |rest| ==> 0 < |TidyCells(rest)| && (TidyCells(rest)[0] == rest[0] || TidyCells(rest)[0] == '|')
  {
    if Gap(rest) < |rest| {
      TidyCellsAt(rest, Gap(rest), CellsStart(rest));
    }
  }

  /** The cleaned row keeps its marker and its numbering token, and stays a row of the same kind. */
  lemma TidyKeepsToken(line: string)
    requires IsRow(line)
    ensures StartsWith(Tidy(line), line[..2 + Before(line[2..], Stops)])
    ensures IsRow(Tidy(line)) && Free(Tidy(line)) == Free(line)
  {
    if !Free(line) {
      var rest := line[2..];
      var t := Before(rest, Stops);
      TidyOf(line);
      TidyCellsHead(rest);
      var c := TidyCells(rest);
      HeadSlice("L#", c, t);
      HeadSlice("L#", rest, t);
      if 0 < |rest| {
        ThirdOf(c);
        ThirdOf(rest);
      }
    }
  }

  lemma HeadSlice(h: string, c: string, t: nat)
    requires t <= |c|
    ensures (h + c)[..|h| + t] == h + c[..t]
  {
  }

  lemma ThirdOf(c: string)
    requires 0 < |c|
    ensures ("L#" + c)[2] == c[0]
  {
  }

  /** The cleaned text after `L#`, in the pieces `TidyIs` reads. */
  lemma TidyCellsParts(rest: string) returns (tok: string, blanks: string, x: string)
    requires Gap(rest) < |rest|
    ensures TidyCells(rest) == tok + blanks + "|" + Body(x)
    ensures Avoids(tok, Stops) && (0 < |tok| ==> tok[0] == rest[0]) && AllIn(blanks, Blanks)
    ensures |x| == 0 || x[0] !in Bars
  {
    var t := Before(rest, Stops);
    var w := Gap(rest);
    x := rest[CellsStart(rest)..];
    TidyCellsAt(rest, w, CellsStart(rest));
    BeforeAvoids(rest, Stops);
    WithinSlice(rest, t, Blanks);
    SliceSplit(rest, t, w);
    WithinEnd(rest, w, Bars);
    tok := rest[..t];
    blanks := rest[t..w];
  }

  /** Cleaning a row twice is cleaning it once. */
  lemma TidyIdempotent(line: string)
    ensures Tidy(Tidy(line)) == Tidy(line)
  {
    if IsRow(line) && !Free(line) {
      var rest := line[2..];
      TidyOf(line);
      if Gap(rest) < |rest| {
        var tok, blanks, x := TidyCellsParts(rest);
        if 0 < |x| {
          BodyHead(x);
        }
        TidyIs(tok, blanks, "|", Body(x));
        BodyIdempotent(x);
        Associate(tok, blanks, "|", Body(x));
      }
    }
  }

  // ---------------------------------------------------------------------------
  // Continuation lines.

  /** A line that starts something of its own: a heading, or a marker such as `L#` or `R#`. */
  predicate StartsBlock(line: string) { (0 < |line| && line[0] == '#') || (1 < |line| && line[1] == '#') }

  predicate IsBlankLine(line: string) { AllIn(line, Blanks) }

  /** A line that continues the row above it. */
  predicate Continues(line: string) { !IsBlankLine(line) && !StartsBlock(line) }

  /** The row with the next line joined to it. */
  function Glue(row: string, line: string): string
  {
    if !Free(row) && ((0 < |row| && row[|row| - 1] == '|') || (0 < |line| && line[0] == '|')) then row + line
    else row + "<br>" + line
  }

  /** Joining a line keeps the row, and the row's kind. */
  lemma GlueKeepsRow(row: string, line: string)
    requires IsRow(row)
    ensures StartsWith(Glue(row, line), row)
    ensures IsRow(Glue(row, line)) && Free(Glue(row, line)) == Free(row)
  {
    var g := Glue(row, line);
    assert g[..|row|] == row;
    if |row| == 2 {
      assert g[2] == (if g == row + line then line[0] else '<');
    }
  }

  /** The lines with every continuation line joined to its row. */
  function Merge(ls: seq<string>): (r: seq<string>)
    ensures |r| <= |ls| && (0 < |ls| ==> 0 < |r|)
    decreases |ls|, 0
  {
    if |ls| == 0 then []
    else if IsRow(ls[0]) then MergeRow(ls[0], ls[1..])
    else [ls[0]] + Merge(ls[1..])
  }

  /** `row` with the continuation lines at the head of `rest` joined to it, then the other lines. */
  function MergeRow(row: string, rest: seq<string>): (r: seq<string>)
    ensures 0 < |r| <= |rest| + 1
    decreases |rest|, 1
  {
    if 0 < |rest| && Continues(rest[0]) then MergeRow(Glue(row, rest[0]), rest[1..])
    else [row] + Merge(rest)
  }

  /** No row is followed by a line that would continue it. */
  predicate Merged(ls: seq<string>)
  {
    forall k :: 0 <= k < |ls| - 1 ==> IsRow(ls[k]) ==> !Continues(ls[k + 1])
  }

  /** The first merged line is a row exactly when the first line is, and continues nothing then. */
  lemma {:induction false} MergeFirst(ls: seq<string>)
    requires 0 < |ls|
    ensures IsRow(Merge(ls)[0]) == IsRow(ls[0])
    ensures !IsRow(ls[0]) ==> Merge(ls)[0] == ls[0]
  {
    if IsRow(ls[0]) {
      MergeRowFirst(ls[0], ls[1..]);
    }
  }

  lemma {:induction false} MergeRowFirst(row: string, rest: seq<string>)
    requires IsRow(row)
    ensures IsRow(MergeRow(row, rest)[0])
    decreases |rest|
  {
    if 0 < |rest| && Continues(rest[0]) {
      GlueKeepsRow(row, rest[0]);
      MergeRowFirst(Glue(row, rest[0]), rest[1..]);
    }
  }

  /** After merging, no row is followed by a line that would continue it. */
  lemma {:induction false} MergeMerged(ls: seq<string>)
    ensures Merged(Merge(ls))
    decreases |ls|, 0
  {
    if 0 < |ls| {
      if IsRow(ls[0]) {
        MergeRowMerged(ls[0], ls[1..]);
      } else {
        MergeMerged(ls[1..]);
        var r := Merge(ls[1..]);
        assert Merge(ls) == [ls[0]] + r;
      }
    }
  }

  lemma {:induction false} MergeRowMerged(row: string, rest: seq<string>)
    ensures Merged(MergeRow(row, rest))
    decreases |rest|, 1
  {
    if 0 < |rest| && Continues(rest[0]) {
      MergeRowMerged(Glue(row, rest[0]), rest[1..]);
    } else {
      MergeMerged(rest);
      var r := Merge(rest);
      if 0 < |rest| {
        MergeFirst(rest);
        assert !Continues(r[0]);
      }
      forall k | 0 <= k < |r| ensures ([row] + r)[k + 1] == r[k] {
      }
    }
  }

  /** Lines already merged are left as they are. */
  lemma {:induction false} MergeOfMerged(ls: seq<string>)
    requires Merged(ls)
    ensures Merge(ls) == ls
    decreases |ls|
  {
    if 0 < |ls| {
      var rest := ls[1..];
      assert Merged(rest) by {
        forall k | 0 <= k < |rest| - 1 ensures IsRow(rest[k]) ==> !Continues(rest[k + 1]) {
          assert rest[k] == ls[k + 1] && rest[k + 1] == ls[k + 2];
        }
      }
      MergeOfMerged(rest);
      if IsRow(ls[0]) && 0 < |rest| {
        assert !Continues(ls[1]);
      }
      assert ls == [ls[0]] + rest;
    }
  }

  lemma MergeIdempotent(ls: seq<string>)
    ensures Merge(Merge(ls)) == Merge(ls)
  {
    MergeMerged(ls);
    MergeOfMerged(Merge(ls));
  }

  // ---------------------------------------------------------------------------
  // The whole text.

  /** Every row cleaned, the other lines as they are. */
  function Tidied(ls: seq<string>): (r: seq<string>)
    ensures |r| == |ls|
  {
    seq(|ls|, k requires 0 <= k < |ls| => Tidy(ls[k]))
  }

  function Clean(ls: seq<string>): seq<string>
  {
    Tidied(Merge(ls))
  }

  /** The cleaner: continuation lines joined to their rows, then every row's separators cleaned. */
  function Modify(s: string): string
  {
    Join(Clean(Lines(s)))
  }

  /** Cleaning adds no character other than `|`. */
  lemma {:induction false} BodyAvoids(s: string, c: char)
    requires c != '|' && Avoids(s, {c})
    ensures Avoids(Body(s), {c})
    decreases |s|
  {
    if |s| == 0 {
    } else if LinkAt(s) {
      var k := LinkLen(s);
      BodyAvoids(s[k..], c);
      AvoidsAppend(s[..k], Body(s[k..]), {c});
    } else if SepStart(s) {
      BodyAvoids(s[SepRun(s)..], c);
      AvoidsAppend("|", Body(s[SepRun(s)..]), {c});
    } else {
      BodyAvoids(s[1..], c);
      AvoidsAppend([s[0]], Body(s[1..]), {c});
    }
  }

  lemma TidyCellsAvoids(rest: string, c: char)
    requires c != '|' && Avoids(rest, {c})
    ensures Avoids(TidyCells(rest), {c})
  {
    if Gap(rest) < |rest| {
      var w := Gap(rest);
      var x := rest[CellsStart(rest)..];
      TidyCellsAt(rest, w, CellsStart(rest));
      AvoidsSlices(rest, w, CellsStart(rest), {c});
      BodyAvoids(x, c);
      AvoidsAppend(rest[..w], "|", {c});
      AvoidsAppend(rest[..w] + "|", Body(x), {c});
    }
  }

  lemma AvoidsSlices(s: string, i: nat, j: nat, cs: set<char>)
    requires i <= |s| && j <= |s| && Avoids(s, cs)
    ensures Avoids(s[..i], cs) && Avoids(s[j..], cs)
  {
    assert forall k :: 0 <= k < |s[j..]| ==> s[j..][k] == s[j + k];
  }

  lemma TidyOneLine(line: string)
    requires OneLine(line)
    ensures OneLine(Tidy(line))
  {
    if IsRow(line) && !Free(line) {
      TidyOf(line);
      AvoidsSlices(line, 0, 2, {'\n'});
      TidyCellsAvoids(line[2..], '\n');
      AvoidsAppend("L#", TidyCells(line[2..]), {'\n'});
    }
  }

  lemma {:induction false} MergeOneLine(ls: seq<string>)
    requires AllOneLine(ls)
    ensures AllOneLine(Merge(ls))
    decreases |ls|, 0
  {
    if 0 < |ls| {
      assert OneLine(ls[0]);
      if IsRow(ls[0]) {
        MergeRowOneLine(ls[0], ls[1..]);
      } else {
        MergeOneLine(ls[1..]);
      }
    }
  }

  lemma {:induction false} MergeRowOneLine(row: string, rest: seq<string>)
    requires OneLine(row) && AllOneLine(rest)
    ensures AllOneLine(MergeRow(row, rest))
    decreases |rest|, 1
  {
    if 0 < |rest| && Continues(rest[0]) {
      assert OneLine(rest[0]);
      AvoidsAppend(row, "<br>", {'\n'});
      AvoidsAppend(row, rest[0], {'\n'});
      AvoidsAppend(row + "<br>", rest[0], {'\n'});
      MergeRowOneLine(Glue(row, rest[0]), rest[1..]);
    } else {
      MergeOneLine(rest);
    }
  }

  lemma CleanOneLine(ls: seq<string>)
    requires AllOneLine(ls)
    ensures AllOneLine(Clean(ls))
  {
    MergeOneLine(ls);
    var m := Merge(ls);
    forall k | 0 <= k < |m| ensures OneLine(Clean(ls)[k]) {
      assert OneLine(m[k]);
      TidyOneLine(m[k]);
    }
  }

  /** A cleaned row is still a row, and a line that is not a row is left as it is. */
  lemma TidyKind(line: string)
    ensures IsRow(Tidy(line)) == IsRow(line)
    ensures !IsRow(line) ==> Tidy(line) == line
  {
    if IsRow(line) {
      TidyKeepsToken(line);
    }
  }

  lemma TidiedMerged(ls: seq<string>)
    requires Merged(ls)
    ensures Merged(Tidied(ls))
  {
    var r := Tidied(ls);
    forall k | 0 <= k < |r| - 1 && IsRow(r[k]) ensures !Continues(r[k + 1]) {
      TidyKind(ls[k]);
      TidyKind(ls[k + 1]);
      assert !Continues(ls[k + 1]);
    }
  }

  /** No line that continues a row is left after cleaning. */
  lemma CleanMerged(ls: seq<string>)
    ensures Merged(Clean(ls))
  {
    MergeMerged(ls);
    TidiedMerged(Merge(ls));
  }

  /** Cleaning the lines twice is cleaning them once. */
  lemma CleanIdempotent(ls: seq<string>)
    ensures Clean(Clean(ls)) == Clean(ls)
  {
    var c := Clean(ls);
    CleanMerged(ls);
    MergeOfMerged(c);
    forall k | 0 <= k < |c| ensures Tidy(c[k]) == c[k] {
      TidyIdempotent(Merge(ls)[k]);
    }
  }

  /** The cleaner applied to lines put together. */
  lemma ModifyJoin(ls: seq<string>)
    requires 0 < |ls| && AllOneLine(ls)
    ensures Modify(Join(ls)) == Join(Clean(ls))
  {
    LinesJoin(ls);
  }

  /** Cleaning a text twice is cleaning it once. */
  lemma ModifyIdempotent(s: string)
    ensures Modify(Modify(s)) == Modify(s)
  {
    var ls := Lines(s);
    LinesAreLines(s);
    CleanOneLine(ls);
    ModifyJoin(Clean(ls));
    CleanIdempotent(ls);
  }

  /** A text with no `L#` row is left as it is. */
  lemma ModifyWithoutRows(s: string)
    requires forall k :: 0 <= k < |Lines(s)| ==> !IsRow(Lines(s)[k])
    ensures Modify(s) == s
  {
    var ls := Lines(s);
    MergeWithoutRows(ls);
    forall k | 0 <= k < |ls| ensures Tidy(ls[k]) == ls[k] {
    }
    assert Tidied(ls) == ls;
    JoinLines(s);
  }

  lemma {:induction false} MergeWithoutRows(ls: seq<string>)
    requires forall k :: 0 <= k < |ls| ==> !IsRow(ls[k])
    ensures Merge(ls) == ls
    decreases |ls|
  {
    if 0 < |ls| {
      assert !IsRow(ls[0]);
      MergeWithoutRows(ls[1..]);
      assert ls == [ls[0]] + ls[1..];
    }
  }

  // ---------------------------------------------------------------------------
  // Reading the examples of tests/test_processors.py step by step.

  /** A numbering postfix of the examples: it ends at no separator, breaks no line, and is not `~`. */
  predicate Postfix(p: string) { Avoids(p, Stops) && Avoids(p, {'\n'}) && (0 < |p| ==> p[0] != '~') }

  /** The postfixes every example is run with. */
  const ListedPostfixes: seq<string> :=
    ["", "12", "+3", "+", "-25", "-+2", "+2-+1", "bis", "bis2", "*5bis", "+5bis", "_", "+bis",
     "''", "+''", "!", "2!", "+2!", "="]

  lemma ListedArePostfixes()
    ensures forall k :: 0 <= k < |ListedPostfixes| ==> Postfix(ListedPostfixes[k])
  {
  }

  lemma MergeRowGlue(row: string, line: string, rest: seq<string>)
    requires Continues(line)
    ensures MergeRow(row, [line] + rest) == MergeRow(Glue(row, line), rest)
  {
    assert ([line] + rest)[1..] == rest;
  }

  lemma MergeRowStop(row: string, rest: seq<string>)
    requires |rest| == 0 || !Continues(rest[0])
    ensures MergeRow(row, rest) == [row] + Merge(rest)
  {
  }

  lemma MergeRowStart(row: string, rest: seq<string>)
    requires IsRow(row)
    ensures Merge([row] + rest) == MergeRow(row, rest)
  {
    assert ([row] + rest)[1..] == rest;
  }

  lemma MergeLine(line: string, rest: seq<string>)
    requires !IsRow(line)
    ensures Merge([line] + rest) == [line] + Merge(rest)
  {
    assert ([line] + rest)[1..] == rest;
  }

  lemma TidiedCons(line: string, rest: seq<string>)
    ensures Tidied([line] + rest) == [Tidy(line)] + Tidied(rest)
  {
    assert ([line] + rest)[1..] == rest;
  }

  /** A line that is not a numbered row is left as it is. */
  lemma TidyPlain(line: string)
    requires !IsRow(line) || Free(line)
    ensures Tidy(line) == line
  {
  }

  /** The row `L#` + `p` + `a` is a numbered row. */
  lemma PostfixRow(p: string, a: string)
    requires Postfix(p) && 0 < |a| && a[0] != '~'
    ensures IsRow("L#" + p + a) && !Free("L#" + p + a)
  {
    var row := "L#" + p + a;
    assert row[2] == if 0 < |p| then p[0] else a[0];
  }

  lemma PostfixLine(p: string, a: string)
    requires Postfix(p) && OneLine(a)
    ensures OneLine("L#" + p + a)
  {
    AvoidsAppend("L#", p, {'\n'});
    AvoidsAppend("L#" + p, a, {'\n'});
  }

  /** Joining `line` to the row `L#` + `p` + `a`. */
  lemma GlueIs(p: string, a: string, line: string, g: string)
    requires Postfix(p) && 0 < |a| && a[0] != '~'
    requires g == if a[|a| - 1] == '|' || (0 < |line| && line[0] == '|') then a + line else a + "<br>" + line
    ensures Glue("L#" + p + a, line) == "L#" + p + g
  {
    PostfixRow(p, a);
    LastOf("L#" + p, a);
    if a[|a| - 1] == '|' || (0 < |line| && line[0] == '|') {
      RegroupTwo(p, a, line, g);
    } else {
      Regroup(p, a, "<br>", line, g);
    }
  }

  lemma LastOf(h: string, a: string)
    requires 0 < |a|
    ensures (h + a)[|h + a| - 1] == a[|a| - 1]
  {
  }

  lemma Regroup(p: string, u: string, v: string, w: string, a: string)
    requires a == u + v + w
    ensures "L#" + p + u + v + w == "L#" + p + a
  {
  }

  lemma RegroupTwo(p: string, u: string, v: string, a: string)
    requires a == u + v
    ensures "L#" + p + u + v == "L#" + p + a
  {
  }

  /** Text with no `|` and no `[`, whose every `:` is followed by a character other than `:`: cleaning copies it. */
  predicate Still(a: string)
  {
    |a| == 0 || (a[0] != '|' && a[0] != '[' && (a[0] == ':' ==> 1 < |a| && a[1] != ':') && Still(a[1..]))
  }

  lemma {:induction false} BodyStill(a: string, b: string)
    requires Still(a)
    ensures Body(a + b) == a + Body(b)
    decreases |a|
  {
    if |a| == 0 {
      assert a + b == b;
    } else {
      StillHead(a, b);
      BodyStill(a[1..], b);
      ConsSplit(a, b);
      ConsSplit(a, Body(b));
    }
  }

  lemma StillHead(a: string, b: string)
    requires Still(a) && 0 < |a|
    ensures Body(a + b) == [a[0]] + Body((a + b)[1..])
  {
    var s := a + b;
    assert s[0] == a[0] && (1 < |a| ==> s[1] == a[1]);
  }

  lemma ConsSplit(a: string, r: string)
    requires 0 < |a|
    ensures (a + r)[1..] == a[1..] + r && [a[0]] + (a[1..] + r) == a + r
  {
  }

  lemma {:induction false} SepRunAppend(sep: string, b: string)
    requires SepRun(sep) == |sep| && !SepStart(b)
    ensures SepRun(sep + b) == |sep|
    decreases |sep|
  {
    var s := sep + b;
    if |sep| == 0 {
      assert s == b;
    } else if sep[0] == '|' {
      assert s[1..] == sep[1..] + b;
      SepRunAppend(sep[1..], b);
    } else {
      assert 1 < |sep| && sep[1] == ':';
      assert s[2..] == sep[2..] + b;
      SepRunAppend(sep[2..], b);
    }
  }

  lemma BodySep(sep: string, b: string)
    requires 0 < |sep| && SepRun(sep) == |sep| && !SepStart(b)
    ensures Body(sep + b) == "|" + Body(b)
  {
    SepRunAppend(sep, b);
    var s := sep + b;
    assert s[0] == sep[0] && (1 < |sep| ==> s[1] == sep[1]);
    assert s[|sep|..] == b;
  }

  /** Text holding no `]]` and not ending with `]`: the `]]` after it closes the link. */
  predicate Unclosed(u: string)
  {
    (forall k :: 0 <= k < |u| - 1 ==> !(u[k] == ']' && u[k + 1] == ']')) && (|u| == 0 || u[|u| - 1] != ']')
  }

  lemma {:induction false} CloseAfter(u: string, r: string)
    requires Unclosed(u)
    ensures Close(u + ("]]" + r)) == |u| + 2
    decreases |u|
  {
    var s := u + ("]]" + r);
    if |u| == 0 {
      assert s[0] == ']' && s[1] == ']';
    } else {
      assert s[0] == u[0] && s[1] == (if 1 < |u| then u[1] else ']');
      assert s[1..] == u[1..] + ("]]" + r);
      var t := u[1..];
      assert Unclosed(t) by {
        forall k | 0 <= k < |t| - 1 ensures !(t[k] == ']' && t[k + 1] == ']') {
          assert t[k] == u[k + 1] && t[k + 1] == u[k + 2];
        }
      }
      CloseAfter(t, r);
    }
  }

  /** The link `[[` + `u` + `]]` is copied and cleaning goes on after it. */
  lemma BodyLinkThen(u: string, r: string)
    requires Unclosed(u)
    ensures Body("[[" + u + "]]" + r) == "[[" + u + "]]" + Body(r)
  {
    var l := "[[" + u + "]]";
    var s := l + r;
    assert s[2..] == u + ("]]" + r);
    CloseAfter(u, r);
    assert LinkAt(s) && LinkLen(s) == |l|;
    assert s[..|l|] == l && s[|l|..] == r;
  }

  /**
   * The cells of a row as the examples write them, read from the end: the
   * first text, then cells each brought in by a run of separators or by an
   * internal link.
   */
  datatype Cells = First(text: string) | Cell(init: Cells, sep: string, text: string) | Linked(init: Cells, link: string, text: string)

  /** The cells as written. */
  function Written(cs: Cells): string
  {
    match cs
    case First(t) => t
    case Cell(i, s, t) => Written(i) + (s + t)
    case Linked(i, l, t) => Written(i) + ("[[" + l + "]]" + t)
  }

  /** The cells with one bar between two of them. */
  function Barred(cs: Cells): string
  {
    match cs
    case First(t) => t
    case Cell(i, _, t) => Barred(i) + ("|" + t)
    case Linked(i, l, t) => Barred(i) + ("[[" + l + "]]" + t)
  }

  /** The first text. */
  function Front(cs: Cells): string
  {
    match cs
    case First(t) => t
    case Cell(i, _, _) => Front(i)
    case Linked(i, _, _) => Front(i)
  }

  /** The cells with another first text. */
  function WithFront(cs: Cells, u: string): (r: Cells)
    ensures Front(r) == u
  {
    match cs
    case First(_) => First(u)
    case Cell(i, s, t) => Cell(WithFront(i, u), s, t)
    case Linked(i, l, t) => Linked(WithFront(i, u), l, t)
  }

  lemma {:induction false} WithFrontSame(cs: Cells)
    ensures WithFront(cs, Front(cs)) == cs
  {
    match cs
    case First(_) =>
    case Cell(i, _, _) => WithFrontSame(i);
    case Linked(i, _, _) => WithFrontSame(i);
  }


  /** Text put before the first text comes first when written. */
  lemma {:induction false} FrontWritten(cs: Cells, u: string, v: string)
    ensures Written(WithFront(cs, u + v)) == u + Written(WithFront(cs, v))
  {
    match cs
    case First(_) =>
    case Cell(i, s, t) =>
      FrontWritten(i, u, v);
      Lead(u, Written(WithFront(i, v)), s + t);
    case Linked(i, l, t) =>
      FrontWritten(i, u, v);
      Lead(u, Written(WithFront(i, v)), "[[" + l + "]]" + t);
  }

  /** Text put before the first text comes first when barred. */
  lemma {:induction false} FrontBarred(cs: Cells, u: string, v: string)
    ensures Barred(WithFront(cs, u + v)) == u + Barred(WithFront(cs, v))
  {
    match cs
    case First(_) =>
    case Cell(i, s, t) =>
      FrontBarred(i, u, v);
      Lead(u, Barred(WithFront(i, v)), "|" + t);
    case Linked(i, l, t) =>
      FrontBarred(i, u, v);
      Lead(u, Barred(WithFront(i, v)), "[[" + l + "]]" + t);
  }

  /** A whole run of separators. */
  predicate IsRun(sep: string) { 0 < |sep| && SepRun(sep) == |sep| }

  /**
   * Every text is copied by cleaning, every separator run is whole (it does
   * not follow another one at once), every link is closed by its `]]`.
   */
  predicate Separated(cs: Cells)
  {
    match cs
    case First(t) => Still(t)
    case Cell(i, s, t) => Separated(i) && !(i.Cell? && |i.text| == 0) && IsRun(s) && Still(t)
    case Linked(i, l, t) => Separated(i) && Unclosed(l) && Still(t)
  }

  /** Text copied by cleaning does not start a separator run when what follows it does not. */
  lemma StillNoSep(t: string, r: string)
    requires Still(t) && (|t| == 0 ==> !SepStart(r))
    ensures !SepStart(t + r)
  {
    if 0 < |t| {
      assert (t + r)[0] == t[0] && (1 < |t| ==> (t + r)[1] == t[1]);
    } else {
      assert t + r == r;
    }
  }

  /** Cleaning cells and what follows them: one bar between two cells, the rest copied. */
  lemma {:induction false} BodyCellsThen(cs: Cells, r: string)
    requires Separated(cs) && (cs.Cell? && |cs.text| == 0 ==> !SepStart(r))
    ensures Body(Written(cs) + r) == Barred(cs) + Body(r)
  {
    match cs
    case First(t) =>
      BodyStill(t, r);
    case Cell(i, s, t) =>
      var r2 := s + (t + r);
      Lead(Written(i), s + t, r);
      Lead(s, t, r);
      BodyCellsThen(i, r2);
      BodySepStill(s, t, r);
      Lead(Barred(i), "|" + t, Body(r));
      Lead("|", t, Body(r));
    case Linked(i, l, t) =>
      var r2 := "[[" + l + "]]" + (t + r);
      Lead(Written(i), "[[" + l + "]]" + t, r);
      Lead("[[" + l + "]]", t, r);
      assert r2[0] == '[';
      BodyCellsThen(i, r2);
      BodyLinkThen(l, t + r);
      BodyStill(t, r);
      Lead(Barred(i), "[[" + l + "]]" + t, Body(r));
      Lead("[[" + l + "]]", t, Body(r));
  }

  /** A separator run, then text copied by cleaning. */
  lemma BodySepStill(s: string, t: string, r: string)
    requires IsRun(s) && Still(t) && (|t| == 0 ==> !SepStart(r))
    ensures Body(s + (t + r)) == "|" + (t + Body(r))
  {
    StillNoSep(t, r);
    BodySep(s, t + r);
    BodyStill(t, r);
  }

  /** Cleaning cells written with separator runs puts one bar between two cells and copies the rest. */
  lemma BodyCells(cs: Cells)
    requires Separated(cs)
    ensures Body(Written(cs)) == Barred(cs)
  {
    BodyCellsThen(cs, "");
    assert Written(cs) + "" == Written(cs) && Barred(cs) + "" == Barred(cs);
  }

  /** Written cells start with the first text. */
  lemma {:induction false} FrontStarts(cs: Cells)
    requires 0 < |Front(cs)|
    ensures 0 < |Written(cs)| && Written(cs)[0] == Front(cs)[0]
  {
    match cs
    case First(_) =>
    case Cell(i, s, t) => FrontStarts(i);
    case Linked(i, l, t) => FrontStarts(i);
  }

  /** A numbered row with postfix `p`: `blanks`, the first separator run `lead`, then cells. */
  lemma TidyPostfix(p: string, blanks: string, lead: string, cs: Cells, a: string, out: string)
    requires Postfix(p) && Separated(cs)
    requires 0 < |Front(cs)| && Front(cs)[0] !in Bars && (|lead| == 0 ==> Front(cs)[0] !in Blanks)
    requires AllIn(blanks, Blanks) && AllIn(lead, Bars) && 0 < |blanks| + |lead|
    requires a == Written(WithFront(cs, blanks + lead + Front(cs)))
    requires out == Barred(WithFront(cs, blanks + "|" + Front(cs)))
    ensures Tidy("L#" + p + a) == "L#" + p + out
  {
    var f := Front(cs);
    WithFrontSame(cs);
    FrontWritten(cs, blanks + lead, f);
    FrontBarred(cs, blanks + "|", f);
    FrontStarts(cs);
    BodyCells(cs);
    TidyRowIs(p, blanks, lead, Written(cs), a, out);
  }

  lemma TidyRowIs(p: string, blanks: string, lead: string, x: string, a: string, out: string)
    requires Postfix(p) && a == blanks + lead + x && out == blanks + "|" + Body(x)
    requires 0 < |x| && x[0] !in Bars && (|lead| == 0 ==> x[0] !in Blanks)
    requires AllIn(blanks, Blanks) && AllIn(lead, Bars) && 0 < |blanks| + |lead|
    ensures Tidy("L#" + p + a) == "L#" + p + out
  {
    TidyIs(p, blanks, lead, x);
    Regroup(p, blanks, lead, x, a);
    Regroup(p, blanks, "|", Body(x), out);
  }
}
