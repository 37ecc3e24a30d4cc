/**
 * The row-numbering migrator of the `L#` tables. Each `L#` marker is
 * followed by a numbering token; the migrator walks the text left to right,
 * carrying the number of the previous row, and writes every relative token as
 * the absolute number (or range) it stands for:
 *
 *   - nothing, `+` and `+N` give the previous number plus 1, 1 and N;
 *   - `-+N` and `+A-+N` give the range from that number to N more;
 *   - digits give that number, and are left as written;
 *   - `=` starts a new table (the next row is 1 again), `~` and `bis` leave
 *     the number alone; all three are left as written.
 *
 * A relative token after a `bis` marker of the same table cannot be resolved:
 * the text is then left as it is.
 */
module LtagMigrator {
  import opened Wrappers
  import opened Text

  // ---------------------------------------------------------------------------
  // Numbers.

  function DigitValue(c: char): nat
  {
    if IsDigit(c) then c as int - '0' as int else 0
  }

  /** The number a string of digits stands for. */
  function Value(d: string): nat
    decreases |d|
  {
    if |d| == 0 then 0 else 10 * Value(d[..|d| - 1]) + DigitValue(d[|d| - 1])
  }

  function Digit(k: nat): (c: char)
    requires k < 10
    ensures IsDigit(c) && DigitValue(c) == k
  {
    ('0' as int + k) as char
  }

  /** The decimal form of `n`. */
  function Str(n: nat): (r: string)
    ensures 0 < |r| && AllDigits(r)
    decreases n
  {
    if n < 10 then [Digit(n)] else Str(n / 10) + [Digit(n % 10)]
  }

  /** A written number reads back as the same number. */
  lemma {:induction false} ValueStr(n: nat)
    ensures Value(Str(n)) == n
    decreases n
  {
    if 10 <= n {
      var a := Str(n / 10);
      ValueStr(n / 10);
      assert (a + [Digit(n % 10)])[..|a|] == a;
    }
  }

  // ---------------------------------------------------------------------------
  // Tokens.

  datatype Token =
    | Reset                                   // `=`
    | Free                                    // `~`
    | Repeat                                  // `bis`
    | Absolute(digits: string)                // `12`
    | Relative(step: nat, span: Option<nat>)  // ``, `+`, `+3`, `-+2`, `+2-+1`

  datatype Parsed = Parsed(token: Token, len: nat)

  predicate IsRepeat(t: string)
  {
    3 <= |t| && t[0] == 'b' && t[1] == 'i' && t[2] == 's'
  }

  /** The length of the `+N` part of a relative token. */
  function StepLength(t: string): (n: nat)
    ensures n <= |t|
  {
    if 0 < |t| && t[0] == '+' then 1 + DigitRun(t[1..]) else 0
  }

  /** The length of the digits of a `-+N` part, 0 when there is none. */
  function SpanDigits(u: string): (n: nat)
    ensures 2 + n <= |u| || n == 0
  {
    if 2 <= |u| && u[0] == '-' && u[1] == '+' then DigitRun(u[2..]) else 0
  }

  /** The token at the start of `t` (what follows an `L#`), and its length. */
  function ParseToken(t: string): (p: Parsed)
    ensures p.len <= |t|
  {
    if 0 < |t| && t[0] == '=' then Parsed(Reset, 1)
    else if 0 < |t| && t[0] == '~' then Parsed(Free, 1)
    else if IsRepeat(t) then Parsed(Repeat, 3)
    else if 0 < |t| && IsDigit(t[0]) then Parsed(Absolute(t[..DigitRun(t)]), DigitRun(t))
    else
      var a := StepLength(t);
      var step := if a <= 1 then 1 else Value(t[1..a]);
      var b := SpanDigits(t[a..]);
      if 0 < b then Parsed(Relative(step, Some(Value(t[a + 2..a + 2 + b]))), a + 2 + b)
      else Parsed(Relative(step, None), a)
  }

  /** A token that the migrator leaves as written. */
  predicate Settled(t: string)
  {
    !ParseToken(t).token.Relative?
  }

  // ---------------------------------------------------------------------------
  // The migration.

  function Prepend(p: string, r: Option<string>): Option<string>
  {
    match r
    case None => None
    case Some(o) => Some(p + o)
  }

  lemma PrependPrepend(a: string, b: string, r: Option<string>)
    ensures Prepend(a, Prepend(b, r)) == Prepend(a + b, r)
  {
    if r.Some? {
      assert a + (b + r.value) == a + b + r.value;
    }
  }

  predicate IsMarker(s: string)
  {
    2 <= |s| && s[0] == 'L' && s[1] == '#'
  }

  /** The number of the row a token stands for, given the previous row number. */
  function Next(tok: Token, prev: nat): nat
  {
    match tok
    case Reset => 0
    case Absolute(d) => Value(d)
    case Relative(step, None) => prev + step
    case Relative(step, Some(n)) => prev + step + n
    case _ => prev
  }

  /** Whether a `bis` marker has been met in the current table after this token. */
  function Repeating(tok: Token, repeat: bool): bool
  {
    match tok
    case Reset => false
    case Repeat => true
    case _ => repeat
  }

  /** How a marker is written after migration; `written` is the marker as it stands. */
  function Render(tok: Token, written: string, prev: nat): string
  {
    match tok
    case Relative(step, None) => "L#" + Str(prev + step)
    case Relative(step, Some(n)) => "L#" + Str(prev + step) + "-" + Str(prev + step + n)
    case _ => written
  }

  /**
   * The migrated text, or None when a relative token follows a `bis` marker
   * of the same table. `prev` is the previous row number (0 before the first
   * row), `repeat` whether a `bis` marker was met in the current table.
   */
  function Migrate(s: string, prev: nat, repeat: bool): Option<string>
    decreases |s|, 1
  {
    if |s| == 0 then Some("")
    else if IsMarker(s) then MigrateMarker(s, prev, repeat)
    else Prepend([s[0]], Migrate(s[1..], prev, repeat))
  }

  /** The migration of a text that starts with a marker. */
  function MigrateMarker(s: string, prev: nat, repeat: bool): Option<string>
    requires IsMarker(s)
    decreases |s|, 0
  {
    var p := ParseToken(s[2..]);
    if p.token.Relative? && repeat then None
    else
      Prepend(Render(p.token, s[..2 + p.len], prev),
              Migrate(s[2 + p.len..], Next(p.token, prev), Repeating(p.token, repeat)))
  }

  /** The processed text: migrated, or left as it is when it cannot be. */
  function Modify(s: string): string
  {
    match Migrate(s, 0, false)
    case Some(o) => o
    case None => s
  }

  // ---------------------------------------------------------------------------
  // Texts the migrator leaves alone.

  predicate MarkerAt(s: string, i: nat)
    requires i <= |s|
  {
    IsMarker(s[i..])
  }

  /** Every marker of `s` carries a token the migrator leaves as written. */
  predicate NoRelative(s: string)
  {
    forall i: nat :: i <= |s| && MarkerAt(s, i) ==> Settled(s[i + 2..])
  }

  lemma NoRelativeSuffix(s: string, k: nat)
    requires NoRelative(s) && k <= |s|
    ensures NoRelative(s[k..])
  {
    var r := s[k..];
    forall i: nat | i <= |r| && MarkerAt(r, i) ensures Settled(r[i + 2..]) {
      assert r[i..] == s[k + i..];
      assert MarkerAt(s, k + i);
      assert r[i + 2..] == s[k + i + 2..];
    }
  }

  /** Which tokens are left as written, by their first characters. */
  lemma SettledStart(t: string)
    ensures Settled(t) <==> 0 < |t| && (t[0] == '=' || t[0] == '~' || IsRepeat(t) || IsDigit(t[0]))
  {
  }

  lemma ParsedSettled(t: string)
    requires Settled(t)
    ensures var p := ParseToken(t);
      0 < p.len && Avoids(t[..p.len], {'L'}) && t[0] == t[..p.len][0]
      && (IsRepeat(t) ==> IsRepeat(t[..p.len]))
      && (IsDigit(t[0]) ==> AllDigits(t[..p.len]))
  {
    var p := ParseToken(t);
    if IsDigit(t[0]) && t[0] != '=' && t[0] != '~' && !IsRepeat(t) {
      DigitRunStops(t);
    }
  }

  /** A text whose markers all carry settled tokens is left as it is, whatever the state. */
  lemma {:induction false} SettledUnchanged(s: string, prev: nat, repeat: bool)
    requires NoRelative(s)
    ensures Migrate(s, prev, repeat) == Some(s)
    decreases |s|
  {
    if 0 < |s| {
      if IsMarker(s) {
        assert MarkerAt(s, 0);
        var p := ParseToken(s[2..]);
        NoRelativeSuffix(s, 2 + p.len);
        SettledUnchanged(s[2 + p.len..], Next(p.token, prev), Repeating(p.token, repeat));
        assert s == s[..2 + p.len] + s[2 + p.len..];
      } else {
        NoRelativeSuffix(s, 1);
        SettledUnchanged(s[1..], prev, repeat);
        assert s == [s[0]] + s[1..];
      }
    }
  }

  /** A marker with a settled token in front of a text without relative tokens. */
  lemma NoRelativeMarker(x: string, o: string)
    requires 0 < |x| && Avoids(x, {'L'}) && Settled(x + o) && NoRelative(o)
    ensures NoRelative("L#" + x + o)
  {
    var s := "L#" + x + o;
    forall i: nat | i <= |s| && MarkerAt(s, i) ensures Settled(s[i + 2..]) {
      if i == 0 {
        assert s[2..] == x + o;
      } else if i < 2 + |x| {
        assert false;
      } else {
        var j := i - 2 - |x|;
        assert s[i..] == o[j..];
        assert MarkerAt(o, j);
        assert s[i + 2..] == o[j + 2..];
      }
    }
  }

  /** A character that does not start a marker in front of a text without relative tokens. */
  lemma NoRelativePlain(c: char, o: string)
    requires NoRelative(o) && (c == 'L' ==> |o| == 0 || o[0] != '#')
    ensures NoRelative([c] + o)
  {
    var s := [c] + o;
    forall i: nat | i <= |s| && MarkerAt(s, i) ensures Settled(s[i + 2..]) {
      if i == 0 {
        assert false;
      } else {
        assert s[i..] == o[i - 1..];
        assert MarkerAt(o, i - 1);
        assert s[i + 2..] == o[i + 1..];
      }
    }
  }

  /** A written number opens a token that is left as written. */
  lemma NumberSettled(n: nat, o: string)
    ensures Settled(Str(n) + o) && Avoids(Str(n), {'L'})
  {
    assert (Str(n) + o)[0] == Str(n)[0];
  }

  lemma NumberMarker(n: nat, o: string)
    requires NoRelative(o)
    ensures NoRelative("L#" + Str(n) + o)
  {
    NumberSettled(n, o);
    NoRelativeMarker(Str(n), o);
  }

  lemma RangeMarker(m: nat, n: nat, o: string)
    requires NoRelative(o)
    ensures NoRelative("L#" + Str(m) + "-" + Str(n) + o)
  {
    var x := Str(m) + "-" + Str(n);
    NumberSettled(m, "-" + Str(n) + o);
    NumberSettled(n, "");
    assert x + o == Str(m) + ("-" + Str(n) + o);
    AvoidsAppend(Str(m), "-", {'L'});
    AvoidsAppend(Str(m) + "-", Str(n), {'L'});
    NoRelativeMarker(x, o);
    assert "L#" + Str(m) + "-" + Str(n) + o == "L#" + x + o;
  }

  /** A marker whose token is left as written, in front of a text without relative tokens. */
  lemma WrittenMarker(s: string, o: string)
    requires IsMarker(s) && Settled(s[2..]) && NoRelative(o)
    ensures NoRelative(s[..2 + ParseToken(s[2..]).len] + o)
  {
    var t := s[2..];
    var p := ParseToken(t);
    var x := t[..p.len];
    ParsedSettled(t);
    assert s[..2 + p.len] == "L#" + x;
    assert Settled(x + o) by {
      SettledStart(x + o);
      SettledStart(t);
      assert (x + o)[0] == x[0];
      if IsRepeat(t) {
        assert (x + o)[..3] == x[..3];
      }
    }
    NoRelativeMarker(x, o);
  }

  /** The migrated text starts like the original. */
  lemma MigrateFirst(s: string, prev: nat, repeat: bool)
    requires 0 < |s| && Migrate(s, prev, repeat).Some?
    ensures var o := Migrate(s, prev, repeat).value; 0 < |o| && o[0] == s[0]
  {
    if IsMarker(s) {
      var p := ParseToken(s[2..]);
      assert Render(p.token, s[..2 + p.len], prev)[0] == 'L';
    }
  }

  /** A marker as migrated, in front of a text without relative tokens. */
  lemma RenderedMarker(s: string, prev: nat, o: string)
    requires IsMarker(s) && NoRelative(o)
    ensures var p := ParseToken(s[2..]); NoRelative(Render(p.token, s[..2 + p.len], prev) + o)
  {
    var p := ParseToken(s[2..]);
    var tok := p.token;
    if !tok.Relative? {
      WrittenMarker(s, o);
    } else if tok.span.None? {
      NumberMarker(prev + tok.step, o);
    } else {
      RangeMarker(prev + tok.step, prev + tok.step + tok.span.value, o);
    }
  }

  /** The migrated text has no relative token left. */
  lemma {:induction false} MigrateSettles(s: string, prev: nat, repeat: bool)
    ensures Migrate(s, prev, repeat).Some? ==> NoRelative(Migrate(s, prev, repeat).value)
    decreases |s|
  {
    if 0 < |s| {
      if IsMarker(s) {
        var p := ParseToken(s[2..]);
        var rest := s[2 + p.len..];
        var r := Migrate(rest, Next(p.token, prev), Repeating(p.token, repeat));
        MigrateSettles(rest, Next(p.token, prev), Repeating(p.token, repeat));
        if r.Some? {
          RenderedMarker(s, prev, r.value);
        }
      } else {
        MigrateSettles(s[1..], prev, repeat);
        var r := Migrate(s[1..], prev, repeat);
        if r.Some? {
          if 1 < |s| {
            MigrateFirst(s[1..], prev, repeat);
          }
          NoRelativePlain(s[0], r.value);
        }
      }
    }
  }

  /** Migrating twice changes nothing more than migrating once. */
  lemma ModifyIdempotent(s: string)
    ensures Modify(Modify(s)) == Modify(s)
  {
    MigrateSettles(s, 0, false);
    var r := Migrate(s, 0, false);
    if r.Some? {
      SettledUnchanged(r.value, 0, false);
    }
  }

  // ---------------------------------------------------------------------------
  // One step of the migration.

  /** The migration of a marker whose token is `tok`, of length `n`. */
  lemma {:induction false} MarkerIs(s: string, tok: Token, n: nat, prev: nat, repeat: bool)
    requires IsMarker(s) && ParseToken(s[2..]) == Parsed(tok, n)
    requires !(tok.Relative? && repeat)
    ensures Migrate(s, prev, repeat)
         == Prepend(Render(tok, s[..2 + n], prev), Migrate(s[2 + n..], Next(tok, prev), Repeating(tok, repeat)))
  {
  }

  /** A marker whose token is `x`, followed by `rest`. */
  lemma {:induction false} MarkerStep(x: string, rest: string, tok: Token, prev: nat, repeat: bool)
    requires ParseToken(x + rest) == Parsed(tok, |x|)
    requires !(tok.Relative? && repeat)
    ensures Migrate("L#" + x + rest, prev, repeat)
         == Prepend(Render(tok, "L#" + x, prev), Migrate(rest, Next(tok, prev), Repeating(tok, repeat)))
  {
    var s := "L#" + x + rest;
    assert s[2..] == x + rest;
    MarkerIs(s, tok, |x|, prev, repeat);
    assert s[..2 + |x|] == "L#" + x;
    assert s[2 + |x|..] == rest;
  }

  /** A relative token after a `bis` marker of the same table stops the migration. */
  lemma {:induction false} BlockedStep(rest: string, prev: nat)
    requires !Settled(rest)
    ensures Migrate("L#" + rest, prev, true) == None
  {
    assert ("L#" + rest)[2..] == rest;
  }

  /** A text that does not start with a marker: its first character is copied. */
  lemma PlainIs(s: string, prev: nat, repeat: bool)
    requires 0 < |s| && s[0] != 'L'
    ensures Migrate(s, prev, repeat) == Prepend([s[0]], Migrate(s[1..], prev, repeat))
  {
  }

  /** Text without an `L` is copied as it is. */
  lemma {:induction false} PlainStep(p: string, rest: string, prev: nat, repeat: bool)
    requires Avoids(p, {'L'})
    ensures Migrate(p + rest, prev, repeat) == Prepend(p, Migrate(rest, prev, repeat))
    decreases |p|
  {
    if |p| == 0 {
      assert p + rest == rest;
      var r := Migrate(rest, prev, repeat);
      if r.Some? {
        assert p + r.value == r.value;
      }
    } else {
      var s := p + rest;
      assert s[0] == p[0] && s[1..] == p[1..] + rest;
      PlainIs(s, prev, repeat);
      PlainStep(p[1..], rest, prev, repeat);
      PrependPrepend([p[0]], p[1..], Migrate(rest, prev, repeat));
      assert [p[0]] + p[1..] == p;
    }
  }

  /** What may follow a marker without a token. */
  predicate EndsToken(t: string)
  {
    |t| == 0 || t[0] == '\n' || t[0] == '|' || t[0] == ' '
  }

  /** The relative branch of the token parser, with a `+N` part of length `a` and a `-+M` part of `b` digits. */
  lemma RelativeIs(t: string, a: nat, b: nat)
    requires 0 < |t| ==> t[0] != '=' && t[0] != '~' && !IsRepeat(t) && !IsDigit(t[0])
    requires a == StepLength(t) && b == SpanDigits(t[a..])
    ensures 0 < b ==> ParseToken(t) == Parsed(Relative(if a <= 1 then 1 else Value(t[1..a]), Some(Value(t[a + 2..a + 2 + b]))), a + 2 + b)
    ensures b == 0 ==> ParseToken(t) == Parsed(Relative(if a <= 1 then 1 else Value(t[1..a]), None), a)
  {
  }

  lemma StepLocal(x: string, r: string)
    requires EndsToken(r)
    ensures StepLength(x + r) == StepLength(x)
    ensures (x + r)[..StepLength(x)] == x[..StepLength(x)]
  {
    var t := x + r;
    if |x| == 0 {
      assert t == r;
    } else {
      assert t[0] == x[0];
      if x[0] == '+' {
        assert t[1..] == x[1..] + r;
        DigitRunAppend(x[1..], r);
      }
    }
  }

  lemma SpanLocal(u: string, r: string)
    requires EndsToken(r)
    ensures SpanDigits(u + r) == SpanDigits(u)
    ensures SpanDigits(u) == 0 || (u + r)[..2 + SpanDigits(u)] == u[..2 + SpanDigits(u)]
  {
    var v := u + r;
    if |u| == 0 {
      assert v == r;
    } else if |u| == 1 {
      assert v[0] == u[0];
      assert |r| == 0 || v[1] == r[0];
    } else {
      assert v[0] == u[0] && v[1] == u[1];
      if u[0] == '-' && u[1] == '+' {
        assert v[2..] == u[2..] + r;
        DigitRunAppend(u[2..], r);
      }
    }
  }

  lemma SettledLocal(x: string, r: string)
    requires EndsToken(r) && 0 < |x|
    ensures (x + r)[0] == x[0] && (IsRepeat(x + r) <==> IsRepeat(x))
    ensures DigitRun(x + r) == DigitRun(x) && (x + r)[..DigitRun(x)] == x[..DigitRun(x)]
  {
    var t := x + r;
    assert t[0] == x[0];
    if |x| < 3 && 0 < |r| {
      assert t[|x|] == r[0];
    }
    DigitRunAppend(x, r);
  }

  lemma SliceLocal(x: string, r: string, i: nat, j: nat)
    requires i <= j <= |x|
    ensures (x + r)[i..j] == x[i..j]
  {
  }

  /** A relative token is not changed by what follows it either. */
  lemma RelativeLocal(x: string, r: string)
    requires EndsToken(r) && 0 < |x|
    requires x[0] != '=' && x[0] != '~' && !IsRepeat(x) && !IsDigit(x[0])
    ensures ParseToken(x + r) == ParseToken(x)
  {
    var t := x + r;
    SettledLocal(x, r);
    var a := StepLength(x);
    StepLocal(x, r);
    assert t[a..] == x[a..] + r;
    SpanLocal(x[a..], r);
    var b := SpanDigits(x[a..]);
    if 1 < a {
      SliceLocal(x, r, 1, a);
    }
    if 0 < b {
      SliceLocal(x, r, a + 2, a + 2 + b);
    }
    RelativeIs(x, a, b);
    RelativeIs(t, a, b);
  }

  /**
   * A token ends where the text after it starts with a line break, a cell
   * bar, a blank, or where the text ends: what follows does not change it.
   */
  lemma ParseLocal(x: string, r: string)
    requires EndsToken(r)
    ensures ParseToken(x + r) == ParseToken(x)
  {
    if |x| == 0 {
      assert x + r == r;
    } else {
      SettledLocal(x, r);
      if x[0] != '=' && x[0] != '~' && !IsRepeat(x) && !IsDigit(x[0]) {
        RelativeLocal(x, r);
      }
    }
  }

  // ---------------------------------------------------------------------------
  // What each kind of token does to its row.

  /** A marker whose token `x` is followed by text that ends it. */
  lemma {:induction false} TokenThen(x: string, rest: string, tok: Token, prev: nat, repeat: bool)
    requires ParseToken(x) == Parsed(tok, |x|) && EndsToken(rest)
    requires !(tok.Relative? && repeat)
    ensures Migrate("L#" + x + rest, prev, repeat)
         == Prepend(Render(tok, "L#" + x, prev), Migrate(rest, Next(tok, prev), Repeating(tok, repeat)))
  {
    ParseLocal(x, rest);
    MarkerStep(x, rest, tok, prev, repeat);
  }

  /** How a relative token for one row is written, and the state after it. */
  lemma {:induction false} NumberRendered(x: string, step: nat, prev: nat)
    ensures Render(Relative(step, None), "L#" + x, prev) == "L#" + Str(prev + step)
    ensures Next(Relative(step, None), prev) == prev + step
    ensures !Repeating(Relative(step, None), false)
  {
  }

  /** How a relative token for a range of rows is written, and the state after it. */
  lemma {:induction false} RangeRendered(x: string, step: nat, span: nat, prev: nat)
    ensures Render(Relative(step, Some(span)), "L#" + x, prev) == "L#" + Str(prev + step) + "-" + Str(prev + step + span)
    ensures Next(Relative(step, Some(span)), prev) == prev + step + span
    ensures !Repeating(Relative(step, Some(span)), false)
  {
  }

  /** A marker whose token stands for a single row. */
  lemma {:induction false} NumberThen(x: string, rest: string, step: nat, prev: nat)
    requires ParseToken(x) == Parsed(Relative(step, None), |x|) && EndsToken(rest)
    ensures Migrate("L#" + x + rest, prev, false) == Prepend("L#" + Str(prev + step), Migrate(rest, prev + step, false))
  {
    NumberRendered(x, step, prev);
    TokenThen(x, rest, Relative(step, None), prev, false);
  }

  /** A marker whose token stands for a range of rows. */
  lemma {:induction false} RangeThen(x: string, rest: string, step: nat, span: nat, prev: nat)
    requires ParseToken(x) == Parsed(Relative(step, Some(span)), |x|) && EndsToken(rest)
    ensures Migrate("L#" + x + rest, prev, false)
         == Prepend("L#" + Str(prev + step) + "-" + Str(prev + step + span), Migrate(rest, prev + step + span, false))
  {
    RangeRendered(x, step, span, prev);
    TokenThen(x, rest, Relative(step, Some(span)), prev, false);
  }

  /** A row without a token is numbered one after the previous row. */
  lemma {:induction false} UnnumberedRow(rest: string, prev: nat)
    requires EndsToken(rest)
    ensures Migrate("L#" + rest, prev, false) == Prepend("L#" + Str(prev + 1), Migrate(rest, prev + 1, false))
  {
    EmptyToken();
    NumberThen("", rest, 1, prev);
    assert "L#" + "" + rest == "L#" + rest;
  }

  /** The step a `+N` part stands for: N, or 1 when the digits are left out. */
  function StepOf(d: string): nat
  {
    if |d| == 0 then 1 else Value(d)
  }

  /** The token `+N`, or `+` alone. */
  lemma {:induction false} PlusDigitsToken(d: string)
    requires AllDigits(d)
    ensures ParseToken("+" + d) == Parsed(Relative(StepOf(d), None), 1 + |d|)
  {
    var t := "+" + d;
    assert t[1..] == d + "";
    DigitRunOfDigits(d, "");
    assert StepLength(t) == 1 + |d|;
    assert t[1..1 + |d|] == d;
    assert t[1 + |d|..] == "";
  }

  /** `+N` numbers the row N after the previous one; `+` alone is a step of 1. */
  lemma {:induction false} StepRow(d: string, rest: string, prev: nat)
    requires AllDigits(d) && EndsToken(rest)
    ensures Migrate("L#" + ("+" + d) + rest, prev, false)
         == Prepend("L#" + Str(prev + StepOf(d)), Migrate(rest, prev + StepOf(d), false))
  {
    PlusDigitsToken(d);
    NumberThen("+" + d, rest, StepOf(d), prev);
  }

  /** A row given by its number keeps it as written, and the next rows count on from it. */
  lemma {:induction false} NumberedRow(d: string, rest: string, prev: nat, repeat: bool)
    requires 0 < |d| && AllDigits(d) && EndsToken(rest)
    ensures Migrate("L#" + d + rest, prev, repeat) == Prepend("L#" + d, Migrate(rest, Value(d), repeat))
  {
    DigitRunOfDigits(d, "");
    assert d + "" == d && d[..|d|] == d;
    assert ParseToken(d) == Parsed(Absolute(d), |d|);
    assert Render(Absolute(d), "L#" + d, prev) == "L#" + d;
    assert Next(Absolute(d), prev) == Value(d) && Repeating(Absolute(d), repeat) == repeat;
    TokenThen(d, rest, Absolute(d), prev, repeat);
  }

  /** The `-+N` part of a token. */
  lemma SpanPart(d: string)
    requires AllDigits(d)
    ensures SpanDigits("-+" + d) == |d| && ("-+" + d)[2..2 + |d|] == d
  {
    var u := "-+" + d;
    assert u[2..] == d + "";
    DigitRunOfDigits(d, "");
  }

  /** The token `-+N`, from where its parts lie. */
  lemma {:induction false} MinusSpanAt(t: string, d: string)
    requires 0 < |d| && AllDigits(d) && t == "-+" + d
    ensures ParseToken(t) == Parsed(Relative(1, Some(Value(d))), 2 + |d|)
  {
    SpanPart(d);
    assert t[0..] == t && StepLength(t) == 0;
  }

  /** The token `-+N`. */
  lemma {:induction false} MinusSpanToken(d: string)
    requires 0 < |d| && AllDigits(d)
    ensures ParseToken("-+" + d) == Parsed(Relative(1, Some(Value(d))), 2 + |d|)
  {
    MinusSpanAt("-+" + d, d);
  }

  /** The token `-+N`, with N written out. */
  lemma {:induction false} MinusSpanNumber(n: nat)
    ensures var t := "-+" + Str(n); ParseToken(t) == Parsed(Relative(1, Some(n)), |t|)
  {
    ValueStr(n);
    MinusSpanToken(Str(n));
  }

  /** `-+N` numbers the row as the range from one after the previous row to N more. */
  lemma {:induction false} SpanRow(n: nat, rest: string, prev: nat)
    requires EndsToken(rest)
    ensures Migrate("L#" + ("-+" + Str(n)) + rest, prev, false)
         == Prepend("L#" + Str(prev + 1) + "-" + Str(prev + 1 + n), Migrate(rest, prev + 1 + n, false))
  {
    MinusSpanNumber(n);
    RangeThen("-+" + Str(n), rest, 1, n, prev);
  }

  /** A relative token with both a `+N` part of length `n` and a `-+M` part of `m` digits. */
  lemma {:induction false} SpanTokenAt(t: string, n: nat, m: nat, step: nat, span: nat)
    requires 0 < n <= |t| && t[0] == '+' && StepLength(t) == n && step == (if n <= 1 then 1 else Value(t[1..n]))
    requires 0 < m && SpanDigits(t[n..]) == m && n + 2 + m <= |t| && span == Value(t[n + 2..n + 2 + m])
    ensures ParseToken(t) == Parsed(Relative(step, Some(span)), n + 2 + m)
  {
  }

  /** The `+A` part at the start of a token, followed by something other than a digit. */
  lemma PlusPart(t: string, a: string)
    requires AllDigits(a) && 1 + |a| <= |t| && t[0] == '+' && t[1..1 + |a|] == a
    requires |t| == 1 + |a| || !IsDigit(t[1 + |a|])
    ensures StepLength(t) == 1 + |a|
  {
    var u := t[1 + |a|..];
    assert t[1..] == a + u;
    DigitRunOfDigits(a, u);
  }

  /** The token `+A-+N`, from where its parts lie. */
  lemma {:induction false} PlusSpanAt(t: string, a: string, d: string)
    requires AllDigits(a) && 0 < |d| && AllDigits(d)
    requires 3 + |a| + |d| == |t| && t[0] == '+' && t[1..1 + |a|] == a && t[1 + |a|..] == "-+" + d
    ensures ParseToken(t) == Parsed(Relative(StepOf(a), Some(Value(d))), |t|)
  {
    var n := 1 + |a|;
    assert t[n] == '-';
    PlusPart(t, a);
    SpanPart(d);
    assert t[n + 2..n + 2 + |d|] == d;
    SpanTokenAt(t, n, |d|, StepOf(a), Value(d));
  }

  /** Where the parts of `+A-+N` lie. */
  lemma PlusSpanShape(a: string, d: string)
    ensures var t := "+" + a + "-+" + d;
      3 + |a| + |d| == |t| && t[0] == '+' && t[1..1 + |a|] == a && t[1 + |a|..] == "-+" + d
  {
    var t := "+" + a + "-+" + d;
    assert t[1..1 + |a|] == a && t[1 + |a|..] == "-+" + d;
  }

  /** The token `+A-+N`. */
  lemma {:induction false} PlusSpanToken(a: string, d: string)
    requires AllDigits(a) && 0 < |d| && AllDigits(d)
    ensures ParseToken("+" + a + "-+" + d) == Parsed(Relative(StepOf(a), Some(Value(d))), 3 + |a| + |d|)
  {
    PlusSpanShape(a, d);
    PlusSpanAt("+" + a + "-+" + d, a, d);
  }

  /** The token `+K-+N`, with K and N written out. */
  lemma {:induction false} PlusSpanNumbers(k: nat, n: nat)
    ensures var t := "+" + Str(k) + "-+" + Str(n); ParseToken(t) == Parsed(Relative(k, Some(n)), |t|)
  {
    ValueStr(k);
    ValueStr(n);
    PlusSpanToken(Str(k), Str(n));
  }

  /** `+K-+N` numbers the row as the range from K after the previous row to N more. */
  lemma {:induction false} StepSpanRow(k: nat, n: nat, rest: string, prev: nat)
    requires EndsToken(rest)
    ensures Migrate("L#" + ("+" + Str(k) + "-+" + Str(n)) + rest, prev, false)
         == Prepend("L#" + Str(prev + k) + "-" + Str(prev + k + n), Migrate(rest, prev + k + n, false))
  {
    PlusSpanNumbers(k, n);
    RangeThen("+" + Str(k) + "-+" + Str(n), rest, k, n, prev);
  }

  /** `=` is kept and starts a new table: its first row is 1, and no `bis` has been met in it. */
  lemma {:induction false} ResetRow(rest: string, prev: nat, repeat: bool)
    ensures Migrate("L#=" + rest, prev, repeat) == Prepend("L#=", Migrate(rest, 0, false))
  {
    var s := "L#=" + rest;
    assert s[2..] == "=" + rest && s[..3] == "L#=" && s[3..] == rest;
    MarkerIs(s, Reset, 1, prev, repeat);
  }

  /** `~` is kept and leaves the row number as it was. */
  lemma {:induction false} FreeRow(rest: string, prev: nat, repeat: bool)
    ensures Migrate("L#~" + rest, prev, repeat) == Prepend("L#~", Migrate(rest, prev, repeat))
  {
    var s := "L#~" + rest;
    assert s[2..] == "~" + rest && s[..3] == "L#~" && s[3..] == rest;
    MarkerIs(s, Free, 1, prev, repeat);
  }

  /** `bis` is kept, leaves the row number as it was, and marks the table as repeating. */
  lemma {:induction false} RepeatRow(rest: string, prev: nat, repeat: bool)
    ensures Migrate("L#bis" + rest, prev, repeat) == Prepend("L#bis", Migrate(rest, prev, true))
  {
    var s := "L#bis" + rest;
    assert s[2..] == "bis" + rest && s[..5] == "L#bis" && s[5..] == rest;
    MarkerIs(s, Repeat, 3, prev, repeat);
  }

  // ---------------------------------------------------------------------------
  // A relative token after `bis`.

  /** No token holds an `L`: a marker never starts inside the token of another. */
  lemma TokenWithoutL(t: string)
    ensures Avoids(t[..ParseToken(t).len], {'L'})
  {
    var p := ParseToken(t);
    if Settled(t) {
      ParsedSettled(t);
    } else {
      var a := StepLength(t);
      var b := SpanDigits(t[a..]);
      if 0 < a {
        DigitRunStops(t[1..]);
      }
      if 0 < b {
        DigitRunStops(t[a..][2..]);
      }
      forall k | 0 <= k < p.len ensures t[..p.len][k] != 'L' {
        if k == 0 && 0 < a {
          assert t[k] == '+';
        } else if k < a {
          assert t[k] == t[1..][k - 1];
        } else if k < a + 2 {
          assert t[k] == t[a..][k - a];
        } else {
          assert t[k] == t[a..][2..][k - a - 2];
        }
      }
    }
  }

  /** The end of the token of a marker at 0 comes no later than the next marker. */
  lemma NextMarkerAfterToken(s: string, i: nat)
    requires 0 < i <= |s| && IsMarker(s) && MarkerAt(s, i)
    ensures 2 + ParseToken(s[2..]).len <= i
  {
    var p := ParseToken(s[2..]);
    TokenWithoutL(s[2..]);
    forall j | 1 <= j < 2 + p.len ensures s[j] != 'L' {
      if 2 <= j {
        assert s[j] == s[2..][..p.len][j - 2];
      }
    }
  }

  /**
   * Migration reaches every marker: there is a state such that, when the text
   * from the marker at `i` on cannot be migrated from it, neither can `s`.
   */
  lemma {:induction false} ReachMarker(s: string, i: nat, prev: nat, repeat: bool) returns (prev': nat, repeat': bool)
    requires i <= |s| && MarkerAt(s, i)
    ensures Migrate(s[i..], prev', repeat') == None ==> Migrate(s, prev, repeat) == None
    decreases |s|
  {
    prev', repeat' := prev, repeat;
    if i == 0 {
      assert s[0..] == s;
    } else if IsMarker(s) {
      var p := ParseToken(s[2..]);
      if !(p.token.Relative? && repeat) {
        NextMarkerAfterToken(s, i);
        var n := 2 + p.len;
        assert s[n..][i - n..] == s[i..];
        prev', repeat' := ReachMarker(s[n..], i - n, Next(p.token, prev), Repeating(p.token, repeat));
      }
    } else {
      assert s[1..][i - 1..] == s[i..];
      prev', repeat' := ReachMarker(s[1..], i - 1, prev, repeat);
    }
  }

  /** No marker of `s` before position `k` starts a new table. */
  predicate NoResetBefore(s: string, k: nat)
    requires k <= |s|
  {
    forall j: nat :: j < k && MarkerAt(s, j) ==> ParseToken(s[j + 2..]).token != Reset
  }

  lemma NoResetAfter(s: string, n: nat, k: nat)
    requires n <= k <= |s| && NoResetBefore(s, k)
    ensures NoResetBefore(s[n..], k - n)
  {
    forall j: nat | j < k - n && MarkerAt(s[n..], j) ensures ParseToken(s[n..][j + 2..]).token != Reset {
      assert s[n..][j..] == s[n + j..];
      assert MarkerAt(s, n + j);
      assert s[n..][j + 2..] == s[n + j + 2..];
    }
  }

  /**
   * Once a `bis` has been met, a relative token before the next `L#=` cannot be
   * resolved: the migration from there fails.
   */
  lemma {:induction false} BlockedFrom(s: string, k: nat, prev: nat)
    requires k <= |s| && MarkerAt(s, k) && !Settled(s[k + 2..]) && NoResetBefore(s, k)
    ensures Migrate(s, prev, true) == None
    decreases |s|
  {
    if k == 0 {
      assert s[0..] == s;
      BlockedStep(s[2..], prev);
      assert "L#" + s[2..] == s;
    } else if IsMarker(s) {
      var p := ParseToken(s[2..]);
      if !p.token.Relative? {
        assert MarkerAt(s, 0) && s[0 + 2..] == s[2..];
        NextMarkerAfterToken(s, k);
        var n := 2 + p.len;
        assert s[n..][k - n..] == s[k..] && s[n..][k - n + 2..] == s[k + 2..];
        NoResetAfter(s, n, k);
        BlockedFrom(s[n..], k - n, Next(p.token, prev));
      }
    } else {
      assert s[1..][k - 1..] == s[k..] && s[1..][k - 1 + 2..] == s[k + 2..];
      NoResetAfter(s, 1, k);
      BlockedFrom(s[1..], k - 1, prev);
    }
  }

  /**
   * A `bis` marker at `i` followed by a relative token at `k`, with no `L#=`
   * between them: the text cannot be migrated and is left as it is.
   */
  lemma {:induction false} RepeatThenRelative(s: string, i: nat, k: nat)
    requires i < k <= |s| && MarkerAt(s, i) && IsRepeat(s[i + 2..])
    requires MarkerAt(s, k) && !Settled(s[k + 2..])
    requires forall j: nat :: i < j < k && MarkerAt(s, j) ==> ParseToken(s[j + 2..]).token != Reset
    ensures Modify(s) == s
  {
    var q, r := ReachMarker(s, i, 0, false);
    var t := s[i + 5..];
    assert s[i..] == "L#bis" + t by {
      assert s[i + 2..][..3] == s[i + 2..i + 5];
    }
    forall j | i < j < i + 5 && j < |s| ensures s[j] != 'L' {
      if i + 2 <= j {
        assert s[j] == s[i + 2..][j - i - 2];
      }
    }
    RepeatRow(t, q, r);
    assert t[k - i - 5..] == s[k..];
    forall j: nat | j < k - i - 5 && MarkerAt(t, j) ensures ParseToken(t[j + 2..]).token != Reset {
      assert t[j..] == s[i + 5 + j..];
      assert MarkerAt(s, i + 5 + j);
      assert t[j + 2..] == s[i + 5 + j + 2..];
    }
    BlockedFrom(t, k - i - 5, q);
  }

  // ---------------------------------------------------------------------------
  // The migration, marker by marker.

  /**
   * A text that starts with a marker, cut at its markers: each `Marker` holds
   * the token after an `L#` and the text after the token, up to the next one.
   */
  datatype Marked = End | Marker(token: string, after: string, next: Marked)

  /** The text made of the pieces, in order. */
  function Layout(m: Marked): string
  {
    match m
    case End => ""
    case Marker(x, a, n) => "L#" + x + (a + Layout(n))
  }

  /**
   * Every token is read whole, and every text after a token holds no `L` and
   * ends the token (a line break, a cell bar or a blank first, or nothing at
   * the very end).
   */
  predicate WellFormed(m: Marked)
  {
    match m
    case End => true
    case Marker(x, a, n) =>
      ParseToken(x).len == |x| && Avoids(a, {'L'}) && EndsToken(a)
      && (a == "" ==> n == End) && WellFormed(n)
  }

  /** The migration read marker by marker: each token is parsed on its own. */
  function MigrateMarked(m: Marked, prev: nat, repeat: bool): Option<string>
  {
    match m
    case End => Some("")
    case Marker(x, a, n) =>
      var tok := ParseToken(x).token;
      if tok.Relative? && repeat then None
      else Prepend(Render(tok, "L#" + x, prev) + a, MigrateMarked(n, Next(tok, prev), Repeating(tok, repeat)))
  }

  /** On well-formed texts, the character-wise migration is the marker-wise one. */
  lemma {:induction false} MigrateLayout(m: Marked, prev: nat, repeat: bool)
    requires WellFormed(m)
    ensures Migrate(Layout(m), prev, repeat) == MigrateMarked(m, prev, repeat)
  {
    match m
    case End =>
    case Marker(x, a, n) =>
      var rest := Layout(n);
      var r := a + rest;
      assert EndsToken(r) by {
        if |a| == 0 {
          assert r == "";
        } else {
          assert r[0] == a[0];
        }
      }
      ParseLocal(x, r);
      var tok := ParseToken(x).token;
      if tok.Relative? && repeat {
        assert "L#" + x + r == "L#" + (x + r);
        BlockedStep(x + r, prev);
      } else {
        MarkerStep(x, r, tok, prev, repeat);
        PlainStep(a, rest, Next(tok, prev), Repeating(tok, repeat));
        MigrateLayout(n, Next(tok, prev), Repeating(tok, repeat));
        PrependPrepend(Render(tok, "L#" + x, prev), a, MigrateMarked(n, Next(tok, prev), Repeating(tok, repeat)));
      }
  }

  // ---------------------------------------------------------------------------
  // The examples of tests/test_processors.py, each read marker by marker.

  lemma EmptyToken()
    ensures ParseToken("") == Parsed(Relative(1, None), 0)
  {
  }

  lemma PlusToken()
    ensures ParseToken("+") == Parsed(Relative(1, None), 1)
  {
  }

  lemma PlusTwoToken()
    ensures ParseToken("+2") == Parsed(Relative(2, None), 2)
  {
    var t := "+2";
    assert t[1..] == "2" && DigitRun("2") == 1;
    assert t[1..2] == "2" && Value("2") == 2;
    assert t[2..] == "";
  }

  lemma SixToken()
    ensures ParseToken("6") == Parsed(Absolute("6"), 1)
  {
    assert DigitRun("6") == 1 && "6"[..1] == "6";
  }

  lemma ResetToken()
    ensures ParseToken("=") == Parsed(Reset, 1)
  {
  }

  lemma FreeToken()
    ensures ParseToken("~") == Parsed(Free, 1)
  {
  }

  lemma RepeatToken()
    ensures ParseToken("bis") == Parsed(Repeat, 3)
  {
  }

  lemma SpanOneToken()
    ensures ParseToken("-+1") == Parsed(Relative(1, Some(1)), 3)
  {
    var t := "-+1";
    assert t[0..] == t && t[2..] == "1" && DigitRun("1") == 1;
    assert t[2..3] == "1" && Value("1") == 1;
  }

  lemma SpanSevenToken()
    ensures ParseToken("-+7") == Parsed(Relative(1, Some(7)), 3)
  {
    var t := "-+7";
    assert t[0..] == t && t[2..] == "7" && DigitRun("7") == 1;
    assert t[2..3] == "7" && Value("7") == 7;
  }

  lemma StepSpanToken()
    ensures ParseToken("+1-+1") == Parsed(Relative(1, Some(1)), 5)
  {
    var t := "+1-+1";
    assert t[1..] == "1-+1" && DigitRun("1-+1") == 1;
    assert t[1..2] == "1" && Value("1") == 1;
    assert t[2..] == "-+1" && "-+1"[2..] == "1" && DigitRun("1") == 1;
    assert t[4..5] == "1";
  }

  /** A table reset by `L#=`, rows numbered after it, `bis` and `~` kept. */
  lemma ResetAndRepeat()
    ensures Modify("L#=\nL#\nL#|L#bis\nL#~") == "L#=\nL#1\nL#2|L#bis\nL#~"
  {
    ResetAndRepeatInput();
    ResetAndRepeatOutput();
    ResetAndRepeatLayout();
    ResetAndRepeatWellFormed();
    ResetAndRepeatMigrated();
    MigrateLayout(ResetAndRepeatMarked(), 0, false);
  }

  lemma ResetAndRepeatInput()
    ensures "L#=\nL#\nL#|L#bis\nL#~" == "L#" + "=" + ("\n" + ("L#" + "" + ("\n" + ("L#" + "" + ("|" + ("L#" + "bis" + ("\n" + ("L#" + "~" + ("" + "")))))))))
  {
  }

  lemma ResetAndRepeatOutput()
    ensures "L#=\nL#1\nL#2|L#bis\nL#~" == "L#" + "=" + "\n" + ("L#" + "1" + "\n" + ("L#" + "2" + "|" + ("L#" + "bis" + "\n" + ("L#" + "~" + "" + ""))))
  {
  }

  function ResetAndRepeatMarked(): Marked
  {
    Marker("=", "\n", Marker("", "\n", Marker("", "|", Marker("bis", "\n", Marker("~", "", End)))))
  }

  lemma ResetAndRepeatLayout()
    ensures Layout(ResetAndRepeatMarked()) == "L#" + "=" + ("\n" + ("L#" + "" + ("\n" + ("L#" + "" + ("|" + ("L#" + "bis" + ("\n" + ("L#" + "~" + ("" + "")))))))))
  {
  }

  lemma ResetAndRepeatWellFormed()
    ensures WellFormed(ResetAndRepeatMarked())
  {
    EmptyToken(); FreeToken(); RepeatToken(); ResetToken();
  }

  lemma ResetAndRepeatFrom4()
    ensures MigrateMarked(Marker("~", "", End), 2, true) == Some("L#" + "~" + "" + "")
  {
    FreeToken();
    var m4 := Marker("~", "", End);
    assert MigrateMarked(m4, 2, true) == Some("L#" + "~" + "" + "");
  }

  lemma ResetAndRepeatMigrated()
    ensures MigrateMarked(Marker("=", "\n", Marker("", "\n", Marker("", "|", Marker("bis", "\n", Marker("~", "", End))))), 0, false) == Some("L#" + "=" + "\n" + ("L#" + "1" + "\n" + ("L#" + "2" + "|" + ("L#" + "bis" + "\n" + ("L#" + "~" + "" + "")))))
  {
    EmptyToken(); RepeatToken(); ResetToken();
    assert Str(1) == "1" && Str(2) == "2";
    ResetAndRepeatFrom4();
    var m3 := Marker("bis", "\n", Marker("~", "", End));
    assert MigrateMarked(m3, 2, false) == Some("L#" + "bis" + "\n" + ("L#" + "~" + "" + ""));
    var m2 := Marker("", "|", m3);
    assert MigrateMarked(m2, 1, false) == Some("L#" + "2" + "|" + ("L#" + "bis" + "\n" + ("L#" + "~" + "" + "")));
    var m1 := Marker("", "\n", m2);
    assert MigrateMarked(m1, 0, false) == Some("L#" + "1" + "\n" + ("L#" + "2" + "|" + ("L#" + "bis" + "\n" + ("L#" + "~" + "" + ""))));
    var m0 := Marker("=", "\n", m1);
    assert MigrateMarked(m0, 0, false) == Some("L#" + "=" + "\n" + ("L#" + "1" + "\n" + ("L#" + "2" + "|" + ("L#" + "bis" + "\n" + ("L#" + "~" + "" + "")))));
  }

  /** A row to number after a `bis` of the same table: the text is left as it is. */
  lemma RepeatBlocks()
    ensures Modify("L#=\nL#\nL#bis|L#\nL#~") == "L#=\nL#\nL#bis|L#\nL#~"
  {
    RepeatBlocksInput();
    RepeatBlocksLayout();
    RepeatBlocksWellFormed();
    RepeatBlocksMigrated();
    MigrateLayout(RepeatBlocksMarked(), 0, false);
  }

  lemma RepeatBlocksInput()
    ensures "L#=\nL#\nL#bis|L#\nL#~" == "L#" + "=" + ("\n" + ("L#" + "" + ("\n" + ("L#" + "bis" + ("|" + ("L#" + "" + ("\n" + ("L#" + "~" + ("" + "")))))))))
  {
  }

  function RepeatBlocksMarked(): Marked
  {
    Marker("=", "\n", Marker("", "\n", Marker("bis", "|", Marker("", "\n", Marker("~", "", End)))))
  }

  lemma RepeatBlocksLayout()
    ensures Layout(RepeatBlocksMarked()) == "L#" + "=" + ("\n" + ("L#" + "" + ("\n" + ("L#" + "bis" + ("|" + ("L#" + "" + ("\n" + ("L#" + "~" + ("" + "")))))))))
  {
  }

  lemma RepeatBlocksWellFormed()
    ensures WellFormed(RepeatBlocksMarked())
  {
    EmptyToken(); FreeToken(); RepeatToken(); ResetToken();
  }

  lemma RepeatBlocksMigrated()
    ensures MigrateMarked(Marker("=", "\n", Marker("", "\n", Marker("bis", "|", Marker("", "\n", Marker("~", "", End))))), 0, false) == None
  {
    EmptyToken(); RepeatToken(); ResetToken();
    assert Str(1) == "1";
    var m3 := Marker("", "\n", Marker("~", "", End));
    assert MigrateMarked(m3, 1, true) == None;
    var m2 := Marker("bis", "|", m3);
    assert MigrateMarked(m2, 1, false) == None;
    var m1 := Marker("", "\n", m2);
    assert MigrateMarked(m1, 0, false) == None;
    var m0 := Marker("=", "\n", m1);
    assert MigrateMarked(m0, 0, false) == None;
  }

  /** Rows after the previous one, by 1 or by `+N`, and a row given by its number. */
  lemma RelativeRows()
    ensures Modify("L#\nL#+2\nL#\nL#6\nL#+2\nL#+\nL#") == "L#1\nL#3\nL#4\nL#6\nL#8\nL#9\nL#10"
  {
    RelativeRowsInput();
    RelativeRowsOutput();
    RelativeRowsLayout();
    RelativeRowsWellFormed();
    RelativeRowsMigrated();
    MigrateLayout(RelativeRowsMarked(), 0, false);
  }

  lemma RelativeRowsInput()
    ensures "L#\nL#+2\nL#\nL#6\nL#+2\nL#+\nL#" == "L#" + "" + ("\n" + ("L#" + "+2" + ("\n" + ("L#" + "" + ("\n" + ("L#" + "6" + ("\n" + ("L#" + "+2" + ("\n" + ("L#" + "+" + ("\n" + ("L#" + "" + ("" + "")))))))))))))
  {
  }

  lemma RelativeRowsOutput()
    ensures "L#1\nL#3\nL#4\nL#6\nL#8\nL#9\nL#10" == "L#" + "1" + "\n" + ("L#" + "3" + "\n" + ("L#" + "4" + "\n" + ("L#" + "6" + "\n" + ("L#" + "8" + "\n" + ("L#" + "9" + "\n" + ("L#" + "10" + "" + ""))))))
  {
  }

  function RelativeRowsMarked(): Marked
  {
    Marker("", "\n", Marker("+2", "\n", Marker("", "\n", Marker("6", "\n", Marker("+2", "\n", Marker("+", "\n", Marker("", "", End)))))))
  }

  lemma RelativeRowsLayout()
    ensures Layout(RelativeRowsMarked()) == "L#" + "" + ("\n" + ("L#" + "+2" + ("\n" + ("L#" + "" + ("\n" + ("L#" + "6" + ("\n" + ("L#" + "+2" + ("\n" + ("L#" + "+" + ("\n" + ("L#" + "" + ("" + "")))))))))))))
  {
  }

  lemma RelativeRowsWellFormed()
    ensures WellFormed(RelativeRowsMarked())
  {
    EmptyToken(); PlusToken(); PlusTwoToken(); SixToken();
  }

  lemma RelativeRowsFrom4()
    ensures MigrateMarked(Marker("+2", "\n", Marker("+", "\n", Marker("", "", End))), 6, false) == Some("L#" + "8" + "\n" + ("L#" + "9" + "\n" + ("L#" + "10" + "" + "")))
  {
    EmptyToken(); PlusToken(); PlusTwoToken();
    assert Str(8) == "8" && Str(9) == "9" && Str(10) == "10";
    var m6 := Marker("", "", End);
    assert MigrateMarked(m6, 9, false) == Some("L#" + "10" + "" + "");
    var m5 := Marker("+", "\n", m6);
    assert MigrateMarked(m5, 8, false) == Some("L#" + "9" + "\n" + ("L#" + "10" + "" + ""));
    var m4 := Marker("+2", "\n", m5);
    assert MigrateMarked(m4, 6, false) == Some("L#" + "8" + "\n" + ("L#" + "9" + "\n" + ("L#" + "10" + "" + "")));
  }

  lemma RelativeRowsMigrated()
    ensures MigrateMarked(Marker("", "\n", Marker("+2", "\n", Marker("", "\n", Marker("6", "\n", Marker("+2", "\n", Marker("+", "\n", Marker("", "", End))))))), 0, false) == Some("L#" + "1" + "\n" + ("L#" + "3" + "\n" + ("L#" + "4" + "\n" + ("L#" + "6" + "\n" + ("L#" + "8" + "\n" + ("L#" + "9" + "\n" + ("L#" + "10" + "" + "")))))))
  {
    EmptyToken(); PlusTwoToken(); SixToken();
    assert Str(1) == "1" && Str(3) == "3" && Str(4) == "4";
    RelativeRowsFrom4();
    var m3 := Marker("6", "\n", Marker("+2", "\n", Marker("+", "\n", Marker("", "", End))));
    assert MigrateMarked(m3, 4, false) == Some("L#" + "6" + "\n" + ("L#" + "8" + "\n" + ("L#" + "9" + "\n" + ("L#" + "10" + "" + ""))));
    var m2 := Marker("", "\n", m3);
    assert MigrateMarked(m2, 3, false) == Some("L#" + "4" + "\n" + ("L#" + "6" + "\n" + ("L#" + "8" + "\n" + ("L#" + "9" + "\n" + ("L#" + "10" + "" + "")))));
    var m1 := Marker("+2", "\n", m2);
    assert MigrateMarked(m1, 1, false) == Some("L#" + "3" + "\n" + ("L#" + "4" + "\n" + ("L#" + "6" + "\n" + ("L#" + "8" + "\n" + ("L#" + "9" + "\n" + ("L#" + "10" + "" + ""))))));
    var m0 := Marker("", "\n", m1);
    assert MigrateMarked(m0, 0, false) == Some("L#" + "1" + "\n" + ("L#" + "3" + "\n" + ("L#" + "4" + "\n" + ("L#" + "6" + "\n" + ("L#" + "8" + "\n" + ("L#" + "9" + "\n" + ("L#" + "10" + "" + "")))))));
  }

  /** Ranges of rows, `+A-+N` and `-+N`. */
  lemma RangeRows()
    ensures Modify("L#\nL#+1-+1\nL#-+1") == "L#1\nL#2-3\nL#4-5"
  {
    RangeRowsInput();
    RangeRowsOutput();
    RangeRowsLayout();
    RangeRowsWellFormed();
    RangeRowsMigrated();
    MigrateLayout(RangeRowsMarked(), 0, false);
  }

  lemma RangeRowsInput()
    ensures "L#\nL#+1-+1\nL#-+1" == "L#" + "" + ("\n" + ("L#" + "+1-+1" + ("\n" + ("L#" + "-+1" + ("" + "")))))
  {
  }

  lemma RangeRowsOutput()
    ensures "L#1\nL#2-3\nL#4-5" == "L#" + "1" + "\n" + ("L#" + "2" + "-" + "3" + "\n" + ("L#" + "4" + "-" + "5" + "" + ""))
  {
  }

  function RangeRowsMarked(): Marked
  {
    Marker("", "\n", Marker("+1-+1", "\n", Marker("-+1", "", End)))
  }

  lemma RangeRowsLayout()
    ensures Layout(RangeRowsMarked()) == "L#" + "" + ("\n" + ("L#" + "+1-+1" + ("\n" + ("L#" + "-+1" + ("" + "")))))
  {
  }

  lemma RangeRowsWellFormed()
    ensures WellFormed(RangeRowsMarked())
  {
    EmptyToken(); SpanOneToken(); StepSpanToken();
  }

  lemma RangeRowsMigrated()
    ensures MigrateMarked(Marker("", "\n", Marker("+1-+1", "\n", Marker("-+1", "", End))), 0, false) == Some("L#" + "1" + "\n" + ("L#" + "2" + "-" + "3" + "\n" + ("L#" + "4" + "-" + "5" + "" + "")))
  {
    EmptyToken(); SpanOneToken(); StepSpanToken();
    assert Str(1) == "1" && Str(2) == "2" && Str(3) == "3" && Str(4) == "4" && Str(5) == "5";
    var m2 := Marker("-+1", "", End);
    assert MigrateMarked(m2, 3, false) == Some("L#" + "4" + "-" + "5" + "" + "");
    var m1 := Marker("+1-+1", "\n", m2);
    assert MigrateMarked(m1, 1, false) == Some("L#" + "2" + "-" + "3" + "\n" + ("L#" + "4" + "-" + "5" + "" + ""));
    var m0 := Marker("", "\n", m1);
    assert MigrateMarked(m0, 0, false) == Some("L#" + "1" + "\n" + ("L#" + "2" + "-" + "3" + "\n" + ("L#" + "4" + "-" + "5" + "" + "")));
  }

  /** A range followed by the rest of its cell. */
  lemma RangeInCell()
    ensures Modify("L#-+7 | 5c\nL#") == "L#1-8 | 5c\nL#9"
  {
    RangeInCellInput();
    RangeInCellOutput();
    RangeInCellLayout();
    RangeInCellWellFormed();
    RangeInCellMigrated();
    MigrateLayout(RangeInCellMarked(), 0, false);
  }

  lemma RangeInCellInput()
    ensures "L#-+7 | 5c\nL#" == "L#" + "-+7" + (" | 5c\n" + ("L#" + "" + ("" + "")))
  {
  }

  lemma RangeInCellOutput()
    ensures "L#1-8 | 5c\nL#9" == "L#" + "1" + "-" + "8" + " | 5c\n" + ("L#" + "9" + "" + "")
  {
  }

  function RangeInCellMarked(): Marked
  {
    Marker("-+7", " | 5c\n", Marker("", "", End))
  }

  lemma RangeInCellLayout()
    ensures Layout(RangeInCellMarked()) == "L#" + "-+7" + (" | 5c\n" + ("L#" + "" + ("" + "")))
  {
  }

  lemma RangeInCellWellFormed()
    ensures WellFormed(RangeInCellMarked())
  {
    EmptyToken(); SpanSevenToken();
  }

  lemma RangeInCellMigrated()
    ensures MigrateMarked(Marker("-+7", " | 5c\n", Marker("", "", End)), 0, false) == Some("L#" + "1" + "-" + "8" + " | 5c\n" + ("L#" + "9" + "" + ""))
  {
    EmptyToken(); SpanSevenToken();
    assert Str(1) == "1" && Str(8) == "8" && Str(9) == "9";
    var m1 := Marker("", "", End);
    assert MigrateMarked(m1, 8, false) == Some("L#" + "9" + "" + "");
    var m0 := Marker("-+7", " | 5c\n", m1);
    assert MigrateMarked(m0, 0, false) == Some("L#" + "1" + "-" + "8" + " | 5c\n" + ("L#" + "9" + "" + ""));
  }
}
