/**
 * Translation of the simple BBCode tags into Markdown or HTML, in one
 * left-to-right scan:
 *   - `[b]`, `[/b]`, `[i]`, `[/i]` become `**` and `*`; white space just
 *     inside an emphasis is moved outside it, and an empty pair disappears;
 *   - `[sub]`, `[sup]`, `[s]` and their closing tags become the HTML tags of
 *     the same name;
 *   - `[email]a[/email]` and `[email=a]t[/email]` become `[a](mailto:a)` and
 *     `[t](mailto:a)`;
 *   - `[url]u[/url]` and `[url=]u[/url]` become `u` and a space when `u`
 *     looks like an address, `[url=a]t[/url]` becomes `[t](a)`.
 */
module BBCodeRemover {
  import opened Wrappers
  import opened Text
  import opened Rewriting

  predicate IsSpace(c: char) { c == ' ' || c == '\t' || c == '\r' || c == '\n' }

  predicate AllSpace(s: string) { forall k :: 0 <= k < |s| ==> IsSpace(s[k]) }

  /** Length of the white space at the start of `s`. */
  function SpaceRun(s: string): (n: nat)
    ensures n <= |s| && AllSpace(s[..n])
    ensures n == |s| || !IsSpace(s[n])
  {
    if |s| == 0 || !IsSpace(s[0]) then 0 else 1 + SpaceRun(s[1..])
  }

  // Tag names are compared character by character.

  /** `b` or `i`. */
  predicate IsEmphasis(name: string) { |name| == 1 && (name[0] == 'b' || name[0] == 'i') }

  function Mark(name: string): string { if 0 < |name| && name[0] == 'b' then "**" else "*" }

  /** `sub`, `sup` or `s`. */
  predicate IsHtml(name: string)
  {
    || (|name| == 1 && name[0] == 's')
    || (|name| == 3 && name[0] == 's' && name[1] == 'u' && (name[2] == 'b' || name[2] == 'p'))
  }

  predicate IsEmail(name: string)
  {
    |name| == 5 && name[0] == 'e' && name[1] == 'm' && name[2] == 'a' && name[3] == 'i' && name[4] == 'l'
  }

  predicate IsUrl(name: string) { |name| == 3 && name[0] == 'u' && name[1] == 'r' && name[2] == 'l' }

  /** A tag name ends at `]` or `=`. */
  const NameStops: set<char> := {']', '='}

  /** Does the text of a bare link look like an address? */
  predicate LooksLikeAddress(u: string)
  {
    StartsWith(u, "http://") || StartsWith(u, "https://") || StartsWith(u, "www.")
  }

  function Rule(s: string): Option<Step>
  {
    var w := SpaceRun(s);
    if 0 < w then SpacedClose(s, w)
    else if 0 < |s| && s[0] == '[' then TagRule(s)
    else None
  }

  /** White space followed by an emphasis closing tag: the mark goes first. */
  function SpacedClose(s: string, w: nat): Option<Step>
    requires w <= |s|
  {
    if StartsWith(s[w..], "[/b]") then Some(Step(w + 4, "**" + s[..w]))
    else if StartsWith(s[w..], "[/i]") then Some(Step(w + 4, "*" + s[..w]))
    else None
  }

  /** A tag `[name]…` or `[name=…`. */
  function TagRule(s: string): Option<Step>
    requires 0 < |s|
  {
    var n := Before(s[1..], NameStops);
    if 1 + n == |s| then None
    else if s[1 + n] == ']' then Closed(s, s[1..1 + n], n + 2)
    else Valued(s, s[1..1 + n], n + 2)
  }

  /** Length of the text after position `k`, up to the next `[`, if `close` follows it. */
  function Enclosed(s: string, k: nat, close: string): (r: Option<nat>)
    requires k <= |s|
    ensures r.Some? ==> k + r.value + |close| <= |s|
  {
    var c := Before(s[k..], {'['});
    if StartsWith(s[k + c..], close) then Some(c) else None
  }

  /** The tag `[name]` takes the first `k` characters of `s`. */
  function Closed(s: string, name: string, k: nat): Option<Step>
    requires 0 < k <= |s|
  {
    var after := s[k..];
    if IsEmphasis(name) then
      if StartsWith(after, "[/" + name + "]") then Some(Step(k + |name| + 3, ""))
      else
        var w := SpaceRun(after);
        Some(Step(k + w, after[..w] + Mark(name)))
    else if 0 < |name| && name[0] == '/' && IsEmphasis(name[1..]) then Some(Step(k, Mark(name[1..])))
    else if IsHtml(name) || (0 < |name| && name[0] == '/' && IsHtml(name[1..])) then
      Some(Step(k, "<" + name + ">"))
    else if IsEmail(name) then
      match Enclosed(s, k, "[/email]")
      case Some(c) =>
        var a := s[k..k + c];
        Some(Step(k + c + 8, "[" + a + "](mailto:" + a + ")"))
      case None => None
    else if IsUrl(name) then Bare(s, k)
    else None
  }

  /** A bare link whose text starts after the opening tag of length `k`. */
  function Bare(s: string, k: nat): Option<Step>
    requires 0 < k <= |s|
  {
    match Enclosed(s, k, "[/url]")
    case Some(c) =>
      var u := s[k..k + c];
      if LooksLikeAddress(u) then Some(Step(k + c + 6, u + " ")) else None
    case None => None
  }

  /** The tag `[name=value]`, whose first `k` characters are `[name=`. */
  function Valued(s: string, name: string, k: nat): Option<Step>
    requires 0 < k <= |s|
  {
    var v := Before(s[k..], {']'});
    if k + v == |s| then None
    else
      var value := s[k..k + v];
      var j := k + v + 1;
      if IsEmail(name) then
        match Enclosed(s, j, "[/email]")
        case Some(c) => Some(Step(j + c + 8, "[" + s[j..j + c] + "](mailto:" + value + ")"))
        case None => None
      else if IsUrl(name) then
        if value == "" then Bare(s, j)
        else
          match Enclosed(s, j, "[/url]")
          case Some(c) => Some(Step(j + c + 6, "[" + s[j..j + c] + "](" + value + ")"))
          case None => None
      else None
  }

  function Modify(s: string): string
  {
    Rewrite(Rule, s)
  }

  lemma {:induction false} SpaceRunAt(w: string, rest: string)
    requires AllSpace(w)
    requires |rest| == 0 || !IsSpace(rest[0])
    ensures SpaceRun(w + rest) == |w|
    decreases |w|
  {
    if |w| == 0 {
      assert w + rest == rest;
    } else {
      assert (w + rest)[1..] == w[1..] + rest;
      SpaceRunAt(w[1..], rest);
    }
  }

  lemma {:induction false} RunStops(t: string, m: nat)
    requires m < |t| && !IsSpace(t[m])
    ensures SpaceRun(t) <= m
    decreases m
  {
    if 0 < m && IsSpace(t[0]) {
      RunStops(t[1..], m - 1);
    }
  }

  /** At a tag the rule looks at its name and at the character that ends it. */
  lemma TagAt(name: string, sep: char, rest: string)
    requires Avoids(name, NameStops) && sep in NameStops
    ensures var s := "[" + name + [sep] + rest;
      Rule(s) == if sep == ']' then Closed(s, name, |name| + 2) else Valued(s, name, |name| + 2)
  {
    var s := "[" + name + [sep] + rest;
    assert s[1..] == name + ([sep] + rest);
    BeforeAt(name, NameStops, [sep] + rest);
    assert s[1..1 + |name|] == name;
    assert SpaceRun(s) == 0;
  }

  /** The text up to the next `[` is found when `close` follows it. */
  lemma EnclosedAt(pre: string, c: string, close: string, rest: string)
    requires Avoids(c, {'['}) && 0 < |close| && close[0] == '['
    ensures var s := pre + c + close + rest;
      Enclosed(s, |pre|, close) == Some(|c|) && s[|pre|..|pre| + |c|] == c
  {
    var s := pre + c + close + rest;
    assert s[|pre|..] == c + (close + rest);
    BeforeAt(c, {'['}, close + rest);
    assert s[|pre| + |c|..] == close + rest;
    assert (close + rest)[..|close|] == close;
  }

  /** Text without `[`, that does not end in white space before `[` or more white space, is copied. */
  lemma PlainThen(p: string, rest: string)
    requires Avoids(p, {'['})
    requires |p| == 0 || !IsSpace(p[|p| - 1]) || |rest| == 0 || (rest[0] != '[' && !IsSpace(rest[0]))
    ensures Modify(p + rest) == p + Modify(rest)
  {
    forall i | 0 <= i < |p| ensures Rule((p + rest)[i..]).None? {
      QuietAt(p, rest, i);
    }
    RewriteSkip(Rule, p, rest);
  }

  lemma QuietAt(p: string, rest: string, i: nat)
    requires Avoids(p, {'['}) && i < |p|
    requires !IsSpace(p[|p| - 1]) || |rest| == 0 || (rest[0] != '[' && !IsSpace(rest[0]))
    ensures Rule((p + rest)[i..]).None?
  {
    var t := (p + rest)[i..];
    assert t[0] == p[i];
    var w := SpaceRun(t);
    var last := |p| - i - 1;
    assert t[last] == p[|p| - 1];
    if !IsSpace(p[|p| - 1]) {
      RunStops(t, last);
      assert t[w] == p[i + w];
    } else if |rest| > 0 {
      assert t[last + 1] == rest[0];
      RunStops(t, last + 1);
      if w <= last { assert t[w] == p[i + w]; }
    } else if w < |t| {
      assert t[w] == p[i + w];
    }
    assert w == |t| || t[w] != '[';
    NoCloseAt(t[w..]);
  }

  lemma NoCloseAt(x: string)
    requires |x| == 0 || x[0] != '['
    ensures !StartsWith(x, "[/b]") && !StartsWith(x, "[/i]")
  {
    if 4 <= |x| {
      assert x[..4][0] == x[0];
    }
  }

  /** Text without `[` is left as it is. */
  lemma TextWithoutBrackets(p: string)
    requires Avoids(p, {'['})
    ensures Modify(p) == p
  {
    forall i | 0 <= i < |p| ensures Rule(p[i..]).None? {
      QuietAt(p, "", i);
      assert (p + "")[i..] == p[i..];
    }
    RewritePlain(Rule, p);
  }

  /** White space that comes before neither more white space nor an emphasis closing tag is copied. */
  lemma SpacesThen(w: string, rest: string)
    requires AllSpace(w)
    requires |rest| == 0 || !IsSpace(rest[0])
    requires !StartsWith(rest, "[/b]") && !StartsWith(rest, "[/i]")
    ensures Modify(w + rest) == w + Modify(rest)
  {
    forall i | 0 <= i < |w| ensures Rule((w + rest)[i..]).None? {
      var t := (w + rest)[i..];
      assert t == w[i..] + rest;
      SpaceRunAt(w[i..], rest);
      assert t[|w| - i..] == rest;
    }
    RewriteSkip(Rule, w, rest);
  }

  /** An emphasis opening tag becomes its mark, after the white space that follows the tag. */
  lemma Opened(name: string, w: string, rest: string)
    requires IsEmphasis(name) && AllSpace(w)
    requires |rest| == 0 || !IsSpace(rest[0])
    requires |w| > 0 || !StartsWith(rest, "[/" + name + "]")
    ensures Modify("[" + name + "]" + w + rest) == w + Mark(name) + Modify(rest)
  {
    OpenFires(name, w, rest);
    assert "[" + name + "]" + w + rest == ("[" + name + "]" + w) + rest;
    RewriteFire(Rule, "[" + name + "]" + w, rest, w + Mark(name));
  }

  lemma OpenFires(name: string, w: string, rest: string)
    requires IsEmphasis(name) && AllSpace(w)
    requires |rest| == 0 || !IsSpace(rest[0])
    requires |w| > 0 || !StartsWith(rest, "[/" + name + "]")
    ensures Rule("[" + name + "]" + w + rest) == Some(Step(|name| + 2 + |w|, w + Mark(name)))
  {
    var s := "[" + name + "]" + (w + rest);
    assert s == "[" + name + "]" + w + rest;
    TagAt(name, ']', w + rest);
    assert s[|name| + 2..] == w + rest;
    SpaceRunAt(w, rest);
    assert !StartsWith(w + rest, "[/" + name + "]") by {
      if |w| > 0 { assert (w + rest)[0] == w[0]; }
      else { assert w + rest == rest; }
    }
    assert (w + rest)[..|w|] == w;
  }

  /** An emphasis closing tag becomes its mark, before the white space that precedes the tag. */
  lemma Closing(name: string, w: string, rest: string)
    requires IsEmphasis(name) && AllSpace(w)
    ensures Modify(w + "[/" + name + "]" + rest) == Mark(name) + w + Modify(rest)
  {
    if |w| == 0 {
      assert w + "[/" + name + "]" + rest == "[/" + name + "]" + rest;
      ClosingTag(name, rest);
    } else {
      SpacedClosing(name, w, rest);
    }
  }

  lemma ClosingTag(name: string, rest: string)
    requires IsEmphasis(name)
    ensures Modify("[/" + name + "]" + rest) == Mark(name) + Modify(rest)
  {
    var s := "[" + ("/" + name) + "]" + rest;
    assert s == "[/" + name + "]" + rest;
    assert Avoids("/" + name, NameStops);
    TagAt("/" + name, ']', rest);
    assert ("/" + name)[1..] == name;
    assert Rule(s) == Some(Step(|name| + 3, Mark(name)));
    RewriteFire(Rule, "[/" + name + "]", rest, Mark(name));
  }

  lemma SpacedClosing(name: string, w: string, rest: string)
    requires IsEmphasis(name) && AllSpace(w) && 0 < |w|
    ensures Modify(w + "[/" + name + "]" + rest) == Mark(name) + w + Modify(rest)
  {
    var close := "[/" + name + "]";
    SpacedCloseFires(name, w, close + rest);
    assert w + "[/" + name + "]" + rest == (w + close) + rest;
    assert w + (close + rest) == (w + close) + rest;
    RewriteFire(Rule, w + close, rest, Mark(name) + w);
  }

  lemma SpacedCloseFires(name: string, w: string, t: string)
    requires IsEmphasis(name) && AllSpace(w) && 0 < |w|
    requires StartsWith(t, "[/" + name + "]")
    ensures Rule(w + t) == Some(Step(|w| + 4, Mark(name) + w))
  {
    var s := w + t;
    assert t[0] == '[';
    SpaceRunAt(w, t);
    assert s[|w|..] == t;
    assert s[..|w|] == w;
    if name == "i" {
      assert !StartsWith(t, "[/b]") by { assert t[..4][2] == 'i'; }
    }
  }

  /** An emphasis pair with nothing inside disappears. */
  lemma EmptyDropped(name: string, rest: string)
    requires IsEmphasis(name)
    ensures Modify("[" + name + "][/" + name + "]" + rest) == Modify(rest)
  {
    var close := "[/" + name + "]";
    var s := "[" + name + "]" + (close + rest);
    assert s == "[" + name + "][/" + name + "]" + rest;
    TagAt(name, ']', close + rest);
    assert s[|name| + 2..] == close + rest;
    assert (close + rest)[..|close|] == close;
    assert Rule(s) == Some(Step(2 * |name| + 5, ""));
    assert s == ("[" + name + "][/" + name + "]") + rest;
    RewriteFire(Rule, "[" + name + "][/" + name + "]", rest, "");
  }

  /** `[sub]`, `[sup]`, `[s]` and their closing tags become HTML tags. */
  lemma HtmlTag(name: string, rest: string)
    requires IsHtml(name) || (0 < |name| && name[0] == '/' && IsHtml(name[1..]))
    ensures Modify("[" + name + "]" + rest) == "<" + name + ">" + Modify(rest)
  {
    assert Avoids(name, NameStops);
    TagAt(name, ']', rest);
    assert "[" + name + "]" + rest == "[" + name + [']'] + rest;
    RewriteFire(Rule, "[" + name + "]", rest, "<" + name + ">");
  }

  // The link tags. Each is handled in two steps: a layout lemma says where the
  // parts of a tag written as a concatenation lie, and a positional lemma says
  // what the rewriting makes of any text whose parts lie there.

  /** The rule at a tag looks at its name and at the character that ends it. */
  lemma TagNamed(s: string, n: nat)
    requires 1 + n < |s| && s[0] == '[' && Before(s[1..], NameStops) == n
    ensures Rule(s) == if s[1 + n] == ']' then Closed(s, s[1..1 + n], n + 2) else Valued(s, s[1..1 + n], n + 2)
  {
    assert SpaceRun(s) == 0;
  }

  /** The rule at a tag whose name ends with `=`. */
  lemma TagValued(s: string, n: nat)
    requires 1 + n < |s| && s[0] == '[' && Before(s[1..], NameStops) == n && s[1 + n] == '='
    ensures Rule(s) == Valued(s, s[1..1 + n], n + 2)
  {
    TagNamed(s, n);
  }

  /** Where the parts of `[name]t` followed by `close` lie. */
  lemma ClosedLayout(name: string, t: string, close: string, rest: string)
    requires Avoids(name, NameStops) && Avoids(t, {'['})
    requires 0 < |close| && close[0] == '['
    ensures var s := "[" + name + "]" + t + close + rest;
      var k := |name| + 2;
      s[0] == '[' && Before(s[1..], NameStops) == |name| && s[1 + |name|] == ']' && s[1..1 + |name|] == name
      && Enclosed(s, k, close) == Some(|t|) && s[k..k + |t|] == t && s[k + |t| + |close|..] == rest
  {
    var s := "[" + name + "]" + t + close + rest;
    var k := |name| + 2;
    assert s[1..] == name + ("]" + t + close + rest);
    BeforeAt(name, NameStops, "]" + t + close + rest);
    assert s == ("[" + name + "]") + t + close + rest;
    EnclosedAt("[" + name + "]", t, close, rest);
  }

  /** Where the parts of `[name=v]t` followed by `close` lie. */
  lemma ValueLayout(name: string, v: string, t: string, close: string, rest: string)
    requires Avoids(name, NameStops) && Avoids(v, {']'}) && Avoids(t, {'['})
    requires 0 < |close| && close[0] == '['
    ensures var s := "[" + name + "=" + v + "]" + t + close + rest;
      var k := |name| + 2;
      var j := k + |v| + 1;
      s[0] == '[' && Before(s[1..], NameStops) == |name| && s[1 + |name|] == '=' && s[1..1 + |name|] == name
      && Before(s[k..], {']'}) == |v| && s[k..k + |v|] == v && s[k + |v|] == ']'
      && Enclosed(s, j, close) == Some(|t|) && s[j..j + |t|] == t && s[j + |t| + |close|..] == rest
  {
    ValueName(name, v, t + close + rest);
    ValueText(name, v, t + close + rest);
    EnclosedAt("[" + name + "=" + v + "]", t, close, rest);
    Regroup5("[" + name + "=", v, "]", t, close, rest);
  }

  lemma Regroup5(a: string, b: string, c: string, d: string, e: string, f: string)
    ensures a + b + c + (d + e + f) == a + b + c + d + e + f
  {}

  lemma ValueName(name: string, v: string, x: string)
    requires Avoids(name, NameStops)
    ensures var s := "[" + name + "=" + v + "]" + x;
      s[0] == '[' && Before(s[1..], NameStops) == |name| && s[1 + |name|] == '=' && s[1..1 + |name|] == name
  {
    var s := "[" + name + "=" + v + "]" + x;
    assert s[1..] == name + ("=" + v + "]" + x);
    BeforeAt(name, NameStops, "=" + v + "]" + x);
  }

  lemma ValueText(name: string, v: string, x: string)
    requires Avoids(v, {']'})
    ensures var s := "[" + name + "=" + v + "]" + x;
      var k := |name| + 2;
      Before(s[k..], {']'}) == |v| && s[k..k + |v|] == v && s[k + |v|] == ']'
  {
    var s := "[" + name + "=" + v + "]" + x;
    var k := |name| + 2;
    assert s[k..] == v + ("]" + x);
    BeforeAt(v, {']'}, "]" + x);
  }

  /** A text that starts with `[email]a[/email]` and goes on with `rest`. */
  lemma MailAt(s: string, a: string, rest: string)
    requires 6 < |s| && s[0] == '[' && Before(s[1..], NameStops) == 5 && s[6] == ']' && IsEmail(s[1..6])
    requires Enclosed(s, 7, "[/email]") == Some(|a|) && s[7..7 + |a|] == a && s[|a| + 15..] == rest
    ensures Modify(s) == "[" + a + "](mailto:" + a + ")" + Modify(rest)
  {
    TagNamed(s, 5);
    RewriteAt(Rule, s, |a| + 15, "[" + a + "](mailto:" + a + ")");
  }

  /** The value `a` of a mail tag starts at `k`; the text `t` follows it. */
  lemma MailValued(s: string, name: string, k: nat, a: string, t: string)
    requires 0 < k && k + |a| < |s| && Before(s[k..], {']'}) == |a| && s[k..k + |a|] == a && IsEmail(name)
    requires Enclosed(s, k + |a| + 1, "[/email]") == Some(|t|) && s[k + |a| + 1..k + |a| + 1 + |t|] == t
    ensures Valued(s, name, k) == Some(Step(k + |a| + 9 + |t|, "[" + t + "](mailto:" + a + ")"))
  {
  }

  /** The address `a` of a link starts at `k`; the text `t` follows it. */
  lemma LinkValued(s: string, name: string, k: nat, a: string, t: string)
    requires 0 < k && k + |a| < |s| && Before(s[k..], {']'}) == |a| && s[k..k + |a|] == a && IsUrl(name) && a != ""
    requires Enclosed(s, k + |a| + 1, "[/url]") == Some(|t|) && s[k + |a| + 1..k + |a| + 1 + |t|] == t
    ensures Valued(s, name, k) == Some(Step(k + |a| + 7 + |t|, "[" + t + "](" + a + ")"))
  {
  }

  /** A text that starts with `[email=a]t[/email]` and goes on with `rest`. */
  lemma MailToAt(s: string, a: string, t: string, rest: string)
    requires 6 < |s| && s[0] == '[' && Before(s[1..], NameStops) == 5 && s[6] == '=' && IsEmail(s[1..6])
    requires 7 + |a| < |s| && Before(s[7..], {']'}) == |a| && s[7..7 + |a|] == a
    requires Enclosed(s, 8 + |a|, "[/email]") == Some(|t|) && s[8 + |a|..8 + |a| + |t|] == t
    requires s[|a| + |t| + 16..] == rest
    ensures Modify(s) == "[" + t + "](mailto:" + a + ")" + Modify(rest)
  {
    TagValued(s, 5);
    MailValued(s, s[1..6], 7, a, t);
    RewriteAt(Rule, s, |a| + |t| + 16, "[" + t + "](mailto:" + a + ")");
  }

  /** A text that starts with `[url=a]t[/url]`, `a` not empty, and goes on with `rest`. */
  lemma LinkAt(s: string, a: string, t: string, rest: string)
    requires 4 < |s| && s[0] == '[' && Before(s[1..], NameStops) == 3 && s[4] == '=' && IsUrl(s[1..4])
    requires 0 < |a| && 5 + |a| < |s| && Before(s[5..], {']'}) == |a| && s[5..5 + |a|] == a
    requires Enclosed(s, 6 + |a|, "[/url]") == Some(|t|) && s[6 + |a|..6 + |a| + |t|] == t
    requires s[|a| + |t| + 12..] == rest
    ensures Modify(s) == "[" + t + "](" + a + ")" + Modify(rest)
  {
    TagValued(s, 3);
    LinkValued(s, s[1..4], 5, a, t);
    RewriteAt(Rule, s, |a| + |t| + 12, "[" + t + "](" + a + ")");
  }

  /** A text that starts with `[url]u[/url]`, `u` looking like an address. */
  lemma PlainBareAt(s: string, u: string, rest: string)
    requires 4 < |s| && s[0] == '[' && Before(s[1..], NameStops) == 3 && s[4] == ']' && IsUrl(s[1..4])
    requires Enclosed(s, 5, "[/url]") == Some(|u|) && s[5..5 + |u|] == u && LooksLikeAddress(u)
    requires s[|u| + 11..] == rest
    ensures Modify(s) == u + " " + Modify(rest)
  {
    TagNamed(s, 3);
    RewriteAt(Rule, s, |u| + 11, u + " ");
  }

  /** A text that starts with `[url=]u[/url]`, `u` looking like an address. */
  lemma EmptyValueBareAt(s: string, u: string, rest: string)
    requires 5 < |s| && s[0] == '[' && Before(s[1..], NameStops) == 3 && s[4] == '=' && IsUrl(s[1..4])
    requires Before(s[5..], {']'}) == 0
    requires Enclosed(s, 6, "[/url]") == Some(|u|) && s[6..6 + |u|] == u && LooksLikeAddress(u)
    requires s[|u| + 12..] == rest
    ensures Modify(s) == u + " " + Modify(rest)
  {
    TagNamed(s, 3);
    RewriteAt(Rule, s, |u| + 12, u + " ");
  }

  /** `[email]a[/email]` becomes a mail link whose text is the address. */
  lemma EmailLink(a: string, rest: string)
    requires Avoids(a, {'['})
    ensures Modify("[email]" + a + "[/email]" + rest) == "[" + a + "](mailto:" + a + ")" + Modify(rest)
  {
    var s := "[" + "email" + "]" + a + "[/email]" + rest;
    assert Avoids("email", NameStops) && IsEmail("email");
    ClosedLayout("email", a, "[/email]", rest);
    MailAt(s, a, rest);
    assert "[email]" == "[" + "email" + "]";
  }

  /** `[email=a]t[/email]` becomes a mail link with text `t`. */
  lemma EmailTo(a: string, t: string, rest: string)
    requires Avoids(a, {']'}) && Avoids(t, {'['})
    ensures Modify("[email=" + a + "]" + t + "[/email]" + rest) == "[" + t + "](mailto:" + a + ")" + Modify(rest)
  {
    var s := "[" + "email" + "=" + a + "]" + t + "[/email]" + rest;
    assert Avoids("email", NameStops) && IsEmail("email");
    ValueLayout("email", a, t, "[/email]", rest);
    MailToAt(s, a, t, rest);
    assert "[email=" == "[" + "email" + "=";
  }

  /** `[url=a]t[/url]` becomes the Markdown link `[t](a)`. */
  lemma NamedLink(a: string, t: string, rest: string)
    requires a != "" && Avoids(a, {']'}) && Avoids(t, {'['})
    ensures Modify("[url=" + a + "]" + t + "[/url]" + rest) == "[" + t + "](" + a + ")" + Modify(rest)
  {
    var s := "[" + "url" + "=" + a + "]" + t + "[/url]" + rest;
    assert Avoids("url", NameStops) && IsUrl("url");
    ValueLayout("url", a, t, "[/url]", rest);
    LinkAt(s, a, t, rest);
    assert "[url=" == "[" + "url" + "=";
  }

  /** A bare link whose text looks like an address becomes that text and a space. */
  lemma BareLink(open: string, u: string, rest: string)
    requires open == "[url]" || open == "[url=]"
    requires Avoids(u, {'['}) && LooksLikeAddress(u)
    ensures Modify(open + u + "[/url]" + rest) == u + " " + Modify(rest)
  {
    if open == "[url]" {
      PlainBareLink(u, rest);
    } else {
      EmptyValueBareLink(u, rest);
    }
  }

  lemma PlainBareLink(u: string, rest: string)
    requires Avoids(u, {'['}) && LooksLikeAddress(u)
    ensures Modify("[url]" + u + "[/url]" + rest) == u + " " + Modify(rest)
  {
    var s := "[" + "url" + "]" + u + "[/url]" + rest;
    assert Avoids("url", NameStops) && IsUrl("url");
    ClosedLayout("url", u, "[/url]", rest);
    PlainBareAt(s, u, rest);
    assert "[url]" == "[" + "url" + "]";
  }

  lemma EmptyValueBareLink(u: string, rest: string)
    requires Avoids(u, {'['}) && LooksLikeAddress(u)
    ensures Modify("[url=]" + u + "[/url]" + rest) == u + " " + Modify(rest)
  {
    var s := "[" + "url" + "=" + "" + "]" + u + "[/url]" + rest;
    assert Avoids("url", NameStops) && IsUrl("url") && Avoids("", {']'});
    ValueLayout("url", "", u, "[/url]", rest);
    EmptyValueBareAt(s, u, rest);
    assert "[url=]" == "[" + "url" + "=" + "" + "]";
  }

  /** Text without `[` is copied when a tag other than an emphasis closing tag follows it. */
  lemma WordsBeforeTag(p: string, rest: string)
    requires Avoids(p, {'['}) && 0 < |rest| && rest[0] == '['
    requires !StartsWith(rest, "[/b]") && !StartsWith(rest, "[/i]")
    ensures Modify(p + rest) == p + Modify(rest)
  {
    forall i | 0 <= i < |p| ensures Rule((p + rest)[i..]).None? {
      var t := (p + rest)[i..];
      assert t[0] == p[i];
      assert t[|p| - i] == rest[0];
      RunStops(t, |p| - i);
      var w := SpaceRun(t);
      if w < |p| - i {
        assert t[w] == p[i + w];
        NoCloseAt(t[w..]);
      } else {
        assert t[w..] == rest;
      }
    }
    RewriteSkip(Rule, p, rest);
  }

  /** A link tag opens no emphasis closing tag. */
  lemma LinkTagNotClosing(v: string, rest: string)
    ensures !StartsWith("[url" + v + rest, "[/b]") && !StartsWith("[url" + v + rest, "[/i]")
  {
    NotClosingEmphasis("[url" + v + rest);
  }

  /** At a text that starts with `[url]v[/url]`, `v` not looking like an address, no rule fires. */
  lemma NotAddressAt(s: string, v: string)
    requires 4 < |s| && s[0] == '[' && Before(s[1..], NameStops) == 3 && s[4] == ']' && IsUrl(s[1..4])
    requires Enclosed(s, 5, "[/url]") == Some(|v|) && s[5..5 + |v|] == v && !LooksLikeAddress(v)
    ensures Rule(s).None?
  {
    TagNamed(s, 3);
  }

  lemma CloseUrlDeclined()
    ensures Rule("[/url]").None?
  {
    TagAt("/url", ']', "");
    assert "[" + "/url" + [']'] + "" == "[/url]";
  }

  /** A closing `[/url]` with no opening tag before it is copied. */
  lemma CloseUrlKept()
    ensures Modify("[/url]") == "[/url]"
  {
    CloseUrlDeclined();
    assert "[/url]" == "[" + "/url]";
    RewriteSkip(Rule, "[", "/url]");
    TextWithoutBrackets("/url]");
  }

  /** The `[` of a bare link that does not look like an address is copied. */
  lemma NotAddressOpen(v: string)
    requires Avoids(v, {'['}) && !LooksLikeAddress(v)
    ensures Modify("[url]" + v + "[/url]") == "[" + Modify("url]" + v + "[/url]")
  {
    var s := "[" + "url" + "]" + v + "[/url]" + "";
    assert s == "[url]" + v + "[/url]";
    assert Avoids("url", NameStops) && IsUrl("url");
    ClosedLayout("url", v, "[/url]", "");
    NotAddressAt(s, v);
    assert s == "[" + ("url]" + v + "[/url]");
    RewriteSkip(Rule, "[", "url]" + v + "[/url]");
  }

  /** What follows that `[` is copied too. */
  lemma NotAddressRest(v: string)
    requires Avoids(v, {'['})
    ensures Modify("url]" + v + "[/url]") == "url]" + v + "[/url]"
  {
    assert !StartsWith("[/url]", "[/b]") && !StartsWith("[/url]", "[/i]") by {
      assert "[/url]"[..4][2] == 'u';
    }
    WordsBeforeTag("url]" + v, "[/url]");
    CloseUrlKept();
  }

  /** `[url]v[/url]` is left as it is when `v` does not look like an address. */
  lemma NotAddressKept(v: string)
    requires Avoids(v, {'['}) && !LooksLikeAddress(v)
    ensures Modify("[url]" + v + "[/url]") == "[url]" + v + "[/url]"
  {
    NotAddressOpen(v);
    NotAddressRest(v);
    assert "[" + ("url]" + v + "[/url]") == "[url]" + v + "[/url]";
  }

  /** Two bare links with text between them. */
  lemma BareLinks(u1: string, sep: string, u2: string)
    requires Avoids(u1, {'['}) && LooksLikeAddress(u1) && Avoids(u2, {'['}) && LooksLikeAddress(u2)
    requires Avoids(sep, {'['})
    ensures Modify("[url]" + u1 + "[/url]" + sep + "[url]" + u2 + "[/url]") == u1 + " " + sep + u2 + " "
  {
    var second := "[url]" + u2 + "[/url]";
    PlainBareLink(u1, sep + second);
    LinkTagNotClosing("]" + u2, "[/url]");
    assert second == "[url" + ("]" + u2) + "[/url]";
    WordsBeforeTag(sep, second);
    BareLinkAlone("[url]", u2);
    assert "[url]" + u1 + "[/url]" + sep + "[url]" + u2 + "[/url]" == "[url]" + u1 + "[/url]" + (sep + second);
  }

  /** Two labelled links with text between them. */
  lemma NamedLinks(a1: string, t1: string, sep: string, a2: string, t2: string)
    requires a1 != "" && Avoids(a1, {']'}) && Avoids(t1, {'['})
    requires a2 != "" && Avoids(a2, {']'}) && Avoids(t2, {'['})
    requires Avoids(sep, {'['})
    ensures Modify("[url=" + a1 + "]" + t1 + "[/url]" + sep + "[url=" + a2 + "]" + t2 + "[/url]")
         == "[" + t1 + "](" + a1 + ")" + sep + "[" + t2 + "](" + a2 + ")"
  {
    var second := "[url=" + a2 + "]" + t2 + "[/url]";
    NamedLink(a1, t1, sep + second);
    LinkTagNotClosing("=" + a2 + "]" + t2, "[/url]");
    assert second == "[url" + ("=" + a2 + "]" + t2) + "[/url]";
    WordsBeforeTag(sep, second);
    LabelledLinkAlone(a2, t2);
    assert "[url=" + a1 + "]" + t1 + "[/url]" + sep + "[url=" + a2 + "]" + t2 + "[/url]"
        == "[url=" + a1 + "]" + t1 + "[/url]" + (sep + second);
  }

  /** A bare link, text, and a labelled link. */
  lemma BareThenNamed(u: string, sep: string, a: string, t: string)
    requires Avoids(u, {'['}) && LooksLikeAddress(u)
    requires a != "" && Avoids(a, {']'}) && Avoids(t, {'['})
    requires Avoids(sep, {'['})
    ensures Modify("[url]" + u + "[/url]" + sep + "[url=" + a + "]" + t + "[/url]") == u + " " + sep + "[" + t + "](" + a + ")"
  {
    var second := "[url=" + a + "]" + t + "[/url]";
    PlainBareLink(u, sep + second);
    LinkTagNotClosing("=" + a + "]" + t, "[/url]");
    assert second == "[url" + ("=" + a + "]" + t) + "[/url]";
    WordsBeforeTag(sep, second);
    LabelledLinkAlone(a, t);
    assert "[url]" + u + "[/url]" + sep + "[url=" + a + "]" + t + "[/url]" == "[url]" + u + "[/url]" + (sep + second);
  }

  /** A bare link, text, and a bare link whose text does not look like an address. */
  lemma BareThenKept(u: string, sep: string, v: string)
    requires Avoids(u, {'['}) && LooksLikeAddress(u)
    requires Avoids(v, {'['}) && !LooksLikeAddress(v)
    requires Avoids(sep, {'['})
    ensures Modify("[url]" + u + "[/url]" + sep + "[url]" + v + "[/url]") == u + " " + sep + "[url]" + v + "[/url]"
  {
    var second := "[url]" + v + "[/url]";
    PlainBareLink(u, sep + second);
    LinkTagNotClosing("]" + v, "[/url]");
    assert second == "[url" + ("]" + v) + "[/url]";
    WordsBeforeTag(sep, second);
    NotAddressKept(v);
    assert "[url]" + u + "[/url]" + sep + "[url]" + v + "[/url]" == "[url]" + u + "[/url]" + (sep + second);
  }

  // ---------------------------------------------------------------------------
  // The examples of campbot/tests/test_processors.py. Each text is written as a
  // right-nested concatenation of short pieces; the rewriting lemmas above
  // handle one piece at a time.

  lemma NotClosingEmphasis(r: string)
    requires 2 <= |r| && r[1] != '/'
    ensures !StartsWith(r, "[/b]") && !StartsWith(r, "[/i]")
  {
    assert |r| >= 4 ==> r[..4][1] == r[1];
  }

  /** Bold whose closing tag has a space before it. */
  lemma BoldPart(rest: string)
    ensures Modify("un texte en [b]gras [/b]et un en" + rest) == "un texte en **gras** et un en" + Modify(rest)
  {
    BoldPieces(rest);
    BoldInput(rest);
    BoldOutput(Modify(rest));
  }

  lemma BoldPieces(rest: string)
    ensures Modify("un texte en" + (" " + ("[" + "b" + "]" + "" + ("gras" + (" " + "[/" + "b" + "]" + ("et un en" + rest))))))
         == "un texte en" + (" " + ("" + "**" + ("gras" + ("**" + " " + ("et un en" + Modify(rest))))))
  {
    var r2 := "et un en" + rest;
    var r1 := " " + "[/" + "b" + "]" + r2;
    var r0 := "[" + "b" + "]" + "" + ("gras" + r1);
    assert Modify(r2) == "et un en" + Modify(rest) by { PlainThen("et un en", rest); }
    assert Modify(r1) == "**" + " " + Modify(r2) by { Closing("b", " ", r2); }
    assert Modify(r0) == "" + "**" + ("gras" + Modify(r1)) by {
      PlainThen("gras", r1);
      Opened("b", "", "gras" + r1);
    }
    NotClosingEmphasis(r0);
    SpacesThen(" ", r0);
    PlainThen("un texte en", " " + r0);
  }

  lemma BoldInput(rest: string)
    ensures "un texte en [b]gras [/b]et un en" + rest
         == "un texte en" + (" " + ("[" + "b" + "]" + "" + ("gras" + (" " + "[/" + "b" + "]" + ("et un en" + rest)))))
  {
  }

  lemma BoldOutput(rest: string)
    ensures "un texte en" + (" " + ("" + "**" + ("gras" + ("**" + " " + ("et un en" + rest)))))
         == "un texte en **gras** et un en" + rest
  {
  }

  /** Italic after a space. */
  lemma ItalicPart(rest: string)
    ensures Modify(" [i]italique[/i]" + rest) == " *italique*" + Modify(rest)
  {
    ItalicPieces(rest);
    ItalicInput(rest);
    ItalicOutput(Modify(rest));
  }

  lemma ItalicPieces(rest: string)
    ensures Modify(" " + ("[" + "i" + "]" + "" + ("italique" + ("[/" + "i" + "]" + rest))))
         == " " + ("" + "*" + ("italique" + ("*" + Modify(rest))))
  {
    var r1 := "italique" + ("[/" + "i" + "]" + rest);
    var r0 := "[" + "i" + "]" + "" + r1;
    assert Modify(r1) == "italique" + ("*" + Modify(rest)) by {
      ClosingTag("i", rest);
      PlainThen("italique", "[/" + "i" + "]" + rest);
    }
    assert Modify(r0) == "" + "*" + Modify(r1) by { Opened("i", "", r1); }
    NotClosingEmphasis(r0);
    SpacesThen(" ", r0);
  }

  lemma ItalicInput(rest: string)
    ensures " [i]italique[/i]" + rest == " " + ("[" + "i" + "]" + "" + ("italique" + ("[/" + "i" + "]" + rest)))
  {
  }

  lemma ItalicOutput(rest: string)
    ensures " " + ("" + "*" + ("italique" + ("*" + rest))) == " *italique*" + rest
  {
  }

  /** An empty italic between two spaces disappears. */
  lemma EmptyItalicPart()
    ensures Modify(" [i][/i] ") == "  "
  {
    var r0 := "[" + "i" + "][/" + "i" + "]" + " ";
    assert Modify(r0) == " " by {
      TextWithoutBrackets(" ");
      EmptyDropped("i", " ");
    }
    assert Modify(" " + r0) == " " + Modify(r0) by {
      NotClosingEmphasis(r0);
      SpacesThen(" ", r0);
    }
    EmptyItalicInput();
  }

  lemma EmptyItalicInput()
    ensures " [i][/i] " == " " + ("[" + "i" + "][/" + "i" + "]" + " ")
  {
  }

  /** Bold and italic; the space inside the bold moves out, the empty italic disappears. */
  lemma BoldAndItalic()
    ensures Modify("un texte en [b]gras [/b]et un en [i]italique[/i] [i][/i] ") == "un texte en **gras** et un en *italique*  "
  {
    var tail := " [i]italique[/i]" + " [i][/i] ";
    assert Modify(tail) == " *italique*" + "  " by {
      EmptyItalicPart();
      ItalicPart(" [i][/i] ");
    }
    BoldPart(tail);
    assert "un texte en [b]gras [/b]et un en" + tail == "un texte en [b]gras [/b]et un en [i]italique[/i] [i][/i] " by {
      assert "un texte en [b]gras [/b]et un en" + " [i]italique[/i]" == "un texte en [b]gras [/b]et un en [i]italique[/i]";
    }
    assert "un texte en **gras** et un en" + (" *italique*" + "  ") == "un texte en **gras** et un en *italique*  " by {
      assert "un texte en **gras** et un en" + " *italique*" == "un texte en **gras** et un en *italique*";
    }
  }

  /** Italic closed inside bold: the two marks follow each other. */
  lemma NestedInnerPart()
    ensures Modify("[i]gras et italique[/i][/b]") == "*gras et italique***"
  {
    NestedInnerPieces();
    NestedInnerInput();
    NestedInnerOutput();
  }

  lemma NestedInnerPieces()
    ensures Modify("[" + "i" + "]" + "" + ("gras et italique" + ("[/" + "i" + "]" + ("[/" + "b" + "]" + ""))))
         == "" + "*" + ("gras et italique" + ("*" + ("**" + "")))
  {
    var r3 := "[/" + "i" + "]" + ("[/" + "b" + "]" + "");
    var r1 := "[" + "i" + "]" + "" + ("gras et italique" + r3);
    assert Modify(r3) == "*" + ("**" + "") by {
      RewriteEmpty(Rule);
      ClosingTag("b", "");
      ClosingTag("i", "[/" + "b" + "]" + "");
    }
    PlainThen("gras et italique", r3);
    Opened("i", "", "gras et italique" + r3);
  }

  lemma NestedInnerInput()
    ensures "[i]gras et italique[/i][/b]" == "[" + "i" + "]" + "" + ("gras et italique" + ("[/" + "i" + "]" + ("[/" + "b" + "]" + "")))
  {
  }

  lemma NestedInnerOutput()
    ensures "" + "*" + ("gras et italique" + ("*" + ("**" + ""))) == "*gras et italique***"
  {
  }

  /** Bold opened before the italic. */
  lemma NestedOuterPart(r1: string)
    requires r1 == "[i]gras et italique[/i][/b]"
    ensures Modify("un texte en" + (" " + ("[" + "b" + "]" + "" + r1))) == "un texte en" + (" " + ("" + "**" + Modify(r1)))
  {
    var r0 := "[" + "b" + "]" + "" + r1;
    assert Modify(r0) == "" + "**" + Modify(r1) by {
      assert !StartsWith(r1, "[/b]") by { assert r1[1] == 'i'; }
      Opened("b", "", r1);
    }
    NotClosingEmphasis(r0);
    SpacesThen(" ", r0);
    PlainThen("un texte en", " " + r0);
  }

  lemma NestedInput()
    ensures "un texte en" + (" " + ("[" + "b" + "]" + "" + "[i]gras et italique[/i][/b]")) == "un texte en [b][i]gras et italique[/i][/b]"
  {
    assert "[" + "b" + "]" + "" == "[b]";
    assert "un texte en" + (" " + ("[b]" + "[i]gras et italique[/i][/b]")) == "un texte en" + " " + "[b]" + "[i]gras et italique[/i][/b]";
  }

  lemma NestedOutput()
    ensures "un texte en" + (" " + ("" + "**" + "*gras et italique***")) == "un texte en ***gras et italique***"
  {
  }

  /** Bold around italic gives three asterisks on each side. */
  lemma NestedBoldItalic()
    ensures Modify("un texte en [b][i]gras et italique[/i][/b]") == "un texte en ***gras et italique***"
  {
    NestedInnerPart();
    NestedOuterPart("[i]gras et italique[/i][/b]");
    NestedInput();
    NestedOutput();
  }

  /** A pair of HTML-like tags around text free of `[` that does not end in white space. */
  lemma HtmlPair(name: string, x: string)
    requires IsHtml(name) && Avoids(x, {'['})
    requires |x| > 0 ==> !IsSpace(x[|x| - 1])
    ensures Modify("[" + name + "]" + x + "[/" + name + "]") == "<" + name + ">" + x + "</" + name + ">"
  {
    var close := "[" + ("/" + name) + "]" + "";
    assert Modify(close) == "</" + name + ">" by {
      assert ("/" + name)[0] == '/' && ("/" + name)[1..] == name;
      HtmlTag("/" + name, "");
      RewriteEmpty(Rule);
      assert "<" + ("/" + name) + ">" + "" == "</" + name + ">";
    }
    assert Modify("[" + name + "]" + (x + close)) == "<" + name + ">" + (x + Modify(close)) by {
      PlainThen(x, close);
      HtmlTag(name, x + close);
    }
    assert "[" + name + "]" + x + "[/" + name + "]" == "[" + name + "]" + (x + close) by {
      assert close == "[/" + name + "]";
    }
  }

  /** `[sub]`, `[sup]` and `[s]` around the same text. */
  lemma HtmlExamples()
    ensures Modify("[sub]xx[/sub]") == "<sub>xx</sub>"
    ensures Modify("[sup]xx[/sup]") == "<sup>xx</sup>"
    ensures Modify("[s]xx[/s]") == "<s>xx</s>"
  {
    HtmlPair("sub", "xx");
    assert "[" + "sub" + "]" + "xx" + "[/" + "sub" + "]" == "[sub]xx[/sub]";
    assert "<" + "sub" + ">" + "xx" + "</" + "sub" + ">" == "<sub>xx</sub>";
    HtmlPair("sup", "xx");
    assert "[" + "sup" + "]" + "xx" + "[/" + "sup" + "]" == "[sup]xx[/sup]";
    assert "<" + "sup" + ">" + "xx" + "</" + "sup" + ">" == "<sup>xx</sup>";
    HtmlPair("s", "xx");
    assert "[" + "s" + "]" + "xx" + "[/" + "s" + "]" == "[s]xx[/s]";
    assert "<" + "s" + ">" + "xx" + "</" + "s" + ">" == "<s>xx</s>";
  }

  /** A whole text that is one mail link. */
  lemma MailLinkAlone(a: string)
    requires Avoids(a, {'['})
    ensures Modify("[email]" + a + "[/email]") == "[" + a + "](mailto:" + a + ")"
  {
    RewriteEmpty(Rule);
    EmailLink(a, "");
    assert "[email]" + a + "[/email]" + "" == "[email]" + a + "[/email]";
  }

  lemma MailLinkInput()
    ensures "[email]" + "dev@camptocamp.org" + "[/email]" == "[email]dev@camptocamp.org[/email]"
  {
  }

  lemma MailLinkOutput()
    ensures "[" + "dev@camptocamp.org" + "](mailto:" + "dev@camptocamp.org" + ")" == "[dev@camptocamp.org](mailto:dev@camptocamp.org)"
  {
    assert "[" + "dev@camptocamp.org" == "[dev@camptocamp.org";
    assert "[dev@camptocamp.org" + "](mailto:" == "[dev@camptocamp.org](mailto:" by {}
    assert "[dev@camptocamp.org](mailto:" + "dev@camptocamp.org" == "[dev@camptocamp.org](mailto:dev@camptocamp.org" by {}
    assert "[dev@camptocamp.org](mailto:dev@camptocamp.org" + ")" == "[dev@camptocamp.org](mailto:dev@camptocamp.org)" by {}
  }

  lemma MailLink()
    ensures Modify("[email]dev@camptocamp.org[/email]") == "[dev@camptocamp.org](mailto:dev@camptocamp.org)"
  {
    MailLinkAlone("dev@camptocamp.org");
    MailLinkInput();
    MailLinkOutput();
  }

  /** A whole text that is one mail link with its own text. */
  lemma MailLinkWithTextAlone(a: string, t: string)
    requires Avoids(a, {']'}) && Avoids(t, {'['})
    ensures Modify("[email=" + a + "]" + t + "[/email]") == "[" + t + "](mailto:" + a + ")"
  {
    RewriteEmpty(Rule);
    EmailTo(a, t, "");
    assert "[email=" + a + "]" + t + "[/email]" + "" == "[email=" + a + "]" + t + "[/email]";
  }

  lemma MailLinkWithTextInput()
    ensures "[email=" + "dev@camptocamp.org" + "]" + "email" + "[/email]" == "[email=dev@camptocamp.org]email[/email]"
  {
    assert "[email=" + "dev@camptocamp.org" == "[email=dev@camptocamp.org" by {}
    assert "[email=dev@camptocamp.org" + "]" == "[email=dev@camptocamp.org]" by {}
    assert "[email=dev@camptocamp.org]" + "email" == "[email=dev@camptocamp.org]email" by {}
    assert "[email=dev@camptocamp.org]email" + "[/email]" == "[email=dev@camptocamp.org]email[/email]" by {}
  }

  lemma MailLinkWithTextOutput()
    ensures "[" + "email" + "](mailto:" + "dev@camptocamp.org" + ")" == "[email](mailto:dev@camptocamp.org)"
  {
    assert "[" + "email" + "](mailto:" == "[email](mailto:" by {}
    assert "[email](mailto:" + "dev@camptocamp.org" == "[email](mailto:dev@camptocamp.org" by {}
    assert "[email](mailto:dev@camptocamp.org" + ")" == "[email](mailto:dev@camptocamp.org)" by {}
  }

  lemma MailLinkWithText()
    ensures Modify("[email=dev@camptocamp.org]email[/email]") == "[email](mailto:dev@camptocamp.org)"
  {
    MailLinkWithTextAlone("dev@camptocamp.org", "email");
    MailLinkWithTextInput();
    MailLinkWithTextOutput();
  }

  /** A whole text that is one bare link. */
  lemma BareLinkAlone(open: string, u: string)
    requires open == "[url]" || open == "[url=]"
    requires Avoids(u, {'['}) && LooksLikeAddress(u)
    ensures Modify(open + u + "[/url]") == u + " "
  {
    RewriteEmpty(Rule);
    BareLink(open, u, "");
    assert open + u + "[/url]" + "" == open + u + "[/url]";
  }

  lemma GoogleInput()
    ensures "[url]" + "http://www.google.com" + "[/url]" == "[url]http://www.google.com[/url]"
  {
    assert "[url]" + "http://www.google.com" == "[url]http://www.google.com" by {}
    assert "[url]http://www.google.com" + "[/url]" == "[url]http://www.google.com[/url]" by {}
  }

  lemma ZoneAddress()
    ensures "[url=]" + "http://www.zone-di-tranquillita.ch/" == "[url=]http://www.zone-di-tranquillita.ch/"
  {
    var p := "[url=]";
    assert "http://www.zone-di-tranquillita.ch/" == "http://www.zone-di-tranquil" + "lita.ch/";
    Lead(p, "http://www.zone-di-tranquil", "lita.ch/");
    assert "http://www.zone-di-tranquil" == "http://www.zone-di" + "-tranquil";
    Lead(p, "http://www.zone-di", "-tranquil");
    assert "http://www.zone-di" == "http://www" + ".zone-di";
    Lead(p, "http://www", ".zone-di");
    assert p + "http://www" == "[url=]http://www";
    assert "[url=]http://www" + ".zone-di" == "[url=]http://www.zone-di";
    assert "[url=]http://www.zone-di" + "-tranquil" == "[url=]http://www.zone-di-tranquil";
    assert "[url=]http://www.zone-di-tranquil" + "lita.ch/" == "[url=]http://www.zone-di-tranquillita.ch/";
  }

  lemma ZoneInput()
    ensures "[url=]" + "http://www.zone-di-tranquillita.ch/" + "[/url]" == "[url=]http://www.zone-di-tranquillita.ch/[/url]"
  {
    ZoneAddress();
    assert "[url=]http://www.zone-di-tranquillita.ch/" + "[/url]" == "[url=]http://www.zone-di-tranquillita.ch/[/url]" by {}
  }

  lemma GoogleLooks()
    ensures LooksLikeAddress("http://www.google.com")
  {
    assert "http://www.google.com"[..7] == "http://";
  }

  lemma ZoneLooks()
    ensures LooksLikeAddress("http://www.zone-di-tranquillita.ch/")
  {
    assert "http://www.zone-di-tranquillita.ch/"[..7] == "http://";
  }

  lemma GoogleBareLink()
    ensures Modify("[url]http://www.google.com[/url]") == "http://www.google.com "
  {
    GoogleLooks();
    BareLinkAlone("[url]", "http://www.google.com");
    GoogleInput();
  }

  lemma ZoneBareLink()
    ensures Modify("[url=]http://www.zone-di-tranquillita.ch/[/url]") == "http://www.zone-di-tranquillita.ch/ "
  {
    ZoneLooks();
    BareLinkAlone("[url=]", "http://www.zone-di-tranquillita.ch/");
    ZoneInput();
  }

  /** A whole text that is one labelled link. */
  lemma LabelledLinkAlone(a: string, t: string)
    requires a != "" && Avoids(a, {']'}) && Avoids(t, {'['})
    ensures Modify("[url=" + a + "]" + t + "[/url]") == "[" + t + "](" + a + ")"
  {
    RewriteEmpty(Rule);
    NamedLink(a, t, "");
    assert "[url=" + a + "]" + t + "[/url]" + "" == "[url=" + a + "]" + t + "[/url]";
  }

  lemma LabelledLinkInput()
    ensures "[url=" + "http://www.google.com" + "]" + "google" + "[/url]" == "[url=http://www.google.com]google[/url]"
  {
    assert "[url=" + "http://www.google.com" == "[url=http://www.google.com" by {}
    assert "[url=http://www.google.com" + "]" == "[url=http://www.google.com]" by {}
    assert "[url=http://www.google.com]" + "google" == "[url=http://www.google.com]google" by {}
    assert "[url=http://www.google.com]google" + "[/url]" == "[url=http://www.google.com]google[/url]" by {}
  }

  lemma LabelledLinkOutput()
    ensures "[" + "google" + "](" + "http://www.google.com" + ")" == "[google](http://www.google.com)"
  {
    assert "[" + "google" + "](" == "[google](" by {}
    assert "[google](" + "http://www.google.com" == "[google](http://www.google.com" by {}
    assert "[google](http://www.google.com" + ")" == "[google](http://www.google.com)" by {}
  }

  lemma LabelledLink()
    ensures Modify("[url=http://www.google.com]google[/url]") == "[google](http://www.google.com)"
  {
    LabelledLinkAlone("http://www.google.com", "google");
    LabelledLinkInput();
    LabelledLinkOutput();
  }

  // The remaining link examples, each written as the concatenation of its
  // tags, addresses, labels and the words between the links.

  lemma TwoBareLinks()
    ensures Modify("[url]" + "http://www.google.com" + "[/url]" + " x " + "[url]" + "http://www.google2.com" + "[/url]")
         == "http://www.google.com" + " " + " x " + "http://www.google2.com" + " "
  {
    GoogleLooks();
    assert "http://www.google2.com"[..7] == "http://";
    BareLinks("http://www.google.com", " x ", "http://www.google2.com");
  }

  lemma TwoLabelledLinks()
    ensures Modify("[url=" + "http://www.google.com" + "]" + "google" + "[/url]" + " et " + "[url=" + "http://www.google2.com" + "]" + "google2" + "[/url]")
         == "[" + "google" + "](" + "http://www.google.com" + ")" + " et " + "[" + "google2" + "](" + "http://www.google2.com" + ")"
  {
    NamedLinks("http://www.google.com", "google", " et ", "http://www.google2.com", "google2");
  }

  lemma BareAndLabelled()
    ensures Modify("[url]" + "http://www.google.com?a=b&c=d" + "[/url]" + " and " + "[url=" + "http://www.google.com?a=b!c" + "]" + "pas touche" + "[/url]")
         == "http://www.google.com?a=b&c=d" + " " + " and " + "[" + "pas touche" + "](" + "http://www.google.com?a=b!c" + ")"
  {
    assert "http://www.google.com?a=b&c=d"[..7] == "http://";
    BareThenNamed("http://www.google.com?a=b&c=d", " and ", "http://www.google.com?a=b!c", "pas touche");
  }

  lemma PasToucheNotAddress()
    ensures !LooksLikeAddress("pas.touche.fr")
  {
    assert "pas.touche.fr"[..7][0] == 'p' && "pas.touche.fr"[..8][0] == 'p' && "pas.touche.fr"[..4][0] == 'p';
  }

  lemma BareAndNotAddress()
    ensures Modify("[url]" + "http://www.google.com?a=b;d" + "[/url]" + " et " + "[url]" + "pas.touche.fr" + "[/url]")
         == "http://www.google.com?a=b;d" + " " + " et " + "[url]" + "pas.touche.fr" + "[/url]"
  {
    assert "http://www.google.com?a=b;d"[..7] == "http://";
    PasToucheNotAddress();
    BareThenKept("http://www.google.com?a=b;d", " et ", "pas.touche.fr");
  }

  lemma TwoQueryBareLinks()
    ensures Modify("[url]" + "http://www.google.com?a=b&c=d" + "[/url]" + " x " + "[url]" + "http://www.google2.com?a=b&c=d" + "[/url]")
         == "http://www.google.com?a=b&c=d" + " " + " x " + "http://www.google2.com?a=b&c=d" + " "
  {
    assert "http://www.google.com?a=b&c=d"[..7] == "http://";
    assert "http://www.google2.com?a=b&c=d"[..7] == "http://";
    BareLinks("http://www.google.com?a=b&c=d", " x ", "http://www.google2.com?a=b&c=d");
  }

  lemma QueryLabelledLink()
    ensures Modify("[url=" + "http://www.google.com?a=b&c=d" + "]" + "google" + "[/url]")
         == "[" + "google" + "](" + "http://www.google.com?a=b&c=d" + ")"
  {
    LabelledLinkAlone("http://www.google.com?a=b&c=d", "google");
  }

  lemma ShortLabels()
    ensures Modify("[url=" + "http://www.google.com?a=b&c=d" + "]" + "go" + "[/url]" + " et " + "[url=" + "http://www.google2.com?a=b&c=d" + "]" + "o" + "[/url]")
         == "[" + "go" + "](" + "http://www.google.com?a=b&c=d" + ")" + " et " + "[" + "o" + "](" + "http://www.google2.com?a=b&c=d" + ")"
  {
    NamedLinks("http://www.google.com?a=b&c=d", "go", " et ", "http://www.google2.com?a=b&c=d", "o");
  }

  lemma QueryBareLink()
    ensures Modify("[url]" + "http://www.google.com?a=1&b=2" + "[/url]") == "http://www.google.com?a=1&b=2" + " "
  {
    assert "http://www.google.com?a=1&b=2"[..7] == "http://";
    BareLinkAlone("[url]", "http://www.google.com?a=1&b=2");
  }

  lemma BareAndWww()
    ensures Modify("[url]" + "http://www.google.com?a=1&b=2" + "[/url]" + " x " + "[url]" + "www.google2.com" + "[/url]")
         == "http://www.google.com?a=1&b=2" + " " + " x " + "www.google2.com" + " "
  {
    assert "http://www.google.com?a=1&b=2"[..7] == "http://";
    assert "www.google2.com"[..4] == "www.";
    BareLinks("http://www.google.com?a=1&b=2", " x ", "www.google2.com");
  }

  lemma OtherQueryLabelledLink()
    ensures Modify("[url=" + "http://www.google.com?a=1&b=2" + "]" + "google" + "[/url]")
         == "[" + "google" + "](" + "http://www.google.com?a=1&b=2" + ")"
  {
    LabelledLinkAlone("http://www.google.com?a=1&b=2", "google");
  }

  lemma NotAddressLink()
    ensures Modify("[url]" + "pas.touche.fr" + "[/url]") == "[url]" + "pas.touche.fr" + "[/url]"
  {
    PasToucheNotAddress();
    NotAddressKept("pas.touche.fr");
  }

  /** Bold around a word between CRLF line breaks: the marks go inside the breaks. */
  lemma CrlfBold()
    ensures Modify("[b]" + "\r\n" + "grep!" + "\r\n" + "[/b]") == "\r\n" + "**" + "grep!" + "**" + "\r\n"
  {
    Opened("b", "\r\n", "grep!" + "\r\n" + "[/b]");
    assert "[" + "b" + "]" + "\r\n" + ("grep!" + "\r\n" + "[/b]") == "[b]" + "\r\n" + "grep!" + "\r\n" + "[/b]";
    PlainThen("grep!", "\r\n" + "[/b]");
    assert "grep!" + "\r\n" + "[/b]" == "grep!" + ("\r\n" + "[/b]");
    Closing("b", "\r\n", "");
    assert "\r\n" + "[/" + "b" + "]" + "" == "\r\n" + "[/b]";
    RewriteEmpty(Rule);
  }

  /** A `[` that opens no known tag is copied. */
  lemma UnknownTagCopied()
    ensures Rule("[[b][/b]b]").None?
  {
    TagAt("[b", ']', "[/b]b]");
    assert "[" + "[b" + [']'] + "[/b]b]" == "[[b][/b]b]";
  }

  lemma EmptyPairThenText()
    ensures Modify("[b][/b]b]") == "b]"
  {
    EmptyDropped("b", "b]");
    assert "[" + "b" + "][/" + "b" + "]" + "b]" == "[b][/b]b]";
    TextWithoutBrackets("b]");
  }

  lemma NestedEmptyPair()
    ensures Modify("[[b][/b]b]") == "[b]"
  {
    UnknownTagCopied();
    assert "[" + "[b][/b]b]" == "[[b][/b]b]";
    RewriteSkip(Rule, "[", "[b][/b]b]");
    EmptyPairThenText();
    assert "[" + "b]" == "[b]";
  }

  lemma LoneBold()
    ensures Modify("[b]") == "**"
  {
    Opened("b", "", "");
    assert "[" + "b" + "]" + "" + "" == "[b]";
    RewriteEmpty(Rule);
  }

  /**
   * Running the processor twice is not the same as running it once: an
   * empty pair removed from inside `[…]` leaves a new tag behind, which only
   * the second run translates.
   */
  lemma NotIdempotent()
    ensures Modify("[[b][/b]b]") == "[b]" && Modify(Modify("[[b][/b]b]")) == "**"
  {
    NestedEmptyPair();
    LoneBold();
  }
}
