/**
 * Removal of the underline tags `[u]`, `[/u]` and of the colour tags
 * `[color=…]`, `[/color]`; the text they enclose is kept.
 */
module ColorAndUnderlineRemover {
  import opened Wrappers
  import opened Text
  import opened Rewriting

  /** Length of the tag at the start of `s`, 0 if none starts there. */
  function TagLen(s: string): (n: nat)
    ensures n <= |s|
  {
    if StartsWith(s, "[u]") then 3
    else if StartsWith(s, "[/u]") then 4
    else if StartsWith(s, "[/color]") then 8
    else if StartsWith(s, "[color=") then
      var v := Before(s[7..], {']'});
      if 7 + v < |s| then 7 + v + 1 else 0
    else 0
  }

  function Rule(s: string): (r: Option<Step>)
    ensures r.Some? ==> 0 < |s| && s[0] == '['
  {
    var n := TagLen(s);
    if n > 0 then Some(Step(n, "")) else None
  }

  function Modify(s: string): string
  {
    Rewrite(Rule, s)
  }

  /** The processor only deletes: its output is the input with some characters left out. */
  lemma OnlyDeletes(s: string)
    ensures IsSubseq(Modify(s), s)
  {
    RewriteDeletes(Rule, s);
  }

  /** The remover acts only at an opening bracket, and what it consumes there it deletes. */
  lemma RuleDeletesAtBracket()
    ensures OnlyAt(Rule, '[')
    ensures forall t :: Rule(t).Some? ==> Rule(t).value.out == ""
  {
  }

  /** Text without an opening bracket is copied, whatever follows it. */
  lemma PlainThen(p: string, rest: string)
    requires Avoids(p, {'['})
    ensures Modify(p + rest) == p + Modify(rest)
  {
    RuleDeletesAtBracket();
    RewriteWithout(Rule, '[', p, rest);
  }

  /** A fixed tag is dropped. */
  lemma FixedTagDropped(t: string, rest: string)
    requires t == "[u]" || t == "[/u]" || t == "[/color]"
    ensures Modify(t + rest) == Modify(rest)
  {
    var s := t + rest;
    assert s[..|t|] == t;
    if t == "[/u]" || t == "[/color]" {
      assert s[..3] != "[u]" by { assert s[1] == '/'; }
    }
    if t == "[/color]" {
      assert s[..4] != "[/u]" by { assert s[2] == 'c'; }
    }
    assert Rule(s) == Some(Step(|t|, ""));
    RewriteFire(Rule, t, rest, "");
  }

  /** A colour tag with any value free of `]` is dropped. */
  lemma ColorTagDropped(v: string, t: string, rest: string)
    requires Avoids(v, {']'})
    requires t == "[color=" + v + "]"
    ensures Modify(t + rest) == Modify(rest)
  {
    var s := t + rest;
    assert s[..7] == "[color=";
    assert s[..3] != "[u]" by { assert s[1] == 'c'; }
    assert s[..4] != "[/u]" by { assert s[1] == 'c'; }
    assert s[..8] != "[/color]" by { assert s[1] == 'c'; }
    assert s[7..] == v + ("]" + rest);
    BeforeAt(v, {']'}, "]" + rest);
    assert Rule(s) == Some(Step(|t|, ""));
    RewriteFire(Rule, t, rest, "");
  }

  // The example of tests/test_processors.py, in three parts.

  lemma UnderlinedPart(rest: string)
    ensures Modify("test [u]underlines[/u] and " + rest) == "test underlines and " + Modify(rest)
  {
    assert "test [u]underlines[/u] and " + rest == "test " + ("[u]" + ("underlines" + ("[/u]" + (" and " + rest))));
    PlainThen(" and ", rest);
    FixedTagDropped("[/u]", " and " + rest);
    PlainThen("underlines", "[/u]" + (" and " + rest));
    FixedTagDropped("[u]", "underlines" + ("[/u]" + (" and " + rest)));
    PlainThen("test ", "[u]" + ("underlines" + ("[/u]" + (" and " + rest))));
  }

  /** A colour tag with any value free of `]`, its text and the closing tag: only the text is left. */
  lemma ColoredPart(v: string, rest: string)
    requires Avoids(v, {']'})
    ensures Modify("[color=" + v + "]color[/color]" + rest) == "color" + Modify(rest)
  {
    var t := "[color=" + v + "]";
    assert "[color=" + v + "]color[/color]" + rest == t + ("color" + ("[/color]" + rest));
    FixedTagDropped("[/color]", rest);
    PlainThen("color", "[/color]" + rest);
    ColorTagDropped(v, t, "color" + ("[/color]" + rest));
  }

  lemma HexColoredPart(rest: string)
    ensures Modify("[color=#FFdd1E]color[/color]" + rest) == "color" + Modify(rest)
  {
    assert "[color=#FFdd1E]color[/color]" + rest == "[color=" + "#FFdd1E" + "]color[/color]" + rest;
    ColoredPart("#FFdd1E", rest);
  }

  lemma RedColoredPart(rest: string)
    ensures Modify(" et [color=red]color[/color]" + rest) == " et color" + Modify(rest)
  {
    assert " et [color=red]color[/color]" + rest == " et " + ("[color=" + "red" + "]color[/color]" + rest);
    ColoredPart("red", rest);
    PlainThen(" et ", "[color=" + "red" + "]color[/color]" + rest);
  }

  lemma UnderlinesAndColors()
    ensures Modify("test [u]underlines[/u] and " + "[color=#FFdd1E]color[/color]" + " et [color=red]color[/color]")
         == "test underlines and color et color"
  {
    var a, b, c := "test [u]underlines[/u] and ", "[color=#FFdd1E]color[/color]", " et [color=red]color[/color]";
    assert a + b + c == a + (b + (c + ""));
    RewriteEmpty(Rule);
    RedColoredPart("");
    HexColoredPart(c + "");
    UnderlinedPart(b + (c + ""));
    assert "test underlines and " + ("color" + (" et color" + "")) == "test underlines and color et color";
  }

  /**
   * Removing a tag can bring the two halves of another one together, so a
   * second pass may remove more: the remover is not idempotent.
   */
  lemma NotIdempotent()
    ensures Modify("[[u]u]") == "[u]" && Modify("[u]") == ""
  {
    var s := "[[u]u]";
    assert s == "[" + ("[u]" + "u]");
    assert Rule(s).None? by {
      assert s[1] == '[';
      assert s[..3][1] == '[' && s[..4][1] == '[';
    }
    assert s[0..] == s;
    RewriteSkip(Rule, "[", "[u]" + "u]");
    FixedTagDropped("[u]", "u]");
    PlainThen("u]", "");
    assert "u]" + "" == "u]";
    FixedTagDropped("[u]", "");
    assert "[u]" + "" == "[u]";
    RewriteEmpty(Rule);
  }
}
