/**
 * Left-to-right rewriting of a text, the way Python's `re.sub` scans it.
 * A rule looks at the remaining text and either declines or consumes a
 * non-empty prefix and emits its replacement; when it declines, one character
 * is copied and the scan moves on. Every processor built on it inherits the
 * lemmas below, which let a long text be handled piece by piece.
 */
module Rewriting {
  import opened Wrappers
  import opened Text

  /** Consume `len` characters of the remaining text and emit `out`. */
  datatype Step = Step(len: nat, out: string)

  type Rule = string -> Option<Step>

  /** Does `rule` rewrite something at the start of `s`? */
  predicate Fires(rule: Rule, s: string)
  {
    var st := rule(s); st.Some? && 1 <= st.value.len <= |s|
  }

  function StepLen(rule: Rule, s: string): (n: nat)
    requires |s| > 0
    ensures 1 <= n <= |s|
  {
    if Fires(rule, s) then rule(s).value.len else 1
  }

  function StepOut(rule: Rule, s: string): string
    requires |s| > 0
  {
    if Fires(rule, s) then rule(s).value.out else [s[0]]
  }

  /**
   * The scan. It is written as three mutually recursive functions, with the
   * length still to be scanned as termination measure, so that the verifier
   * never unfolds it far enough to run a rule on its own: what a scan of a
   * particular text gives is established through the lemmas below.
   */
  function Scan(rule: Rule, s: string, ghost todo: nat): string
    requires todo == |s|
    decreases todo, 2
  {
    if |s| == 0 then "" else ScanStep(rule, s, todo)
  }

  function ScanStep(rule: Rule, s: string, ghost todo: nat): string
    requires todo == |s| && |s| > 0
    decreases todo, 1
  {
    Emit(rule, s, todo)
  }

  function Emit(rule: Rule, s: string, ghost todo: nat): string
    requires todo == |s| && |s| > 0
    decreases todo, 0
  {
    StepOut(rule, s) + Scan(rule, s[StepLen(rule, s)..], todo - StepLen(rule, s))
  }

  /** The whole text rewritten by `rule`. */
  function Rewrite(rule: Rule, s: string): string
  {
    Scan(rule, s, |s|)
  }

  lemma RewriteEmpty(rule: Rule)
    ensures Rewrite(rule, "") == ""
  {}

  /** One step of the scan: the rule's output at the start, then the rest rewritten. */
  lemma RewriteStep(rule: Rule, s: string)
    requires |s| > 0
    ensures Rewrite(rule, s) == StepOut(rule, s) + Rewrite(rule, s[StepLen(rule, s)..])
  {
    assert Scan(rule, s, |s|) == ScanStep(rule, s, |s|) == Emit(rule, s, |s|);
  }

  /**
   * The rule decides the same at the start of `x` whether or not `b` follows,
   * and never consumes past the end of `x`.
   */
  predicate Stable(rule: Rule, x: string, b: string)
  {
    rule(x + b) == rule(x) && (rule(x).Some? ==> rule(x).value.len <= |x|)
  }

  /** The rule is stable at every position of `a` when `b` follows it. */
  predicate StableFrom(rule: Rule, a: string, b: string)
  {
    forall i :: 0 <= i < |a| ==> Stable(rule, a[i..], b)
  }

  lemma StableFromSuffix(rule: Rule, a: string, b: string, n: nat)
    requires StableFrom(rule, a, b) && n <= |a|
    ensures StableFrom(rule, a[n..], b)
  {
    forall i | 0 <= i < |a[n..]| ensures Stable(rule, a[n..][i..], b) {
      assert a[n..][i..] == a[n + i..];
    }
  }

  lemma DropAppend(a: string, b: string, n: nat)
    requires n <= |a|
    ensures (a + b)[n..] == a[n..] + b
  {}

  /** Rewriting distributes over a concatenation at a point no rule can see across. */
  lemma {:induction false} RewriteAppend(rule: Rule, a: string, b: string)
    requires StableFrom(rule, a, b)
    ensures Rewrite(rule, a + b) == Rewrite(rule, a) + Rewrite(rule, b)
    decreases |a|
  {
    if |a| == 0 {
      assert a + b == b;
    } else {
      assert a[0..] == a;
      var n := StepLen(rule, a);
      RewriteStep(rule, a);
      RewriteStep(rule, a + b);
      assert StepLen(rule, a + b) == n && StepOut(rule, a + b) == StepOut(rule, a);
      StableFromSuffix(rule, a, b, n);
      RewriteAppend(rule, a[n..], b);
      DropAppend(a, b, n);
    }
  }

  /** Text on which the rule never fires is copied unchanged. */
  lemma {:induction false} RewritePlain(rule: Rule, p: string)
    requires forall i :: 0 <= i < |p| ==> rule(p[i..]).None?
    ensures Rewrite(rule, p) == p
    decreases |p|
  {
    if |p| == 0 {
      RewriteEmpty(rule);
    } else {
      assert p[0..] == p;
      RewriteStep(rule, p);
      forall i | 0 <= i < |p[1..]| ensures rule(p[1..][i..]).None? {
        assert p[1..][i..] == p[1 + i..];
      }
      RewritePlain(rule, p[1..]);
    }
  }

  /** Where the rule fires at the start of `s`, its output comes first. */
  lemma RewriteAt(rule: Rule, s: string, n: nat, out: string)
    requires 0 < n <= |s| && rule(s) == Some(Step(n, out))
    ensures Rewrite(rule, s) == out + Rewrite(rule, s[n..])
  {
    RewriteStep(rule, s);
  }

  /** A rule that consumes exactly `a` emits its output and the scan resumes after `a`. */
  lemma RewriteFire(rule: Rule, a: string, b: string, out: string)
    requires |a| > 0 && rule(a + b) == Some(Step(|a|, out))
    ensures Rewrite(rule, a + b) == out + Rewrite(rule, b)
  {
    DropAppend(a, b, |a|);
    assert a[|a|..] == [];
    RewriteStep(rule, a + b);
  }

  /** A prefix at none of whose positions the rule fires is copied, whatever follows it. */
  lemma {:induction false} RewriteSkip(rule: Rule, p: string, rest: string)
    requires forall i :: 0 <= i < |p| ==> rule((p + rest)[i..]).None?
    ensures Rewrite(rule, p + rest) == p + Rewrite(rule, rest)
    decreases |p|
  {
    if |p| == 0 {
      assert p + rest == rest;
    } else {
      var s := p + rest;
      assert s[0..] == s;
      RewriteStep(rule, s);
      assert s[1..] == p[1..] + rest;
      forall i | 0 <= i < |p[1..]| ensures rule((p[1..] + rest)[i..]).None? {
        assert (p[1..] + rest)[i..] == s[i + 1..];
      }
      RewriteSkip(rule, p[1..], rest);
      assert p == [p[0]] + p[1..];
    }
  }

  /** The rule fires only on text that starts with `c`. */
  ghost predicate OnlyAt(rule: Rule, c: char)
  {
    forall t :: rule(t).Some? ==> 0 < |t| && t[0] == c
  }

  /** Text without `c` is copied, whatever follows it, by a rule that fires only at `c`. */
  lemma RewriteWithout(rule: Rule, c: char, p: string, rest: string)
    requires OnlyAt(rule, c) && Avoids(p, {c})
    ensures Rewrite(rule, p + rest) == p + Rewrite(rule, rest)
  {
    forall i | 0 <= i < |p| ensures rule((p + rest)[i..]).None? {
      assert (p + rest)[i..][0] == p[i];
    }
    RewriteSkip(rule, p, rest);
  }

  /** Text without `c` is left as it is by a rule that fires only at `c`. */
  lemma RewriteUnchanged(rule: Rule, c: char, p: string)
    requires OnlyAt(rule, c) && Avoids(p, {c})
    ensures Rewrite(rule, p) == p
  {
    RewriteWithout(rule, c, p, "");
    assert p + "" == p;
    RewriteEmpty(rule);
  }

  /** A rule whose every output can be had by deleting from what it consumes makes the whole scan a deletion. */
  lemma {:induction false} RewriteDeletes(rule: Rule, s: string)
    requires forall t :: Fires(rule, t) ==> IsSubseq(rule(t).value.out, t[..rule(t).value.len])
    ensures IsSubseq(Rewrite(rule, s), s)
    decreases |s|
  {
    if |s| == 0 {
      RewriteEmpty(rule);
    } else {
      RewriteStep(rule, s);
      var n := StepLen(rule, s);
      RewriteDeletes(rule, s[n..]);
      if !Fires(rule, s) {
        SubseqRefl(s[..1]);
      }
      SubseqConcat(StepOut(rule, s), s[..n], Rewrite(rule, s[n..]), s[n..]);
      assert s[..n] + s[n..] == s;
    }
  }
}
