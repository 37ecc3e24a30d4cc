/**
 * Correction of the target of an internal link `[[target|label]]`: the
 * absolute site address `http://www.camptocamp.org/` or a leading `/` is
 * removed, so that the target becomes a relative path such as
 * `routes/786432`. Everything else, the label and the text around the link
 * included, is copied.
 */
module InternalLinkCorrector {
  import opened Wrappers
  import opened Text
  import opened Rewriting

  const Site := "http://www.camptocamp.org/"

  /** At a link opener followed by the site address or by `/`, keep the opener and drop the rest. */
  function Rule(s: string): Option<Step>
  {
    if StartsWith(s, "[[" + Site) then Some(Step(2 + |Site|, "[["))
    else if StartsWith(s, "[[/") then Some(Step(3, "[["))
    else None
  }

  function Modify(s: string): string
  {
    Rewrite(Rule, s)
  }

  /** The corrector only deletes characters. */
  lemma OnlyDeletes(s: string)
    ensures IsSubseq(Modify(s), s)
  {
    forall t | Fires(Rule, t) ensures IsSubseq(Rule(t).value.out, t[..Rule(t).value.len]) {
      var n := Rule(t).value.len;
      assert t[..n] == "[[" + t[2..n];
      SubseqRefl("[[");
      SubseqConcat("[[", "[[", "", t[2..n]);
      assert "[[" + "" == "[[";
    }
    RewriteDeletes(Rule, s);
  }

  /** The corrector acts only at an opening bracket, and keeps the link opener there. */
  lemma RuleKeepsOpener()
    ensures OnlyAt(Rule, '[')
    ensures forall t :: Rule(t).Some? ==> Rule(t).value.out == "[["
  {
  }

  /** Text without `[` is left as it is. */
  lemma TextWithoutBrackets(p: string)
    requires Avoids(p, {'['})
    ensures Modify(p) == p
  {
    RuleKeepsOpener();
    RewriteUnchanged(Rule, '[', p);
  }

  /** The site address after a link opener is removed. */
  lemma SiteDropped(rest: string)
    ensures Modify("[[" + Site + rest) == "[[" + Modify(rest)
  {
    var a := "[[" + Site;
    assert (a + rest)[..|a|] == a;
    RewriteFire(Rule, a, rest, "[[");
  }

  /** A `/` after a link opener is removed. */
  lemma SlashDropped(rest: string)
    ensures Modify("[[/" + rest) == "[[" + Modify(rest)
  {
    var s := "[[/" + rest;
    assert s[..3] == "[[/";
    assert !StartsWith(s, "[[" + Site) by {
      if |s| >= 2 + |Site| {
        assert s[2] == '/' && ("[[" + Site)[2] == 'h';
        assert s[..2 + |Site|][2] != ("[[" + Site)[2];
      }
    }
    RewriteFire(Rule, "[[/", rest, "[[");
  }

  /**
   * A link opener followed by anything other than `/`, `[` or the site
   * address (a numeric target, for instance) is kept.
   */
  lemma OpenerKept(rest: string)
    requires |rest| > 0 && rest[0] != '/' && rest[0] != '['
    requires !StartsWith(rest, Site)
    ensures Modify("[[" + rest) == "[[" + Modify(rest)
  {
    var s := "[[" + rest;
    assert s[0..] == s;
    assert !StartsWith(s, "[[" + Site) by {
      if |s| >= 2 + |Site| {
        assert s[2..2 + |Site|] == rest[..|Site|];
        assert s[..2 + |Site|][2..] == s[2..2 + |Site|];
      }
    }
    assert !StartsWith(s, "[[/") by { assert s[2] == rest[0]; }
    assert s[1..][1] == rest[0];
    RewriteSkip(Rule, "[[", rest);
  }

  // The examples of tests/test_processors.py. Long texts are written as
  // concatenations of shorter literals.

  lemma NumericTarget()
    ensures Modify("[[786432|patate]]") == "[[786432|patate]]"
  {
    assert "[[786432|patate]]" == "[[" + "786432|patate]]";
    TextWithoutBrackets("786432|patate]]");
    OpenerKept("786432|patate]]");
  }

  /** A link whose target starts with `/` and whose remaining text is free of `[` loses the `/`. */
  lemma RootedLink(path: string)
    requires Avoids(path, {'['})
    ensures Modify("[[/" + path) == "[[" + path
  {
    SlashDropped(path);
    TextWithoutBrackets(path);
  }

  lemma RootedTarget()
    ensures Modify("[[/" + "routes/786432|patate]]") == "[[" + "routes/786432|patate]]"
  {
    RootedLink("routes/786432|patate]]");
  }

  /** A site address link whose remaining text is free of `[` becomes a relative link. */
  lemma SiteLink(path: string)
    requires Avoids(path, {'['})
    ensures Modify("[[http://www.camptocamp.org/" + path) == "[[" + path
  {
    assert "[[http://www.camptocamp.org/" + path == "[[" + Site + path;
    SiteDropped(path);
    TextWithoutBrackets(path);
  }

  lemma ArticleLink()
    ensures Modify("[[http://www.camptocamp.org/" + "articles/106859/fr|" + "cotation de randonnée pédestre]]")
         == "[[" + "articles/106859/fr|" + "cotation de randonnée pédestre]]"
  {
    var a, b := "articles/106859/fr|", "cotation de randonnée pédestre]]";
    AvoidsAppend(a, b, {'['});
    SiteLink(a + b);
    assert "[[http://www.camptocamp.org/" + a + b == "[[http://www.camptocamp.org/" + (a + b);
    assert "[[" + a + b == "[[" + (a + b);
  }

  lemma RouteLink()
    ensures Modify("[[http://www.camptocamp.org/" + "routes/173371/it/" + "via-bartesaghi-iii-torrione|" + "Via Bartesaghi]] ")
         == "[[" + "routes/173371/it/" + "via-bartesaghi-iii-torrione|" + "Via Bartesaghi]] "
  {
    var a, b, c := "routes/173371/it/", "via-bartesaghi-iii-torrione|", "Via Bartesaghi]] ";
    AvoidsAppend(a, b, {'['});
    AvoidsAppend(a + b, c, {'['});
    SiteLink(a + b + c);
    assert "[[http://www.camptocamp.org/" + a + b + c == "[[http://www.camptocamp.org/" + (a + b + c);
    assert "[[" + a + b + c == "[[" + (a + b + c);
  }

  lemma ImageLink()
    ensures Modify("[[http://www.camptocamp.org/" + "images/19796/fr/|photo]]") == "[[" + "images/19796/fr/|photo]]"
  {
    SiteLink("images/19796/fr/|photo]]");
  }

  lemma AnchoredLink()
    ensures Modify("[[http://www.camptocamp.org/" + "routes/186949/fr/" + "presles-approches-descentes-"
                   + "presles#secteur-fhara-kiri|" + "Voir approches & descentes]]. ")
         == "[[" + "routes/186949/fr/" + "presles-approches-descentes-"
            + "presles#secteur-fhara-kiri|" + "Voir approches & descentes]]. "
  {
    var a, b, c, d := "routes/186949/fr/", "presles-approches-descentes-", "presles#secteur-fhara-kiri|", "Voir approches & descentes]]. ";
    AvoidsAppend(a, b, {'['});
    AvoidsAppend(a + b, c, {'['});
    AvoidsAppend(a + b + c, d, {'['});
    SiteLink(a + b + c + d);
    assert "[[http://www.camptocamp.org/" + a + b + c + d == "[[http://www.camptocamp.org/" + (a + b + c + d);
    assert "[[" + a + b + c + d == "[[" + (a + b + c + d);
  }

  /**
   * Removing a `/` can leave another one right after the link opener, so a
   * second pass removes that one too: the corrector is not idempotent.
   */
  lemma NotIdempotent()
    ensures Modify("[[//x") == "[[/x" && Modify("[[/x") == "[[x"
  {
    SlashDropped("/x");
    TextWithoutBrackets("/x");
    assert "[[/" + "/x" == "[[//x" && "[[" + "/x" == "[[/x";
    RootedLink("x");
    assert "[[/" + "x" == "[[/x";
  }
}
