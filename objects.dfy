/**
 * The documents the bot edits. A document is a dictionary; the parts of it
 * modelled here are a route's list of locales (one dictionary of text fields
 * per language), the pass that runs a corrector over the text fields of every
 * locale, the search for the locale of a language, and the conversion of a
 * list or dictionary entry into bot objects.
 */
module Objects {
  import opened Wrappers

  /** One language version of a document: field name to text. An absent text (`None`) is modelled as "". */
  type Locale = map<string, string>

  /** The text fields of a route locale that are corrected, in the order they are visited. */
  const FieldNames: seq<string> := ["description", "gear", "remarks", "route_history", "summary"]

  /** A corrector receives the text, the field name and the locale as it stands, and returns the new text. */
  type Corrector = (string, string, Locale) -> string

  predicate HasFields(loc: Locale)
  {
    forall f :: f in FieldNames ==> f in loc
  }

  predicate AllHaveFields(locs: seq<Locale>)
  {
    forall i :: 0 <= i < |locs| ==> HasFields(locs[i])
  }

  // ---------------------------------------------------------------------------
  // What the correction pass computes.

  /** Visit one field: a non-empty text is replaced by what the corrector makes of it. */
  function FixField(loc: Locale, f: string, c: Corrector): Locale
    requires f in loc
  {
    if loc[f] != "" then loc[f := c(loc[f], f, loc)] else loc
  }

  /** Visit the fields `fs` in order. */
  function FixFields(loc: Locale, fs: seq<string>, c: Corrector): (r: Locale)
    requires forall f :: f in fs ==> f in loc
    ensures r.Keys == loc.Keys
    decreases |fs|
  {
    if |fs| == 0 then loc
    else
      var prev := FixFields(loc, fs[..|fs| - 1], c);
      FixField(prev, fs[|fs| - 1], c)
  }

  function FixLocale(loc: Locale, c: Corrector): Locale
    requires HasFields(loc)
  {
    FixFields(loc, FieldNames, c)
  }

  function FixAll(locs: seq<Locale>, c: Corrector): seq<Locale>
    requires AllHaveFields(locs)
  {
    seq(|locs|, i requires 0 <= i < |locs| => FixLocale(locs[i], c))
  }

  // ---------------------------------------------------------------------------
  // Its properties. They are proved for any list of distinct field names.

  predicate Distinct(fs: seq<string>)
  {
    forall a, b :: 0 <= a < b < |fs| ==> fs[a] != fs[b]
  }

  lemma FieldNamesDistinct()
    ensures Distinct(FieldNames)
  {}

  /** Visiting one more field. */
  lemma FixFieldsSnoc(loc: Locale, fs: seq<string>, j: int, c: Corrector)
    requires forall f :: f in fs ==> f in loc
    requires 0 <= j < |fs|
    ensures forall f :: f in fs[..j] ==> f in loc
    ensures fs[j] in FixFields(loc, fs[..j], c)
    ensures FixFields(loc, fs[..j + 1], c) == FixField(FixFields(loc, fs[..j], c), fs[j], c)
  {
    assert fs[..j + 1][..j] == fs[..j];
    assert forall f :: f in fs[..j] ==> f in fs;
  }

  /**
   * Visiting fields keeps the keys, leaves every other key alone, and an empty
   * text stays empty (it is never handed to the corrector).
   */
  lemma {:induction false} FixFieldsFrame(loc: Locale, fs: seq<string>, c: Corrector)
    requires forall f :: f in fs ==> f in loc
    ensures FixFields(loc, fs, c).Keys == loc.Keys
    ensures forall k :: k in loc && k !in fs ==> FixFields(loc, fs, c)[k] == loc[k]
    ensures forall k :: k in loc && loc[k] == "" ==> FixFields(loc, fs, c)[k] == ""
    decreases |fs|
  {
    if |fs| > 0 {
      var init := fs[..|fs| - 1];
      forall f | f in init ensures f in loc {
        assert f in fs;
      }
      FixFieldsFrame(loc, init, c);
      forall k | k in loc && k !in fs ensures FixFields(loc, fs, c)[k] == loc[k] {
        assert k !in init;
      }
    }
  }

  /** Only the five text fields of a locale can change; its keys and every other entry stay. */
  lemma OnlyTextFieldsChange(locs: seq<Locale>, c: Corrector, i: int, k: string)
    requires AllHaveFields(locs) && 0 <= i < |locs| && k in locs[i]
    ensures |FixAll(locs, c)| == |locs|
    ensures FixAll(locs, c)[i].Keys == locs[i].Keys
    ensures k !in FieldNames ==> FixAll(locs, c)[i][k] == locs[i][k]
    ensures locs[i][k] == "" ==> FixAll(locs, c)[i][k] == ""
  {
    FixFieldsFrame(locs[i], FieldNames, c);
  }

  /** A field left behind is not visited again. */
  lemma {:induction false} StillAfter(loc: Locale, fs: seq<string>, c: Corrector, j: int, f: string)
    requires forall g :: g in fs ==> g in loc
    requires 0 <= j <= |fs| && f in loc && f !in fs[j..]
    ensures FixFields(loc, fs, c)[f] == FixFields(loc, fs[..j], c)[f]
    decreases |fs| - j
  {
    if j < |fs| {
      assert fs[j + 1..] == fs[j..][1..];
      StillAfter(loc, fs, c, j + 1, f);
      FixFieldsSnoc(loc, fs, j, c);
    } else {
      assert fs[..j] == fs;
    }
  }

  /**
   * A non-empty field ends up as one call of the corrector on its original
   * text, given the locale with the earlier fields already corrected.
   */
  lemma CorrectedOnce(loc: Locale, fs: seq<string>, c: Corrector, j: int)
    requires forall g :: g in fs ==> g in loc
    requires Distinct(fs) && 0 <= j < |fs|
    ensures var f := fs[j];
            var before := FixFields(loc, fs[..j], c);
            FixFields(loc, fs, c)[f] == if loc[f] != "" then c(loc[f], f, before) else ""
  {
    var f := fs[j];
    FixFieldsSnoc(loc, fs, j, c);
    FixFieldsFrame(loc, fs[..j], c);
    assert f !in fs[..j];
    assert f !in fs[j + 1..];
    StillAfter(loc, fs, c, j + 1, f);
  }

  /** On a route locale: each of the five fields is corrected once, in order. */
  lemma TextFieldCorrectedOnce(loc: Locale, c: Corrector, j: int)
    requires HasFields(loc) && 0 <= j < |FieldNames|
    ensures var f := FieldNames[j];
            var before := FixFields(loc, FieldNames[..j], c);
            FixLocale(loc, c)[f] == if loc[f] != "" then c(loc[f], f, before) else ""
  {
    FieldNamesDistinct();
    CorrectedOnce(loc, FieldNames, c, j);
  }

  /** The identity corrector changes nothing. */
  lemma IdentityChangesNothing(locs: seq<Locale>, c: Corrector)
    requires AllHaveFields(locs)
    requires forall v, f, l :: c(v, f, l) == v
    ensures FixAll(locs, c) == locs
  {
    forall i | 0 <= i < |locs| ensures FixAll(locs, c)[i] == locs[i] {
      IdentityFixes(locs[i], FieldNames, c);
    }
  }

  lemma {:induction false} IdentityFixes(loc: Locale, fs: seq<string>, c: Corrector)
    requires forall f :: f in fs ==> f in loc
    requires forall v, f, l :: c(v, f, l) == v
    ensures FixFields(loc, fs, c) == loc
    decreases |fs|
  {
    if |fs| > 0 {
      var init := fs[..|fs| - 1];
      forall f | f in init ensures f in loc {
        assert f in fs;
      }
      IdentityFixes(loc, init, c);
    }
  }

  /** The corrector, visiting field `t`, returns a text other than the one it was given. */
  predicate Differs(loc: Locale, fs: seq<string>, c: Corrector, t: int)
    requires forall g :: g in fs ==> g in loc
    requires 0 <= t < |fs|
  {
    FixFieldsSnoc(loc, fs, t, c);
    var f := fs[t];
    var before := FixFields(loc, fs[..t], c);
    before[f] != "" && c(before[f], f, before) != before[f]
  }

  /**
   * A locale changes exactly when, for some non-empty field, the corrector
   * returns a text other than the one it was given.
   */
  lemma {:induction false} ChangedWhenSomeFieldDiffers(loc: Locale, fs: seq<string>, c: Corrector, j: int)
    requires forall g :: g in fs ==> g in loc
    requires Distinct(fs) && 0 <= j <= |fs|
    ensures forall g :: g in fs[..j] ==> g in loc
    ensures FixFields(loc, fs[..j], c) != loc <==> exists t :: 0 <= t < j && Differs(loc, fs, c, t)
    decreases j
  {
    assert forall g :: g in fs[..j] ==> g in fs;
    if j == 0 {
      assert fs[..0] == [];
    } else {
      ChangedWhenSomeFieldDiffers(loc, fs, c, j - 1);
      var f := fs[j - 1];
      FixFieldsSnoc(loc, fs, j - 1, c);
      FixFieldsFrame(loc, fs[..j - 1], c);
      assert f !in fs[..j - 1];
      var before := FixFields(loc, fs[..j - 1], c);
      var after := FixFields(loc, fs[..j], c);
      if Differs(loc, fs, c, j - 1) {
        assert after[f] != loc[f];
      } else {
        assert after == before;
      }
    }
  }

  /** On a route locale: the pass changes it exactly when some field's corrected text differs. */
  lemma LocaleChangedWhenSomeFieldDiffers(loc: Locale, c: Corrector)
    requires HasFields(loc)
    ensures FixLocale(loc, c) != loc <==> exists t :: 0 <= t < |FieldNames| && Differs(loc, FieldNames, c, t)
  {
    FieldNamesDistinct();
    ChangedWhenSomeFieldDiffers(loc, FieldNames, c, |FieldNames|);
    assert FieldNames[..|FieldNames|] == FieldNames;
  }

  /** A locale that agrees with `orig` on `f` differs from it after `f` is set exactly when it did or the text changes. */
  lemma UpdateDiffers(loc: Locale, orig: Locale, f: string, v: string)
    requires f in loc && f in orig && loc[f] == orig[f]
    ensures loc[f := v] != orig <==> loc != orig || v != loc[f]
  {
    if loc[f := v] == orig {
      assert v == orig[f];
      assert loc == loc[f := v];
    }
  }

  /** A list whose every locale is the corrected one is the corrected list. */
  lemma FixedEach(olds: seq<Locale>, news: seq<Locale>, c: Corrector)
    requires AllHaveFields(olds) && |news| == |olds|
    requires forall k :: 0 <= k < |olds| ==> news[k] == FixLocale(olds[k], c)
    ensures news == FixAll(olds, c)
    ensures news != olds ==> exists k :: 0 <= k < |olds| && news[k] != olds[k]
  {
  }

  // ---------------------------------------------------------------------------
  // The route document.

  class Route {
    var locales: seq<Locale>

    constructor(locales: seq<Locale>)
      ensures this.locales == locales
    {
      this.locales := locales;
    }

    /**
     * Run `corrector` over the text fields of every locale, in place, and
     * report whether anything changed.
     */
    method FixMarkdown(corrector: Corrector) returns (updated: bool)
      requires AllHaveFields(locales)
      modifies this
      ensures locales == FixAll(old(locales), corrector)
      ensures updated <==> locales != old(locales)
    {
      updated := false;
      var i := 0;
      while i < |locales|
        invariant 0 <= i <= |locales| == |old(locales)|
        invariant forall k :: 0 <= k < i ==> locales[k] == FixLocale(old(locales)[k], corrector)
        invariant forall k :: i <= k < |locales| ==> locales[k] == old(locales)[k]
        invariant updated <==> exists k :: 0 <= k < i && locales[k] != old(locales)[k]
      {
        assert HasFields(old(locales)[i]);
        ghost var before := locales;
        var changed := FixLocaleAt(i, corrector);
        assert locales[i] == FixLocale(old(locales)[i], corrector);
        assert forall k :: 0 <= k < |locales| && k != i ==> locales[k] == before[k];
        if changed {
          assert locales[i] != old(locales)[i];
        }
        updated := updated || changed;
        i := i + 1;
      }
      FixedEach(old(locales), locales, corrector);
    }

    /** The inner loop of the pass: the five fields of locale `i`, in order. */
    method FixLocaleAt(i: int, corrector: Corrector) returns (changed: bool)
      requires 0 <= i < |locales| && HasFields(locales[i])
      modifies this
      ensures locales == old(locales)[i := FixLocale(old(locales)[i], corrector)]
      ensures changed <==> locales[i] != old(locales)[i]
    {
      ghost var orig := locales[i];
      FieldNamesDistinct();
      changed := false;
      var j := 0;
      while j < |FieldNames|
        invariant 0 <= j <= |FieldNames|
        invariant locales == old(locales)[i := FixFields(orig, FieldNames[..j], corrector)]
        invariant changed <==> locales[i] != orig
      {
        var field := FieldNames[j];
        FixFieldsSnoc(orig, FieldNames, j, corrector);
        FixFieldsFrame(orig, FieldNames[..j], corrector);
        assert field !in FieldNames[..j];
        if locales[i][field] != "" {
          var locale := locales[i];
          var newValue := corrector(locale[field], field, locale);
          UpdateDiffers(locale, orig, field, newValue);
          changed := changed || newValue != locale[field];
          locales := locales[i := locale[field := newValue]];
        }
        j := j + 1;
      }
      assert FieldNames[..j] == FieldNames;
    }

    /** The first locale in the given language, if there is one. */
    method GetLocale(lang: string) returns (r: Option<Locale>)
      requires forall i :: 0 <= i < |locales| ==> "lang" in locales[i]
      ensures r.None? <==> forall i :: 0 <= i < |locales| ==> locales[i]["lang"] != lang
      ensures r.Some? ==> exists i :: 0 <= i < |locales| && locales[i] == r.value && locales[i]["lang"] == lang &&
                                      forall j :: 0 <= j < i ==> locales[j]["lang"] != lang
    {
      var i := 0;
      while i < |locales|
        invariant 0 <= i <= |locales|
        invariant forall j :: 0 <= j < i ==> locales[j]["lang"] != lang
      {
        if locales[i]["lang"] == lang {
          return Some(locales[i]);
        }
        i := i + 1;
      }
      return None;
    }
  }

  // ---------------------------------------------------------------------------
  // Converting an entry of a bot object into bot objects.

  /** A value held by a bot object: a text, a list or a dictionary. */
  datatype Value = Text(text: string) | List(items: seq<Value>) | Dict(entries: map<string, Value>)

  /** Each element, in order, made into an object by `make`. */
  function MapList(items: seq<Value>, make: Value -> Value): (r: seq<Value>)
    ensures |r| == |items|
    ensures forall k :: 0 <= k < |items| ==> r[k] == make(items[k])
  {
    seq(|items|, k requires 0 <= k < |items| => make(items[k]))
  }

  /** Each value made into an object by `make`, under the same key. */
  function MapDict(entries: map<string, Value>, make: Value -> Value): (r: map<string, Value>)
    ensures r.Keys == entries.Keys
    ensures forall key :: key in entries ==> r[key] == make(entries[key])
  {
    map key | key in entries :: make(entries[key])
  }

  class BotObject {
    var fields: map<string, Value>

    constructor(fields: map<string, Value>)
      ensures this.fields == fields
    {
      this.fields := fields;
    }

    /** Replace the list under `name` by the objects made from its elements. */
    method ConvertList(name: string, make: Value -> Value)
      requires name in fields && fields[name].List?
      modifies this
      ensures fields == old(fields)[name := List(MapList(old(fields)[name].items, make))]
    {
      fields := fields[name := List(MapList(fields[name].items, make))];
    }

    /** Replace the dictionary under `name` by the objects made from its values. */
    method ConvertDict(name: string, make: Value -> Value)
      requires name in fields && fields[name].Dict?
      modifies this
      ensures fields == old(fields)[name := Dict(MapDict(old(fields)[name].entries, make))]
    {
      fields := fields[name := Dict(MapDict(fields[name].entries, make))];
    }
  }
}
