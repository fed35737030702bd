/** The language container: picks a language pack from a Telegram language code, and iterates over
    the registered packs. The packs' texts are opaque (see MsgKey); a pack is named by its language. */
module LangPack {
  import opened Common

  /** The three registered packs. */
  datatype Lang = Uk | Ru | En

  /** The code a pack is registered under. */
  function CodeOf(l: Lang): string
  {
    match l
    case Uk => "uk"
    case Ru => "ru"
    case En => "en"
  }

  /** Looks a code up in an ordered code table (a Python dict keeps insertion order). */
  function Lookup(table: seq<(string, Lang)>, code: string): (r: Option<Lang>)
    ensures r.Some? ==> exists i :: 0 <= i < |table| && table[i] == (code, r.value)
    ensures r.None? ==> forall i :: 0 <= i < |table| ==> table[i].0 != code
    decreases |table|
  {
    if table == [] then None
    else if table[0].0 == code then Some(table[0].1)
    else Lookup(table[1..], code)
  }

  /** The packs of a code table, in its order. */
  function PackValues(table: seq<(string, Lang)>): (r: seq<Lang>)
    ensures |r| == |table|
    ensures forall i :: 0 <= i < |table| ==> r[i] == table[i].1
    decreases |table|
  {
    if table == [] then [] else [table[0].1] + PackValues(table[1..])
  }

  class LangContainer {
    const defaultLang: Lang := Ru
    const langcodeToLangpack: seq<(string, Lang)> := [("uk", Uk), ("ru", Ru), ("en", En)]
    const langpacksList: seq<Lang> := PackValues(langcodeToLangpack)
    var currI: nat

    constructor ()
      ensures currI == 0
    {
      currI := 0;
    }

    /** The pack for a user's language code: the default for a missing or empty code, otherwise the
        pack registered under the lower-cased code, falling back to the default. */
    function FromLangcode(langCode: Option<string>): Lang
    {
      if langCode.None? || langCode.value == [] then defaultLang
      else
        match Lookup(langcodeToLangpack, Lower(langCode.value))
        case Some(l) => l
        case None => defaultLang
    }

    /** `__iter__`: restarts the iteration. */
    method Iter()
      modifies this
      ensures currI == 0
    {
      currI := 0;
    }

    /** `__next__`: the next pack, or None where Python raises StopIteration. */
    method Next() returns (r: Option<Lang>)
      modifies this
      ensures old(currI) >= |langpacksList| ==> r.None? && currI == old(currI)
      ensures old(currI) < |langpacksList| ==> r == Some(langpacksList[old(currI)]) && currI == old(currI) + 1
    {
      if currI >= |langpacksList| {
        return None;
      }
      r := Some(langpacksList[currI]);
      currI := currI + 1;
    }

    /** What a `for` loop over the container sees: it calls `__iter__` and then `__next__` until
        StopIteration. Whatever state an earlier iteration left behind, the packs come out as uk, ru,
        en, so the container can be iterated any number of times. */
    method Collect() returns (packs: seq<Lang>)
      modifies this
      ensures packs == [Uk, Ru, En]
      ensures currI == |langpacksList|
    {
      Iter();
      packs := [];
      var done := false;
      while !done
        invariant currI <= |langpacksList|
        invariant packs == langpacksList[..currI]
        invariant done ==> currI == |langpacksList|
        decreases |langpacksList| - currI, !done
      {
        var next := Next();
        match next {
          case None => done := true;
          case Some(l) => packs := packs + [l];
        }
      }
      assert langpacksList[..currI] == langpacksList;
    }
  }

  /** Every pack is selected by its own code, so the selection is onto the three packs. */
  lemma FromLangcodeOfCode(c: LangContainer, l: Lang)
    ensures c.FromLangcode(Some(CodeOf(l))) == l
  {
    assert Lower(CodeOf(l)) == CodeOf(l);
  }

  /** The selection ignores letter case. */
  lemma FromLangcodeIgnoresCase(c: LangContainer, code: string)
    ensures c.FromLangcode(Some(Lower(code))) == c.FromLangcode(Some(code))
  {
    LowerIdempotent(code);
  }

  /** Uk is chosen exactly for codes that lower-case to "uk", En exactly for "en", and Ru for
      everything else, the missing and the empty code included. */
  lemma FromLangcodeChoice(c: LangContainer, langCode: Option<string>)
    ensures c.FromLangcode(langCode) == Uk <==> (langCode.Some? && Lower(langCode.value) == "uk")
    ensures c.FromLangcode(langCode) == En <==> (langCode.Some? && Lower(langCode.value) == "en")
    ensures c.FromLangcode(langCode) == Ru <==>
      (langCode.None? || (Lower(langCode.value) != "uk" && Lower(langCode.value) != "en"))
  {
    if langCode.Some? && langCode.value != [] {
      var code := Lower(langCode.value);
      var r := Lookup(c.langcodeToLangpack, code);
      if r.Some? {
        var i :| 0 <= i < |c.langcodeToLangpack| && c.langcodeToLangpack[i] == (code, r.value);
      } else {
        assert c.langcodeToLangpack[0].0 != code && c.langcodeToLangpack[2].0 != code;
      }
    }
  }
}
