/** The translation table (locales/index.ts): one string table per language,
    looked up with a fallback to Portuguese. The string tables themselves are
    data and enter as a parameter. */
module Locales {
  import opened Options

  /** The ten supported language codes, Portuguese first. */
  const LanguageCodes: seq<string> := ["pt", "en", "es", "fr", "de", "it", "zh", "ar", "ja", "ru"]

  const Portuguese: string := "pt"

  /** One language's strings, by translation key. */
  type Table = map<string, string>

  type Translations = map<string, Table>

  /** The table holds an entry for exactly the ten codes. */
  predicate WellFormed(tr: Translations)
  {
    && (forall lang :: lang in tr ==> lang in LanguageCodes)
    && (forall lang :: lang in LanguageCodes ==> lang in tr)
  }

  /** `translations[language][key] || translations.pt[key]`: the language's
      string unless it is missing or empty, else the Portuguese one; None
      when Portuguese lacks the key too. */
  function GetTranslation(tr: Translations, lang: string, key: string): (r: Option<string>)
    requires lang in tr && Portuguese in tr
    ensures key in tr[lang] && tr[lang][key] != "" ==> r == Some(tr[lang][key])
    ensures !(key in tr[lang] && tr[lang][key] != "") ==>
      r == (if key in tr[Portuguese] then Some(tr[Portuguese][key]) else None)
    ensures r.Some? && r.value == "" ==> key in tr[Portuguese] && tr[Portuguese][key] == ""
  {
    var own := tr[lang];
    if key in own && own[key] != "" then Some(own[key])
    else if key in tr[Portuguese] then Some(tr[Portuguese][key])
    else None
  }

  /** Every code is two characters long. */
  lemma CodeLength(code: string)
    ensures code in LanguageCodes ==> |code| == 2
  {
    forall i | 0 <= i < |LanguageCodes| ensures |LanguageCodes[i]| == 2 {
    }
  }

  lemma LanguageCodesDistinct()
    ensures forall i, j :: 0 <= i < j < |LanguageCodes| ==> LanguageCodes[i] != LanguageCodes[j]
  {
  }

  /** A sequence without repeats has as many distinct elements as it is
      long. */
  lemma {:induction false} DistinctCount(s: seq<string>)
    requires forall i, j :: 0 <= i < j < |s| ==> s[i] != s[j]
    ensures |set x | x in s| == |s|
  {
    if s != [] {
      var rest := s[1..];
      DistinctCount(rest);
      assert (set x | x in s) == (set x | x in rest) + {s[0]};
      assert s[0] !in (set x | x in rest) by {
        forall k | 0 <= k < |rest| ensures rest[k] != s[0] {
          assert rest[k] == s[k + 1];
        }
      }
    }
  }

  /** A well-formed table has exactly ten language entries, Portuguese among
      them. */
  lemma WellFormedHasTen(tr: Translations)
    requires WellFormed(tr)
    ensures |tr| == 10
    ensures Portuguese in tr
  {
    var codes := set x | x in LanguageCodes;
    assert tr.Keys == codes;
    LanguageCodesDistinct();
    DistinctCount(LanguageCodes);
    assert LanguageCodes[0] == Portuguese;
  }

  /** For Portuguese itself the fallback changes nothing. */
  lemma PortugueseLookup(tr: Translations, key: string)
    requires Portuguese in tr
    ensures GetTranslation(tr, Portuguese, key) == if key in tr[Portuguese] then Some(tr[Portuguese][key]) else None
  {
  }

  /** The result depends on the asked language's table and the Portuguese
      table only. */
  lemma LookupDependsOnTwoTables(tr: Translations, tr': Translations, lang: string, key: string)
    requires lang in tr && Portuguese in tr && lang in tr' && Portuguese in tr'
    requires tr[lang] == tr'[lang] && tr[Portuguese] == tr'[Portuguese]
    ensures GetTranslation(tr, lang, key) == GetTranslation(tr', lang, key)
  {
  }

  /** Every key Portuguese has is translated for every language. */
  lemma PortugueseKeysAlwaysTranslate(tr: Translations, lang: string, key: string)
    requires lang in tr && Portuguese in tr
    requires key in tr[Portuguese]
    ensures GetTranslation(tr, lang, key).Some?
  {
  }
}
