/** Language selection and translation (providers/language-provider.tsx).
    The chosen code is kept under the storage entry "app_language", modelled
    as the field `savedLanguage`. Codes and keys are trimmed the way
    String.prototype.trim does it. */
module Language {
  import opened Options
  import opened Locales

  /** ECMAScript WhiteSpace and LineTerminator code points: what trim
      removes. */
  predicate IsWhitespace(c: char)
  {
    || c == '\t' || c == '\n' || c == '\U{000B}' || c == '\U{000C}' || c == '\r'
    || c == ' ' || c == '\U{00A0}' || c == '\U{1680}'
    || ('\U{2000}' <= c <= '\U{200A}')
    || c == '\U{2028}' || c == '\U{2029}' || c == '\U{202F}' || c == '\U{205F}'
    || c == '\U{3000}' || c == '\U{FEFF}'
  }

  /** The longest suffix not starting with whitespace. */
  function TrimStart(s: string): (r: string)
    ensures |r| <= |s| && r == s[|s| - |r|..]
    ensures forall i :: 0 <= i < |s| - |r| ==> IsWhitespace(s[i])
    ensures r == [] || !IsWhitespace(r[0])
    decreases |s|
  {
    if s != [] && IsWhitespace(s[0]) then TrimStart(s[1..]) else s
  }

  /** The longest prefix not ending with whitespace. */
  function TrimEnd(s: string): (r: string)
    ensures |r| <= |s| && r == s[..|r|]
    ensures forall i :: |r| <= i < |s| ==> IsWhitespace(s[i])
    ensures r == [] || !IsWhitespace(r[|r| - 1])
    decreases |s|
  {
    if s != [] && IsWhitespace(s[|s| - 1]) then TrimEnd(s[..|s| - 1]) else s
  }

  /** String.prototype.trim: empty exactly for all-whitespace input, and
      otherwise neither starting nor ending with whitespace. */
  function Trim(s: string): (r: string)
    ensures |r| <= |s|
    ensures r == [] <==> forall i :: 0 <= i < |s| ==> IsWhitespace(s[i])
    ensures r == [] || (!IsWhitespace(r[0]) && !IsWhitespace(r[|r| - 1]))
  {
    var t := TrimStart(s);
    var r := TrimEnd(t);
    assert r != [] ==> r[0] == t[0];
    assert r == [] ==> t == [] by {
      if t != [] {
        assert !IsWhitespace(t[0]);
      }
    }
    r
  }

  lemma TrimIdempotent(s: string)
    ensures Trim(Trim(s)) == Trim(s)
  {
    var r := Trim(s);
    assert TrimStart(r) == r;
    assert TrimEnd(r) == r;
  }

  /** The length JavaScript reports for a string: UTF-16 code units, two for
      a character outside the Basic Multilingual Plane. */
  function Utf16Length(s: string): (n: nat)
    ensures |s| <= n <= 2 * |s|
  {
    if s == [] then 0
    else (if s[0] as int >= 0x1_0000 then 2 else 1) + Utf16Length(s[1..])
  }

  /** A string made only of characters outside the Basic Multilingual Plane
      is twice as long in UTF-16 as in characters. */
  lemma {:induction false} Utf16LengthAstral(s: string)
    requires forall i :: 0 <= i < |s| ==> s[i] as int >= 0x1_0000
    ensures Utf16Length(s) == 2 * |s|
  {
    if s != [] {
      Utf16LengthAstral(s[1..]);
    }
  }

  /** isValidLanguage: the trimmed input is one of the ten codes; empty and
      whitespace-only input is refused. */
  function IsValidLanguage(language: string): (b: bool)
    ensures b <==> Trim(language) in LanguageCodes
    ensures b ==> |Trim(language)| == 2
  {
    var t := Trim(language);
    CodeLength(t);
    if language == "" || |t| == 0 then false else t in LanguageCodes
  }

  lemma WhitespaceIsNotALanguage(language: string)
    requires forall i :: 0 <= i < |language| ==> IsWhitespace(language[i])
    ensures !IsValidLanguage(language)
  {
  }

  /** The length bound setLanguage checks never decides anything: no code
      is longer than two characters. */
  lemma LengthGuardRedundant(language: string)
    requires Utf16Length(Trim(language)) > 10
    ensures !IsValidLanguage(language)
  {
  }

  const RtlLanguages: seq<string> := ["ar"]

  /** The key t looks up: the trimmed key, unless it is empty or longer than
      100 UTF-16 code units. */
  function SanitizedKey(key: string): (k: Option<string>)
    ensures k.Some? <==> 0 < |Trim(key)| && Utf16Length(Trim(key)) <= 100
    ensures k.Some? ==> k.value == Trim(key)
  {
    var sanitized := Trim(key);
    if key == "" || |sanitized| == 0 then None
    else if Utf16Length(sanitized) > 100 then None
    else Some(sanitized)
  }

  /** A key of more than fifty characters from outside the Basic
      Multilingual Plane is refused, though it has at most 100 characters:
      the bound is on UTF-16 code units. */
  lemma LongAstralKeyRefused(key: string)
    requires 50 < |key|
    requires forall i :: 0 <= i < |key| ==> key[i] as int >= 0x1_0000
    ensures SanitizedKey(key).None?
  {
    assert !IsWhitespace(key[0]) && !IsWhitespace(key[|key| - 1]);
    TrimRemovesPadding([], key, []);
    assert [] + key + [] == key;
    Utf16LengthAstral(key);
  }

  class LanguageProvider {
    const translations: Translations
    var currentLanguage: string
    var isLoaded: bool
    /** The "app_language" entry. */
    var savedLanguage: Option<string>

    ghost predicate Valid()
      reads this
    {
      currentLanguage in LanguageCodes && WellFormed(translations)
    }

    constructor (defaultLanguage: string, translations: Translations, savedLanguage: Option<string>)
      requires defaultLanguage in LanguageCodes
      requires WellFormed(translations)
      ensures currentLanguage == defaultLanguage && !isLoaded
      ensures this.translations == translations && this.savedLanguage == savedLanguage
      ensures Valid()
    {
      this.translations := translations;
      currentLanguage := defaultLanguage;
      isLoaded := false;
      this.savedLanguage := savedLanguage;
    }

    /** Adopts the stored code, trimmed, when it is valid; marks the
        provider loaded in every case. */
    method LoadSavedLanguage()
      modifies this`currentLanguage, this`isLoaded
      ensures savedLanguage.Some? && IsValidLanguage(savedLanguage.value) ==>
        currentLanguage == Trim(savedLanguage.value)
      ensures !(savedLanguage.Some? && IsValidLanguage(savedLanguage.value)) ==>
        currentLanguage == old(currentLanguage)
      ensures isLoaded
      ensures old(Valid()) ==> Valid()
    {
      if savedLanguage.Some? && savedLanguage.value != "" && IsValidLanguage(savedLanguage.value) {
        currentLanguage := Trim(savedLanguage.value);
      }
      isLoaded := true;
    }

    /** Stores and adopts the trimmed code when it is valid; otherwise
        changes nothing. */
    method SetLanguage(language: string)
      modifies this`currentLanguage, this`savedLanguage
      ensures IsValidLanguage(language) ==>
        currentLanguage == Trim(language) && savedLanguage == Some(Trim(language))
      ensures !IsValidLanguage(language) ==>
        currentLanguage == old(currentLanguage) && savedLanguage == old(savedLanguage)
      ensures old(Valid()) ==> Valid()
    {
      if language == "" || |Trim(language)| == 0 {
        return;
      }
      var sanitized := Trim(language);
      if Utf16Length(sanitized) > 10 {
        return;
      }
      TrimIdempotent(language);
      if !IsValidLanguage(sanitized) {
        return;
      }
      savedLanguage := Some(sanitized);
      currentLanguage := sanitized;
    }

    /** t: the empty string for a blank key or a trimmed key longer than 100
        UTF-16 code units, else the lookup of the trimmed key in the current
        language (None when even Portuguese lacks it). */
    function Translate(key: string): (r: Option<string>)
      reads this
      requires Valid()
      ensures SanitizedKey(key).None? ==> r == Some("")
      ensures SanitizedKey(key).Some? ==>
        Portuguese in translations &&
        r == GetTranslation(translations, currentLanguage, Trim(key))
    {
      var k := SanitizedKey(key);
      if k.None? then Some("")
      else
        WellFormedHasTen(translations);
        GetTranslation(translations, currentLanguage, k.value)
    }

    /** Whitespace around a key does not change its translation. */
    lemma TranslateIgnoresPadding(key: string)
      requires Valid()
      ensures Translate(key) == Translate(Trim(key))
    {
      TrimIdempotent(key);
    }

    function IsRTL(): (b: bool)
      reads this
      ensures b <==> currentLanguage == "ar"
    {
      currentLanguage in RtlLanguages
    }
  }

  lemma {:induction false} TrimStartPadding(left: string, rest: string)
    requires forall i :: 0 <= i < |left| ==> IsWhitespace(left[i])
    requires rest == [] || !IsWhitespace(rest[0])
    ensures TrimStart(left + rest) == rest
    decreases |left|
  {
    if left == [] {
      assert left + rest == rest;
    } else {
      assert (left + rest)[0] == left[0];
      assert (left + rest)[1..] == left[1..] + rest;
      TrimStartPadding(left[1..], rest);
    }
  }

  lemma {:induction false} TrimEndPadding(rest: string, right: string)
    requires forall i :: 0 <= i < |right| ==> IsWhitespace(right[i])
    requires rest == [] || !IsWhitespace(rest[|rest| - 1])
    ensures TrimEnd(rest + right) == rest
    decreases |right|
  {
    if right == [] {
      assert rest + right == rest;
    } else {
      var s := rest + right;
      assert s[|s| - 1] == right[|right| - 1];
      assert s[..|s| - 1] == rest + right[..|right| - 1];
      TrimEndPadding(rest, right[..|right| - 1]);
    }
  }

  /** trim removes exactly the whitespace around a word that neither begins
      nor ends with whitespace. */
  lemma TrimRemovesPadding(left: string, word: string, right: string)
    requires forall i :: 0 <= i < |left| ==> IsWhitespace(left[i])
    requires forall i :: 0 <= i < |right| ==> IsWhitespace(right[i])
    requires word != [] && !IsWhitespace(word[0]) && !IsWhitespace(word[|word| - 1])
    ensures Trim(left + word + right) == word
  {
    assert left + word + right == left + (word + right);
    assert (word + right)[0] == word[0];
    TrimStartPadding(left, word + right);
    TrimEndPadding(word, right);
  }

  /** Choosing Arabic, with whatever whitespace around it, makes the
      layout right-to-left. */
  method ChooseArabic(translations: Translations, defaultLanguage: string, language: string) returns (current: string, rtl: bool)
    requires WellFormed(translations)
    requires defaultLanguage in LanguageCodes
    requires Trim(language) == "ar"
    ensures current == "ar" && rtl
  {
    var provider := new LanguageProvider(defaultLanguage, translations, None);
    assert IsValidLanguage(language) by {
      assert LanguageCodes[7] == "ar";
    }
    provider.SetLanguage(language);
    current := provider.currentLanguage;
    rtl := provider.IsRTL();
  }
}
