// Locale normalisation: any incoming language tag becomes one of the three
// canonical locales the message catalog is written in.
module Locale {
  import opened Text
  import opened Values

  const DefaultLocale: string := "en"

  const CanonicalLocales: set<string> := {"en", "zh-CN", "zh-TW"}

  /** The alias table: exact spellings first, then the loose lookup key. */
  const Aliases: map<string, string> := map[
    "en" := "en", "en-us" := "en", "en_us" := "en", "en_US" := "en", "EN" := "en",
    "zh-cn" := "zh-CN", "zh_cn" := "zh-CN", "zhCN" := "zh-CN", "zh_CN" := "zh-CN", "zh-Hans" := "zh-CN",
    "zh-tw" := "zh-TW", "zh_tw" := "zh-TW", "zhTW" := "zh-TW", "zh_TW" := "zh-TW", "zh-Hant" := "zh-TW"
  ]

  /** The loose lookup key: blanks removed, '_' turned into '-', lower-cased. */
  function LooseKey(raw: string): string {
    Lower(ReplaceChar(ReplaceChar(raw, ' ', ""), '_', "-"))
  }

  /** normalize_locale: a total map from any value to a canonical locale. */
  function NormalizeLocale(lang: Value): (r: string)
    ensures r in CanonicalLocales
  {
    if !Truthy(lang) || lang.VDict? || lang.VList? then DefaultLocale
    else
      var raw := Strip(Str(lang));
      if raw in Aliases then Aliases[raw]
      else
        var lowered := LooseKey(raw);
        if lowered in Aliases then Aliases[lowered] else DefaultLocale
  }

  /** Falsy values, dicts and lists all give the default locale. */
  lemma {:induction false} FalsyOrContainerIsDefault(lang: Value)
    requires !Truthy(lang) || lang.VDict? || lang.VList?
    ensures NormalizeLocale(lang) == "en"
  {
  }

  /** The two lookup steps: the stripped tag verbatim, then its loose key,
      defaulting to English. */
  lemma {:induction false} TwoStepLookup(lang: Value)
    requires Truthy(lang) && !lang.VDict? && !lang.VList?
    ensures var raw := Strip(Str(lang));
      && (raw in Aliases ==> NormalizeLocale(lang) == Aliases[raw])
      && (raw !in Aliases && LooseKey(raw) in Aliases ==> NormalizeLocale(lang) == Aliases[LooseKey(raw)])
      && (raw !in Aliases && LooseKey(raw) !in Aliases ==> NormalizeLocale(lang) == "en")
  {
  }

  /** Without blanks or underscores the loose key is just the lower-cased tag. */
  lemma {:induction false} LooseKeyPlain(s: string)
    requires ' ' !in s && '_' !in s
    ensures LooseKey(s) == Lower(s)
  {
    ReplaceCharAbsent(s, ' ', "");
    ReplaceCharAbsent(s, '_', "-");
  }

  lemma {:induction false} AliasesWithDashAreLower()
    ensures forall k :: k in Aliases && |k| == 5 && k[2] == '-' ==> 'a' <= k[3] <= 'z'
  {
  }

  lemma {:induction false} AliasesStartWithLetter()
    ensures forall k :: k in Aliases ==> |k| > 0 && ('a' <= k[0] <= 'z' || 'A' <= k[0] <= 'Z')
  {
  }

  /** A tag shaped "zh-XY" with an upper-case region. */
  predicate UpperRegionTag(s: string) {
    |s| == 5 && s[0] == 'z' && s[1] == 'h' && s[2] == '-' && 'A' <= s[3] <= 'Z' && 'A' <= s[4] <= 'Z'
  }

  lemma {:induction false} UpperRegionStripped(s: string)
    requires UpperRegionTag(s)
    ensures Strip(s) == s
  {
    StripKeeps(s);
  }

  lemma {:induction false} UpperRegionNotExact(s: string)
    requires UpperRegionTag(s)
    ensures s !in Aliases
  {
    AliasesWithDashAreLower();
  }

  lemma {:induction false} UpperRegionLoose(s: string)
    requires UpperRegionTag(s)
    ensures LooseKey(s) == Lower(s)
  {
    assert ' ' !in s && '_' !in s;
    LooseKeyPlain(s);
  }

  /** An upper-case region tag is no exact alias: it is found by its lower-cased form. */
  lemma {:induction false} NormalizeUpperRegion(s: string)
    requires UpperRegionTag(s)
    requires Lower(s) in Aliases
    ensures NormalizeLocale(VStr(s)) == Aliases[Lower(s)]
  {
    UpperRegionStripped(s);
    UpperRegionNotExact(s);
    UpperRegionLoose(s);
    TwoStepLookup(VStr(s));
  }

  lemma {:induction false} LowerZhCN()
    ensures Lower("zh-CN") == "zh-cn" && Aliases["zh-cn"] == "zh-CN"
  {
  }

  lemma {:induction false} LowerZhTW()
    ensures Lower("zh-TW") == "zh-tw" && Aliases["zh-tw"] == "zh-TW"
  {
  }

  /** Each canonical locale normalises to itself. */
  lemma {:induction false} NormalizeCanonical(s: string)
    requires s in CanonicalLocales
    ensures NormalizeLocale(VStr(s)) == s
  {
    if s == "en" {
      StripKeeps(s);
    } else if s == "zh-CN" {
      LowerZhCN();
      NormalizeUpperRegion(s);
    } else {
      LowerZhTW();
      NormalizeUpperRegion(s);
    }
  }

  /** Normalising twice is normalising once. */
  lemma {:induction false} NormalizeIdempotent(lang: Value)
    ensures NormalizeLocale(VStr(NormalizeLocale(lang))) == NormalizeLocale(lang)
  {
    NormalizeCanonical(NormalizeLocale(lang));
  }

  /** The text of an integer: a digit or '-' first, nothing else but digits. */
  predicate NumeralText(s: string) {
    |s| >= 1 && forall k :: 0 <= k < |s| ==> s[k] == '-' || '0' <= s[k] <= '9'
  }

  lemma {:induction false} NumeralStripped(s: string)
    requires NumeralText(s)
    ensures Strip(s) == s
  {
    StripKeeps(s);
  }

  lemma {:induction false} NumeralNotAlias(s: string)
    requires NumeralText(s)
    ensures s !in Aliases
  {
    var c := s[0];
    assert c == '-' || '0' <= c <= '9';
    if s in Aliases {
      AliasesStartWithLetter();
      assert false;
    }
  }

  lemma {:induction false} NumeralLooseKeyNotAlias(s: string)
    requires NumeralText(s)
    ensures LooseKey(s) !in Aliases
  {
    assert ' ' !in s && '_' !in s;
    LooseKeyPlain(s);
    LowerSpec(s);
    assert LooseKey(s)[0] == s[0];
    AliasesStartWithLetter();
  }

  /** A number never names a locale: its text starts with a digit or '-' while
      every alias starts with a letter. */
  lemma {:induction false} IntegerTagIsDefault(i: int)
    ensures NormalizeLocale(VInt(i)) == "en"
  {
    if i != 0 {
      var s := IntToString(i);
      assert NumeralText(s);
      NumeralStripped(s);
      NumeralNotAlias(s);
      NumeralLooseKeyNotAlias(s);
      TwoStepLookup(VInt(i));
    }
  }

  /** An exact alias is taken as it is. */
  lemma {:induction false} ExactAliasSample()
    ensures NormalizeLocale(VStr("zh_cn")) == "zh-CN"
  {
    StripKeeps("zh_cn");
    ZhCnListed();
    ExactMatch("zh_cn");
  }

  /** A stripped tag that is an alias itself. */
  lemma {:induction false} ExactMatch(raw: string)
    requires Strip(raw) == raw && raw != [] && raw in Aliases
    ensures NormalizeLocale(VStr(raw)) == Aliases[raw]
  {
    TwoStepLookup(VStr(raw));
  }

  lemma {:induction false} ZhCnListed()
    ensures "zh_cn" in Aliases && Aliases["zh_cn"] == "zh-CN"
  {
  }

  /** An upper-case spelling with '_' is found through the loose key. */
  lemma {:induction false} LooseAliasSample()
    ensures NormalizeLocale(VStr("ZH_CN")) == "zh-CN"
  {
    StripKeeps("ZH_CN");
    LooseKeyUpperZhCN();
    LowerZhCN();
    UpperZhCNNotAlias();
    LooseMatch("ZH_CN");
  }

  /** An unknown tag falls back to English. */
  lemma {:induction false} UnknownTagSample()
    ensures NormalizeLocale(VStr("klingon")) == "en"
  {
    StripKeeps("klingon");
    LooseKeyPlain("klingon");
    LowerKlingon();
    KlingonNotAlias();
    NoMatch("klingon");
  }

  /** So does a known tag in a spelling the table does not list: only
      "zh-Hans" itself is an alias. */
  lemma {:induction false} UpperHansSample()
    ensures NormalizeLocale(VStr("ZH-HANS")) == "en"
  {
    StripKeeps("ZH-HANS");
    LooseKeyPlain("ZH-HANS");
    LowerUpperHans();
    UpperHansNotAlias();
    LowerHansNotAlias();
    NoMatch("ZH-HANS");
  }

  /** A stripped tag that is not an alias but whose loose key is. */
  lemma {:induction false} LooseMatch(raw: string)
    requires Strip(raw) == raw && raw != [] && raw !in Aliases && LooseKey(raw) in Aliases
    ensures NormalizeLocale(VStr(raw)) == Aliases[LooseKey(raw)]
  {
    TwoStepLookup(VStr(raw));
  }

  /** A stripped tag that matches neither way. */
  lemma {:induction false} NoMatch(raw: string)
    requires Strip(raw) == raw && raw != [] && raw !in Aliases && LooseKey(raw) !in Aliases
    ensures NormalizeLocale(VStr(raw)) == "en"
  {
    TwoStepLookup(VStr(raw));
  }

  lemma {:induction false} UnderscoreToDash()
    ensures ReplaceChar("ZH_CN", '_', "-") == "ZH-CN"
  {
  }

  lemma {:induction false} LowerUpperZhCN()
    ensures Lower("ZH-CN") == "zh-cn"
  {
  }

  lemma {:induction false} LooseKeyUpperZhCN()
    ensures LooseKey("ZH_CN") == "zh-cn"
  {
    ReplaceCharAbsent("ZH_CN", ' ', "");
    UnderscoreToDash();
    LowerUpperZhCN();
  }

  lemma {:induction false} LowerKlingon()
    ensures Lower("klingon") == "klingon"
  {
  }

  lemma {:induction false} LowerUpperHans()
    ensures Lower("ZH-HANS") == "zh-hans"
  {
  }

  lemma {:induction false} AliasInitials()
    ensures forall k :: k in Aliases ==> |k| >= 2 && (k[0] == 'e' || k[0] == 'E' || k[0] == 'z')
  {
  }

  lemma {:induction false} SevenLetterAliases()
    ensures forall k :: k in Aliases && |k| == 7 ==> k[3] == 'H'
  {
  }

  lemma {:induction false} UpperZhCNNotAlias()
    ensures "ZH_CN" !in Aliases
  {
    AliasInitials();
    assert "ZH_CN"[0] == 'Z';
  }

  lemma {:induction false} KlingonNotAlias()
    ensures "klingon" !in Aliases
  {
    AliasInitials();
    assert "klingon"[0] == 'k';
  }

  lemma {:induction false} UpperHansNotAlias()
    ensures "ZH-HANS" !in Aliases
  {
    AliasInitials();
    assert "ZH-HANS"[0] == 'Z';
  }

  lemma {:induction false} LowerHansNotAlias()
    ensures "zh-hans" !in Aliases
  {
    SevenLetterAliases();
    assert |"zh-hans"| == 7 && "zh-hans"[3] == 'h';
  }
}
