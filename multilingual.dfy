// Choosing the text of an article for a community language: the translation
// for the language's API code, else the English translation, else the raw
// content; then the language's machine-translation notice and the MarkdownV2
// escape.
module Multilingual {
  import opened Text
  import opened Values
  import opened MarkdownV2

  /** The wording of the machine-translation notice per community language. */
  const NoticeText: map<string, string> := map[
    "zh" := "由 AI 自動翻譯，僅供參考",
    "en" := "Automatically translated by AI. For reference only.",
    "ru" := "Переведено ИИ, только для справки",
    "id" := "Diterjemahkan AI, hanya sebagai referensi",
    "ja" := "AI翻訳、参考用です",
    "pt" := "Traduzido por IA, apenas para referência",
    "fr" := "Traduction IA, à titre indicatif",
    "es" := "Traducción por IA, solo ~~~referencia",
    "tr" := "Yapay zeka çevirisi, sadece bilgi amaçlı",
    "de" := "KI-Übersetzung, nur zur Orientierung",
    "it" := "Tradotto da AI, solo a scopo informativo",
    "vi" := "Dịch bởi AI, chỉ mang tính tham khảo",
    "tl" := "Isinalin ng AI, para sa sanggunian lamang",
    "ar" := "مترجم بواسطة الذكاء الاصطناعي، للاستشارة فقط",
    "fa" := "ترجمه شده توسط هوش مصنوعی، فقط برای مرجع",
    "km" := "បកប្រែដោយ AI សម្រាប់គោលបំណងយោបល់ប៉ុណ្ណោះ",
    "ko" := "AI 자동 번역 내용이며, 참고용입니다.",
    "ms" := "Diterjemahkan oleh AI, untuk rujukan sahaja",
    "th" := "แปลโดย AI เฉพาะเพื่อการอ้างอิง"
  ]

  /** The notice per community language: a newline, then the wording between "~~~" marks. */
  const AiTranslateHint: map<string, string> :=
    map lang | lang in NoticeText :: "\n~~~" + NoticeText[lang] + "~~~"

  /** Community language code to the language code of the article API. */
  const LanguageCodeMapping: map<string, string> := map[
    "zh" := "zh_CN", "en" := "en_US", "ru" := "ru_RU", "id" := "in_ID", "ja" := "ja_JP",
    "pt" := "pt_PT", "fr" := "fr_FR", "es" := "es_ES", "tr" := "tr_TR", "de" := "de_DE",
    "it" := "it_IT", "vi" := "vi_VN", "tl" := "tl_PH", "ar" := "ar_AE", "fa" := "fa_IR",
    "km" := "km_KH", "ko" := "ko_KR", "ms" := "ms_MY", "th" := "th_TH"
  ]

  /** The notice for a language, the English one for an unknown language. */
  function Hint(lang: string): (r: string)
    ensures |r| >= 1 && r[0] == '\n'
    ensures lang !in AiTranslateHint ==> r == AiTranslateHint["en"]
  {
    if lang in AiTranslateHint then AiTranslateHint[lang] else AiTranslateHint["en"]
  }

  /** The API code for a language, "en_US" for an unknown language. */
  function ApiCode(lang: string): string {
    if lang in LanguageCodeMapping then LanguageCodeMapping[lang] else "en_US"
  }

  /** The content chosen before the notice is appended: the translation for
      the API code if truthy, else the English translation if truthy, else
      `post.get("content", "")`. None where `translations` is a truthy value
      that is not a dict (its `.get` raises). */
  function ChooseContent(post: map<string, Value>, lang: string): Option<Value> {
    var translations := Get(post, "translations");
    var raw := GetOr(post, "content", VStr(""));
    if !Truthy(translations) then Some(raw)
    else if !translations.VDict? then None
    else
      var content := Get(translations.fields, ApiCode(lang));
      if Truthy(content) then Some(content)
      else
        var english := Get(translations.fields, "en_US");
        Some(if Truthy(english) then english else raw)
  }

  /** `get_multilingual_content`: None where Python raises, which is also
      when the chosen content is not a string (`content + "\n"`). */
  function GetMultilingualContent(post: map<string, Value>, lang: string): (r: Option<string>)
    ensures r.Some? <==> ChooseContent(post, lang).Some? && ChooseContent(post, lang).value.VStr?
    ensures r.Some? ==> Unescape(r.value) == ChooseContent(post, lang).value.s + "\n" + Hint(lang)
  {
    match ChooseContent(post, lang)
    case None => None
    case Some(content) =>
      if !content.VStr? then None
      else
        var full := content.s + "\n" + Hint(lang);
        UnescapeEscape(full);
        Some(Escape(full))
  }

  /** Without translations the raw content is used, "" when it is absent. */
  lemma {:induction false} NoTranslations(post: map<string, Value>, lang: string)
    requires !Truthy(Get(post, "translations"))
    requires "content" !in post || post["content"].VStr?
    ensures var content := if "content" in post then post["content"].s else "";
      GetMultilingualContent(post, lang) == Some(Escape(content + "\n" + Hint(lang)))
  {
  }

  /** An unknown language reads the "en_US" translation and gets the English notice. */
  lemma {:induction false} UnknownLanguage(post: map<string, Value>, lang: string)
    requires lang !in LanguageCodeMapping && lang !in AiTranslateHint
    ensures ChooseContent(post, lang) == ChooseContent(post, "en")
    ensures Hint(lang) == Hint("en")
  {
  }

  /** The fallback chain over a translations dict. */
  lemma {:induction false} FallbackChain(post: map<string, Value>, lang: string, translations: map<string, Value>)
    requires Get(post, "translations") == VDict(translations) && translations != map[]
    ensures Truthy(Get(translations, ApiCode(lang))) ==>
      ChooseContent(post, lang) == Some(translations[ApiCode(lang)])
    ensures !Truthy(Get(translations, ApiCode(lang))) && Truthy(Get(translations, "en_US")) ==>
      ChooseContent(post, lang) == Some(translations["en_US"])
    ensures !Truthy(Get(translations, ApiCode(lang))) && !Truthy(Get(translations, "en_US")) ==>
      ChooseContent(post, lang) == Some(GetOr(post, "content", VStr("")))
  {
  }

  /** Read back, the output is the content, a blank line, then the notice text. */
  lemma {:induction false} BlankLineBeforeNotice(post: map<string, Value>, lang: string)
    requires GetMultilingualContent(post, lang).Some?
    ensures var h := Hint(lang);
      Unescape(GetMultilingualContent(post, lang).value)
        == ChooseContent(post, lang).value.s + "\n\n" + h[1..]
  {
    NewlineBeforeNotice(ChooseContent(post, lang).value.s, Hint(lang));
  }

  lemma {:induction false} NewlineBeforeNotice(c: string, h: string)
    requires |h| >= 1 && h[0] == '\n'
    ensures c + "\n" + h == c + "\n\n" + h[1..]
  {
    assert h == "\n" + h[1..];
  }
}
