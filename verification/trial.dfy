/** The trial personal-voice REST path: endpoint URLs, the script-order
    table, the JSON request body and the test for a successful response. */
module Trial {
  import opened Wrappers
  import opened Text

  /** Host of the Custom Voice API for an Azure region. */
  function Endpoint(region: string): string {
    "https://" + region + ".api.cognitive.microsoft.com"
  }

  const ApiVersionQuery := "?api-version=2023-07-01-preview"

  /** The URL the trial synthesis request is posted to. */
  function SynthesisUrl(region: string): string {
    Endpoint(region) + "/customvoice/trial/synthesis" + ApiVersionQuery
  }

  const ZeroShotsPath := "/customvoice/trial/zeroshots/"

  /** The URL naming one trial voice; it is both the `model` field of the
      request body and the URL the voice-type probe fetches. */
  function ModelUrl(region: string, speakerId: string): string {
    Endpoint(region) + ZeroShotsPath + speakerId + ApiVersionQuery
  }

  /** Script order for each locale whose value is known; any other locale
      uses `DefaultScriptOrder`. */
  const ScriptOrderByLocale: map<string, int> := map[
    "en-US" := 11, "en-GB" := 11, "en-AU" := 11, "en-IN" := 11,
    "es-ES" := 13, "es-MX" := 13,
    "fr-FR" := 12, "de-DE" := 12, "it-IT" := 12,
    "ja-JP" := 14, "ko-KR" := 14, "zh-CN" := 14,
    "pt-BR" := 13
  ]

  const DefaultScriptOrder := 11

  function ScriptOrder(locale: string): (r: int)
    ensures 11 <= r <= 14
    ensures r != DefaultScriptOrder ==> locale in ScriptOrderByLocale
  {
    if locale in ScriptOrderByLocale then ScriptOrderByLocale[locale] else DefaultScriptOrder
  }

  /** The JSON object posted to the synthesis URL. */
  datatype TrialBody = TrialBody(
    model: string,
    locale: string,
    scriptOrder: int,
    text: string,
    baseModelName: string)

  const BaseModelName := "DragonLatestNeural"

  function BuildTrialBody(region: string, speakerId: string, language: string, text: string): (b: TrialBody)
    ensures b.model == ModelUrl(region, speakerId)
    ensures b.locale == language && b.text == text
    ensures b.scriptOrder == ScriptOrder(language)
    ensures b.baseModelName == "DragonLatestNeural"
    ensures StartsWith(b.model, "https://" + region + ".api.cognitive.microsoft.com/")
    ensures 11 <= b.scriptOrder <= 14
  {
    var model := ModelUrl(region, speakerId);
    assert model == ("https://" + region) + (".api.cognitive.microsoft.com" + ZeroShotsPath + speakerId + ApiVersionQuery);
    TrialBody(model, language, ScriptOrder(language), text, BaseModelName)
  }

  /** The known script orders, and the fallback for unlisted locales. */
  lemma ScriptOrderValues(locale: string)
    ensures locale == "en-US" ==> ScriptOrder(locale) == 11
    ensures locale == "es-ES" ==> ScriptOrder(locale) == 13
    ensures locale == "fr-FR" ==> ScriptOrder(locale) == 12
    ensures locale == "ja-JP" ==> ScriptOrder(locale) == 14
    ensures locale == "pt-BR" ==> ScriptOrder(locale) == 13
    ensures locale !in ScriptOrderByLocale ==> ScriptOrder(locale) == 11
  {
  }

  /** Different speaker ids name different models in the same region. */
  lemma ModelUrlInjective(region: string, a: string, b: string)
    requires ModelUrl(region, a) == ModelUrl(region, b)
    ensures a == b
  {
    var pre := Endpoint(region) + ZeroShotsPath;
    assert ModelUrl(region, a) == pre + a + ApiVersionQuery;
    assert ModelUrl(region, b) == pre + b + ApiVersionQuery;
    CancelAffixes(pre, a, b, ApiVersionQuery);
  }

  lemma CancelAffixes(pre: string, a: string, b: string, post: string)
    requires pre + a + post == pre + b + post
    ensures a == b
  {
    var s := pre + a + post;
    assert |a| == |b|;
    assert a == s[|pre|..|pre| + |a|];
    assert b == (pre + b + post)[|pre|..|pre| + |b|];
  }

  /** The trial request succeeded: HTTP 200 with a `Content-Type` that
      mentions audio; a missing header counts as the empty string. */
  predicate TrialSucceeded(status: int, contentType: Option<string>) {
    status == 200 && Contains(contentType.GetOr(""), "audio")
  }

  /** Success needs status 200 and a present header that contains "audio". */
  lemma TrialSucceededIff(status: int, contentType: Option<string>)
    ensures TrialSucceeded(status, contentType)
        <==> status == 200 && contentType.Some? && Contains(contentType.value, "audio")
  {
    if contentType.None? {
      forall k: nat | k <= 0
        ensures !OccursAt("", "audio", k)
      {
      }
    }
  }

  /** Any content type that begins with "audio" is accepted with status 200. */
  lemma AudioContentTypeAccepted(status: int, contentType: string)
    requires status == 200 && StartsWith(contentType, "audio")
    ensures TrialSucceeded(status, Some(contentType))
  {
    assert OccursAt(contentType, "audio", 0);
  }
}
