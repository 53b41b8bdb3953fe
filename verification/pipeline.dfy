/** The program's top level: read the Markdown, check the configuration,
    probe the voice type, and build either the trial REST request or the
    SSML the Speech SDK speaks; then interpret what came back. */
module Pipeline {
  import opened Wrappers
  import opened Text
  import Markdown
  import Html
  import Ssml
  import Trial
  import opened Config

  newtype byte = x: int | 0 <= x < 256

  /** What the voice-type probe got back: an HTTP status, or no answer at
      all (a connection error or a timeout). */
  datatype Probe = Answered(status: int) | Unreachable

  /** Only an HTTP 200 from the zero-shot model URL marks a trial voice;
      any other status or a failed request selects the SDK path. */
  predicate IsTrialVoice(p: Probe): (r: bool)
    ensures r <==> p == Answered(200)
    ensures p.Unreachable? ==> !r
  {
    p.Answered? && p.status == 200
  }

  /** The URL the probe fetches. The program spells the zero-shot URL out
      a second time for the probe instead of sharing it with the trial
      request, so it is written out here again too; `ProbeUrlIsModelUrl`
      shows that the two spellings agree. */
  function ProbeUrl(cfg: Config): string {
    "https://" + cfg.speechRegion + ".api.cognitive.microsoft.com"
      + "/customvoice/trial/zeroshots/" + cfg.speakerProfileId + "?api-version=2023-07-01-preview"
  }

  /** The probe asks about the very model the trial request names. */
  lemma ProbeUrlIsModelUrl(cfg: Config)
    ensures ProbeUrl(cfg) == Trial.BuildTrialBody(cfg.speechRegion, cfg.speakerProfileId, cfg.language, "").model
  {
  }

  const PreviewLimit := 500

  /** The preview echoed before synthesis: at most 500 characters of the
      text, followed by "..." when something was cut off. */
  function Preview(text: string): (r: string)
    ensures |text| <= PreviewLimit ==> r == text
    ensures |text| > PreviewLimit ==> |r| == PreviewLimit + 3 && EndsWith(r, "...")
    ensures StartsWith(r, text[..if |text| < PreviewLimit then |text| else PreviewLimit])
  {
    if |text| > PreviewLimit then
      var r := text[..PreviewLimit] + "...";
      assert r[..PreviewLimit] == text[..PreviewLimit];
      assert r[|r| - 3..] == "...";
      r
    else
      text
  }

  /** A preview shorter than the limit plus the ellipsis is the whole text. */
  lemma PreviewLosesNothingShort(text: string)
    requires |Preview(text)| < PreviewLimit + 3
    ensures Preview(text) == text
  {
  }

  /** Reasons the program stops with an error before any audio is made. */
  datatype Fatal =
    | InputNotFound
    | NoText
    | ConfigMissing(key: string)

  /** The synthesis the program starts. */
  datatype Request =
    | TrialPost(url: string, body: Trial.TrialBody, outputFile: string)
    | SdkSpeak(ssml: string, format: SdkAudioFormat, outputFile: string)

  /** One run of the program up to the synthesis call. `doc` is the input
      file's text as a text-mode read returns it (line endings already
      `\n`), `None` when no such file exists; `env` the
      environment after loading `.env`; `output` the `-o` argument; `probe`
      the answer the voice-type probe gets for the loaded configuration. */
  function Run(doc: Option<string>, env: Env, output: Option<string>, probe: Probe): (r: Result<Request, Fatal>)
    ensures doc.None? ==> r == Failure(InputNotFound)
    ensures r.Success? ==> doc.Some? && Markdown.ReadMarkdown(doc.value) != "" && LoadConfig(env).Success?
    ensures r.Success? ==> (r.value.TrialPost? <==> IsTrialVoice(probe))
  {
    match doc
    case None => Failure(InputNotFound)
    case Some(content) => Proceed(Markdown.ReadMarkdown(content), env, output, probe)
  }

  /** The run once the text has been extracted: stop on empty text, then
      load the configuration, apply `-o`, and pick the synthesis path. */
  function Proceed(text: string, env: Env, output: Option<string>, probe: Probe): (r: Result<Request, Fatal>)
    ensures text == "" ==> r == Failure(NoText)
    ensures r.Success? <==> text != "" && LoadConfig(env).Success?
  {
    if text == "" then Failure(NoText)
    else
      match LoadConfig(env)
      case Failure(e) => Failure(ConfigMissing(e.key))
      case Success(loaded) =>
        var cfg := ApplyOutputOverride(loaded, output);
        Success(Synthesis(cfg, text, probe))
  }

  /** The request for a loaded configuration and a non-empty text. The trial
      request goes to the region's endpoint, names the probed model and the
      configured locale, and writes `<name>.<format>`; the SDK request
      speaks with the configured profile and style in the configured
      language, and writes MP3 or WAV as the format asks. */
  function Synthesis(cfg: Config, text: string, probe: Probe): (q: Request)
    ensures q.TrialPost? <==> IsTrialVoice(probe)
    ensures q.TrialPost? ==>
      && q.url == Trial.SynthesisUrl(cfg.speechRegion)
      && q.body.model == ProbeUrl(cfg)
      && q.body.locale == cfg.language
      && q.body.scriptOrder == Trial.ScriptOrder(cfg.language)
      && q.outputFile == TrialOutputFile(cfg)
    ensures q.SdkSpeak? ==>
      && StartsWith(q.ssml, Ssml.SpeakOpen(cfg.language) + Ssml.VoiceOpen)
      && Contains(q.ssml, "speakerProfileId='" + Html.Escape(cfg.speakerProfileId) + "'/>")
      && Contains(q.ssml, "style='" + Html.Escape(cfg.style) + "'>")
      && q.format == SdkFormat(cfg)
      && q.outputFile == SdkOutputFile(cfg)
  {
    if IsTrialVoice(probe) then
      ProbeUrlIsModelUrl(cfg);
      TrialPost(Trial.SynthesisUrl(cfg.speechRegion),
                Trial.BuildTrialBody(cfg.speechRegion, cfg.speakerProfileId, cfg.language, text),
                TrialOutputFile(cfg))
    else
      Ssml.AttributesEscaped(cfg.language, cfg.speakerProfileId, cfg.style, text);
      SdkSpeak(Ssml.BuildSsml(cfg.language, cfg.speakerProfileId, cfg.style, text),
               SdkFormat(cfg), SdkOutputFile(cfg))
  }

  /** Text that reduces to nothing stops the run before the configuration is
      even looked at. */
  lemma EmptyTextStopsBeforeConfig(content: string, env: Env, output: Option<string>, probe: Probe)
    requires Markdown.ReadMarkdown(content) == ""
    ensures Run(Some(content), env, output, probe) == Failure(NoText)
  {
  }

  /** A configuration error is reported with the variable at fault. */
  lemma ConfigErrorNamesKey(text: string, env: Env, output: Option<string>, probe: Probe)
    requires text != ""
    requires LoadConfig(env).Failure?
    ensures var r := Proceed(text, env, output, probe);
      r.Failure? && r.error.ConfigMissing? && r.error.key in RequiredKeys && !Usable(env, r.error.key)
  {
  }

  /** Without `SPEECH_STYLE` the style is Cheerful, so an SDK run speaks
      with the Cheerful prosody preset. */
  lemma DefaultStyleIsCheerful(text: string, env: Env, output: Option<string>, probe: Probe)
    requires text != "" && LoadConfig(env).Success?
    requires "SPEECH_STYLE" !in env && !IsTrialVoice(probe)
    ensures var q := Proceed(text, env, output, probe).value;
      q.SdkSpeak? && Contains(q.ssml, "<prosody rate='+8%' pitch='+5%'>")
  {
    var cfg := ProceedSucceeds(text, env, output, probe);
    LoadConfigValues(env);
    assert cfg.style == "Cheerful";
    CheerfulSynthesis(cfg, text, probe);
  }

  lemma CheerfulSynthesis(cfg: Config, text: string, probe: Probe)
    requires cfg.style == "Cheerful" && !IsTrialVoice(probe)
    ensures var q := Synthesis(cfg, text, probe);
      q.SdkSpeak? && Contains(q.ssml, "<prosody rate='+8%' pitch='+5%'>")
  {
    Ssml.CheerfulProsody(cfg.language, cfg.speakerProfileId, cfg.style, text);
  }

  /** A voice the probe cannot find (HTTP 404) is spoken through the SDK, as
      is one whose probe got no answer. */
  lemma NonTrialVoiceUsesSdk(text: string, env: Env, output: Option<string>, probe: Probe)
    requires probe == Answered(404) || probe == Unreachable
    requires Proceed(text, env, output, probe).Success?
    ensures Proceed(text, env, output, probe).value.SdkSpeak?
  {
  }

  /** A successful run sends the reduced Markdown: verbatim in the trial
      body, and escaped inside the SSML. */
  lemma RunSendsReducedText(content: string, env: Env, output: Option<string>, probe: Probe)
    requires Run(Some(content), env, output, probe).Success?
    ensures var q := Run(Some(content), env, output, probe).value;
      var text := Markdown.ReadMarkdown(content);
      && NoEdgeSpace(text) && Markdown.NoTripleNewline(text)
      && (q.TrialPost? ==> q.body.text == text && q.body.baseModelName == "DragonLatestNeural")
      && (q.SdkSpeak? ==> Contains(q.ssml, Html.Escape(text)))
  {
    ProceedSendsText(Markdown.ReadMarkdown(content), env, output, probe);
  }

  lemma ProceedSendsText(text: string, env: Env, output: Option<string>, probe: Probe)
    requires Proceed(text, env, output, probe).Success?
    ensures var q := Proceed(text, env, output, probe).value;
      && (q.TrialPost? ==> q.body.text == text && q.body.baseModelName == "DragonLatestNeural")
      && (q.SdkSpeak? ==> Contains(q.ssml, Html.Escape(text)))
  {
    var cfg := ProceedSucceeds(text, env, output, probe);
    SynthesisSendsText(cfg, text, probe);
  }

  /** A successful run is the synthesis for the loaded configuration with
      the override applied. */
  lemma ProceedSucceeds(text: string, env: Env, output: Option<string>, probe: Probe) returns (cfg: Config)
    requires Proceed(text, env, output, probe).Success?
    ensures LoadConfig(env).Success? && cfg == ApplyOutputOverride(LoadConfig(env).value, output)
    ensures Proceed(text, env, output, probe).value == Synthesis(cfg, text, probe)
  {
    cfg := ApplyOutputOverride(LoadConfig(env).value, output);
  }

  /** The request carries the text: verbatim in the trial body, and escaped
      inside the SSML. */
  lemma SynthesisSendsText(cfg: Config, text: string, probe: Probe)
    ensures var q := Synthesis(cfg, text, probe);
      && (q.TrialPost? ==> q.body.text == text && q.body.baseModelName == "DragonLatestNeural")
      && (q.SdkSpeak? ==> Contains(q.ssml, Html.Escape(text)))
  {
    if !IsTrialVoice(probe) {
      Ssml.TextInSsml(cfg.language, cfg.speakerProfileId, cfg.style, text);
    }
  }

  /** A non-empty `-o` name becomes the stem of the output file on either
      path. */
  lemma OutputOverrideNamesFile(text: string, env: Env, name: string, probe: Probe)
    requires name != ""
    requires Proceed(text, env, Some(name), probe).Success?
    ensures StartsWith(Proceed(text, env, Some(name), probe).value.outputFile, name)
  {
    var cfg := ApplyOutputOverride(LoadConfig(env).value, Some(name));
    assert cfg.outputFilename == name;
    SynthesisNamesFile(cfg, text, probe);
  }

  /** Either request writes to a file named after the configured stem. */
  lemma SynthesisNamesFile(cfg: Config, text: string, probe: Probe)
    ensures StartsWith(Synthesis(cfg, text, probe).outputFile, cfg.outputFilename)
  {
  }

  /** The reply to the trial synthesis request. */
  datatype TrialResponse = TrialResponse(status: int, contentType: Option<string>, content: seq<byte>)

  /** A file written by the program: its name and its bytes. */
  datatype Saved = Saved(file: string, content: seq<byte>)

  /** On success the trial path writes the response body unchanged to the
      output file; otherwise it fails with the HTTP status. */
  function FinishTrial(outputFile: string, resp: TrialResponse): (r: Result<Saved, int>)
    ensures r.Success? <==> Trial.TrialSucceeded(resp.status, resp.contentType)
    ensures r.Success? ==> r.value == Saved(outputFile, resp.content)
    ensures r.Failure? ==> r.error == resp.status
  {
    if Trial.TrialSucceeded(resp.status, resp.contentType) then
      Success(Saved(outputFile, resp.content))
    else
      Failure(resp.status)
  }

  /** With the default format, an HTTP 200 carrying `audio/wav` is saved
      byte for byte to `<name>.wav`. */
  lemma TrialWavSavedVerbatim(cfg: Config, resp: TrialResponse)
    requires cfg.outputFormat == "wav"
    requires resp.status == 200 && resp.contentType == Some("audio/wav")
    ensures FinishTrial(TrialOutputFile(cfg), resp) == Success(Saved(cfg.outputFilename + ".wav", resp.content))
  {
    Trial.AudioContentTypeAccepted(resp.status, "audio/wav");
    assert TrialOutputFile(cfg) == cfg.outputFilename + "." + "wav" == cfg.outputFilename + ".wav";
  }

  /** A status other than 200 fails whatever the content type. */
  lemma TrialFailsWithoutOk(outputFile: string, resp: TrialResponse)
    requires resp.status != 200
    ensures FinishTrial(outputFile, resp) == Failure(resp.status)
  {
  }

  /** How the SDK's synthesis ended. */
  datatype SdkReason = Completed | Canceled | OtherReason

  /** The process exit status after the SDK call: only a cancellation exits
      with 1; a completed synthesis and any other reason fall through to a
      normal exit. */
  function SdkExitStatus(reason: SdkReason): (code: int)
    ensures code == 0 || code == 1
    ensures code == 1 <==> reason == Canceled
  {
    match reason
    case Completed => 0
    case Canceled => 1
    case OtherReason => 0
  }
}
