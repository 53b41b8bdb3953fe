/** Configuration read from the environment (filled from a `.env` file),
    the command-line override of the output name, and the output file names
    and audio formats each synthesis path derives from it. */
module Config {
  import opened Wrappers
  import opened Text

  /** The environment as seen by `os.getenv`: a variable is either absent or
      has a string value, possibly empty. */
  type Env = map<string, string>

  datatype Config = Config(
    speechKey: string,
    speechRegion: string,
    speakerProfileId: string,
    language: string,
    style: string,
    outputFormat: string,
    outputFilename: string)

  /** The only way loading fails: a required variable is unusable. */
  datatype ConfigError = NotSet(key: string)

  const RequiredKeys: seq<string> := ["SPEECH_KEY", "SPEECH_REGION", "SPEAKER_PROFILE_ID"]

  const PlaceholderPrefix := "your_"

  /** A required variable is usable when it is present, non-empty and not
      still the template's placeholder. */
  predicate Usable(env: Env, key: string) {
    key in env && env[key] != "" && !StartsWith(env[key], PlaceholderPrefix)
  }

  function Require(env: Env, key: string): (r: Result<string, ConfigError>)
    ensures r.Success? <==> Usable(env, key)
    ensures r.Success? ==> r.value == env[key]
    ensures r.Failure? ==> r.error == NotSet(key)
  {
    if key in env && env[key] != "" && !StartsWith(env[key], PlaceholderPrefix) then
      Success(env[key])
    else
      Failure(NotSet(key))
  }

  /** `os.getenv(key, default)`: the default applies only when the variable
      is absent, so a variable set to the empty string stays empty. */
  function GetEnv(env: Env, key: string, default: string): string {
    if key in env then env[key] else default
  }

  function LoadConfig(env: Env): (r: Result<Config, ConfigError>)
    ensures r.Success? <==> Usable(env, "SPEECH_KEY") && Usable(env, "SPEECH_REGION")
                            && Usable(env, "SPEAKER_PROFILE_ID")
    ensures r.Failure? ==> r.error.key in RequiredKeys && !Usable(env, r.error.key)
    ensures r.Success? ==> NoUpperAscii(r.value.outputFormat)
  {
    var key :- Require(env, "SPEECH_KEY");
    var region :- Require(env, "SPEECH_REGION");
    var speakerId :- Require(env, "SPEAKER_PROFILE_ID");
    var format := GetEnv(env, "OUTPUT_FORMAT", "wav");
    Success(Config(
      key, region, speakerId,
      GetEnv(env, "SPEECH_LANGUAGE", "en-US"),
      GetEnv(env, "SPEECH_STYLE", "Cheerful"),
      Lower(format),
      GetEnv(env, "OUTPUT_FILENAME", "output")))
  }

  /** The variables are checked in order and the error names the first one
      that is unusable. */
  lemma LoadConfigReportsFirstUnusable(env: Env)
    requires LoadConfig(env).Failure?
    ensures var k := LoadConfig(env).error.key;
      exists i :: 0 <= i < |RequiredKeys| && RequiredKeys[i] == k
        && !Usable(env, k)
        && forall j :: 0 <= j < i ==> Usable(env, RequiredKeys[j])
  {
    var k := LoadConfig(env).error.key;
    if !Usable(env, "SPEECH_KEY") {
      assert RequiredKeys[0] == k;
    } else if !Usable(env, "SPEECH_REGION") {
      assert RequiredKeys[1] == k;
    } else {
      assert RequiredKeys[2] == k;
    }
  }

  /** The required values are kept verbatim; the optional ones fall back to
      `en-US`, `Cheerful`, `wav` and `output` when absent, and the format is
      lower-cased. */
  lemma LoadConfigValues(env: Env)
    requires LoadConfig(env).Success?
    ensures var c := LoadConfig(env).value;
      && c.speechKey == env["SPEECH_KEY"]
      && c.speechRegion == env["SPEECH_REGION"]
      && c.speakerProfileId == env["SPEAKER_PROFILE_ID"]
      && c.language == (if "SPEECH_LANGUAGE" in env then env["SPEECH_LANGUAGE"] else "en-US")
      && c.style == (if "SPEECH_STYLE" in env then env["SPEECH_STYLE"] else "Cheerful")
      && c.outputFormat == (if "OUTPUT_FORMAT" in env then Lower(env["OUTPUT_FORMAT"]) else "wav")
      && c.outputFilename == (if "OUTPUT_FILENAME" in env then env["OUTPUT_FILENAME"] else "output")
  {
    assert Lower("wav") == "wav";
  }

  /** A placeholder value is rejected like a missing one. */
  lemma PlaceholderRejected(env: Env, i: nat)
    requires i < |RequiredKeys| && RequiredKeys[i] in env
    requires StartsWith(env[RequiredKeys[i]], PlaceholderPrefix)
    ensures LoadConfig(env).Failure?
  {
  }

  /** `-o NAME` replaces the output file name when NAME is non-empty and
      leaves every other setting alone. */
  function ApplyOutputOverride(cfg: Config, output: Option<string>): (r: Config)
    ensures r.outputFilename == (if output.Some? && output.value != "" then output.value else cfg.outputFilename)
    ensures r.(outputFilename := cfg.outputFilename) == cfg
  {
    match output
    case Some(name) => if name != "" then cfg.(outputFilename := name) else cfg
    case None => cfg
  }

  /** The audio formats the SDK path can be asked for. */
  datatype SdkAudioFormat = Audio24Khz160KBitRateMonoMp3 | Riff24Khz16BitMonoPcm

  /** The SDK path writes MP3 only for exactly `mp3`; every other format
      value, including ones it does not know, gives 16-bit PCM WAV. */
  function SdkFormat(cfg: Config): (f: SdkAudioFormat)
    ensures f == Audio24Khz160KBitRateMonoMp3 <==> cfg.outputFormat == "mp3"
  {
    if cfg.outputFormat == "mp3" then Audio24Khz160KBitRateMonoMp3 else Riff24Khz16BitMonoPcm
  }

  /** `OUTPUT_FORMAT` is compared after lower-casing, so `MP3`, `Mp3` and
      every other spelling of `mp3` select MP3 output. */
  lemma AnyCaseMp3IsMp3(env: Env)
    requires LoadConfig(env).Success? && "OUTPUT_FORMAT" in env
    requires var v := env["OUTPUT_FORMAT"];
      |v| == 3 && v[0] in "mM" && v[1] in "pP" && v[2] == '3'
    ensures SdkFormat(LoadConfig(env).value) == Audio24Khz160KBitRateMonoMp3
    ensures EndsWith(SdkOutputFile(LoadConfig(env).value), ".mp3")
  {
    LoadConfigValues(env);
    var v := env["OUTPUT_FORMAT"];
    var f := Lower(v);
    assert f[0] == 'm' && f[1] == 'p' && f[2] == '3';
    assert f == "mp3";
  }

  /** The trial path names its file after the configured format verbatim. */
  function TrialOutputFile(cfg: Config): (f: string)
    ensures StartsWith(f, cfg.outputFilename)
    ensures EndsWith(f, "." + cfg.outputFormat)
    ensures |f| == |cfg.outputFilename| + 1 + |cfg.outputFormat|
  {
    var f := cfg.outputFilename + "." + cfg.outputFormat;
    assert f == cfg.outputFilename + ("." + cfg.outputFormat);
    f
  }

  /** The SDK path names its file after the format it actually writes. */
  function SdkOutputFile(cfg: Config): (f: string)
    ensures StartsWith(f, cfg.outputFilename)
    ensures EndsWith(f, ".mp3") <==> SdkFormat(cfg) == Audio24Khz160KBitRateMonoMp3
    ensures !EndsWith(f, ".mp3") ==> EndsWith(f, ".wav")
    ensures |f| == |cfg.outputFilename| + 4
  {
    var ext := if cfg.outputFormat == "mp3" then "mp3" else "wav";
    var f := cfg.outputFilename + "." + ext;
    assert f == cfg.outputFilename + ("." + ext);
    assert f[|f| - 4..] == "." + ext;
    assert f[|f| - 3] == ext[0];
    f
  }

  /** The two paths agree on the file name exactly when the format is one
      the SDK path knows, `mp3` or `wav`. */
  lemma OutputFilesAgreeIff(cfg: Config)
    ensures TrialOutputFile(cfg) == SdkOutputFile(cfg)
        <==> cfg.outputFormat == "mp3" || cfg.outputFormat == "wav"
  {
    var ext := if cfg.outputFormat == "mp3" then "mp3" else "wav";
    if TrialOutputFile(cfg) == SdkOutputFile(cfg) {
      var n := |cfg.outputFilename| + 1;
      assert TrialOutputFile(cfg)[n..] == cfg.outputFormat;
      assert SdkOutputFile(cfg)[n..] == ext;
    }
  }
}
