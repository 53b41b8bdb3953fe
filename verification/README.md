# Personal-voice synthesis script, modelled in Dafny

`synthesize.py` reads a Markdown file, reduces it to plain speech text, and
has it spoken by an Azure personal voice. It probes whether the configured
speaker profile is a *trial* voice. A trial voice goes through a REST call
whose JSON body names the voice model. Any other voice goes through the
Speech SDK with an SSML document that the script builds.

This project models the deterministic core of that script as pure Dafny
functions and proves properties about them:

- `Markdown`: the nine `re.sub` passes and the final `strip()` of
  `read_markdown`.
  - Each pass is a hand-written matcher with the pattern's greedy and lazy
    backtracking worked out.
  - A generic left-to-right scan, `Rewrite`, plays the part of `re.sub`.
- `Html`: `html.escape(s, quote=True)`, and a decoder for its five
  entities that serves as its inverse.
- `Ssml`: the `<speak>` document of `synthesize_sdk`, including the prosody
  preset table.
- `Trial`: the trial endpoints, the `scriptOrder` locale table, the JSON
  body, and the success test on the response.
- `Config`: `load_config` over an environment map, the `-o` override, and
  the two output-file naming rules.
- `Pipeline`:
  - the program's top level as one function from the input file, the
    environment, the `-o` argument and the probe's answer to the request it
    sends or the fatal error it stops with;
  - the preview of the text;
  - saving the trial response;
  - the SDK exit status.
- `Text`: Python's `isspace`, `strip`, `startswith`, substring `in` and
  `lower`, as the other modules use them.
- `Wrappers`: `Option` and `Result`.
- `MarkdownExamples`: two documents reduced pass by pass.

`sys.exit(1)` is modelled as a `Failure` value that carries the reason.

Two consequences of the pass order and the branch structure are easy to
miss when reading the script:

- A file holding only a fenced code block does not reduce to empty text.
  The inline-code pass (line 72) runs before the fence pass (line 74). It
  pairs the third opening backtick with the first closing one, so the fence
  pass no longer finds three backticks in a row.
  `MarkdownExamples.FenceOnlyDocument` shows that the document
  "```` ```\ncode\n``` ````" reduces to "```` ``\ncode\n`` ````". That text
  is not empty, so synthesis goes ahead.
- After the SDK call the script tests only for completion and for
  cancellation (lines 236-244), with no `else`. A result with any other
  reason therefore ends the run with status 0, and only cancellation exits
  with status 1. `Pipeline.SdkExitStatus` states this.

## Model

| member | source | states |
|---|---|---|
| Text.Strip | synthesize.py:80 | The stripped text has no whitespace at either end and is no longer than the input |
| Text.StripIsInfix | synthesize.py:80 | What `strip()` keeps is one contiguous piece of the input, starting at `StripOffset` |
| Text.StripCutsOnlySpace | synthesize.py:80 | Every character cut away before or after the kept piece is whitespace |
| Text.StripFixpointIff | synthesize.py:80 | `strip()` leaves a string alone if and only if it has no whitespace at either end |
| Text.StripIdempotent | synthesize.py:80 | Stripping the result of `read_markdown` again changes nothing |
| Text.Lower | synthesize.py:44 | Lower-casing keeps the length, turns every ASCII capital into its own lower-case letter, keeps every other character, and leaves no upper-case ASCII letter |
| Text.LowerIdempotent | synthesize.py:44 | Lower-casing twice equals lower-casing once, and text without upper-case letters is left unchanged |
| Markdown.MatchAt | synthesize.py:63-78 | A match of any of the nine patterns ends after its start, within the text, and begins with a character that pattern can start with; the `^`-anchored passes match only at a line start |
| Markdown.Rewrite | synthesize.py:63-78 | The left-to-right replacement scan from any position yields no more characters than remain after that position: no pass lengthens the text |
| Markdown.Sub | synthesize.py:63-78 | One pass over the whole text yields a text no longer than its input |
| Markdown.Reduce | synthesize.py:62-78 | After all nine passes no three consecutive newlines remain, and the text is no longer than the input |
| Markdown.ReadMarkdown | synthesize.py:62-80 | The text after the nine passes and the strip has no whitespace at either end, no three newlines in a row, and is no longer than the input |
| Markdown.CollapseStep | synthesize.py:78 | Where a run of three or more newlines starts, the collapse scan emits exactly two newlines and resumes after the whole run |
| Markdown.CollapseRun | synthesize.py:78 | A run of three or more newlines between newline-free text becomes exactly two newlines, and the text around it is kept |
| Markdown.CollapseHasNoTripleNewline | synthesize.py:78 | Replacing runs of three or more newlines by two leaves no run of three, whatever the input |
| Markdown.CollapseFrom | synthesize.py:78 | The collapse scan from any position yields no triple newline and starts with newlines only where the input does |
| Markdown.StripKeepsNoTripleNewline | synthesize.py:80 | The final strip cannot create three newlines in a row |
| Markdown.CollapseUnchanged | synthesize.py:78 | Text without three newlines in a row passes the collapse unchanged |
| Markdown.NoLeadUnchanged | synthesize.py:62-78 | A pass leaves text alone when it contains no character that pass's pattern can start with; in particular, text without `[` survives the link pass |
| Markdown.NoMatchUnchanged | synthesize.py:62-78 | A pass leaves text alone when its pattern matches at no position |
| Markdown.LinkMatch | synthesize.py:65 | `[t](u)`, with `t` non-empty and free of `]` and `u` non-empty and free of `)`, is one link match, replaced by `t` |
| Markdown.LinkReplaced | synthesize.py:65 | The link pass turns `pre[t](u)post` into `pre t post` when `pre` and `post` contain no `[` |
| Markdown.HeadingMarkerRemoved | synthesize.py:67 | One to six `#` followed by whitespace at the start of the text are removed together with all of that whitespace, and the rest is kept when none of its lines starts with `#` |
| Markdown.SevenHashesKept | synthesize.py:67 | Seven or more `#` at a line start are never a heading marker |
| Markdown.EmphasisMatch | synthesize.py:69-70 | One to three markers, a non-empty single-line text without the marker, and the same markers again form one emphasis match, replaced by the text |
| Markdown.EmphasisRemoved | synthesize.py:69-70 | The emphasis pass removes the markers around such a text and keeps the surrounding text when it holds no marker |
| Markdown.InlineCodeMatch | synthesize.py:72 | A backtick, a non-empty text without backticks and a backtick form one inline-code match, replaced by the text |
| Markdown.InlineCodeReplaced | synthesize.py:72 | The inline-code pass turns ``pre`t`post`` into `pre t post` when `pre` and `post` contain no backtick |
| Markdown.ImageMatch | synthesize.py:63 | `![alt](url)`, with single-line `alt` free of `]` and single-line `url` free of `)`, is one image match, replaced by nothing |
| Markdown.ImageRemoved | synthesize.py:63 | The image pass deletes such an image reference, URL included, and keeps text around it that has no `!` |
| MarkdownExamples.WorkedExample | synthesize.py:62-80 | `"# Hello\n\nThis is **bold** and a [link](http://x).\n"` reduces to `"Hello\n\nThis is bold and a link."` |
| MarkdownExamples.FenceOnlyDocument | synthesize.py:72-74 | A document holding only a fenced block reduces to the block with one backtick fewer at each end, not to empty text |
| Html.Escape | synthesize.py:195 | The escaped text is at least as long as the input and contains none of `<`, `>`, `"`, `'` |
| Html.EscapedAmpersandsAreEntities | synthesize.py:195 | Every `&` in escaped text starts one of the five entities `&amp;`, `&lt;`, `&gt;`, `&quot;`, `&#x27;` |
| Html.UnescapeEscape | synthesize.py:195 | Decoding the five entities recovers the original from its escaped form |
| Html.EscapeInjective | synthesize.py:195 | Different strings never escape to the same string |
| Ssml.BuildSsml | synthesize.py:212-223 | The document starts with the `speak` start tag with its namespaces and the `DragonLatestNeural` voice tag, and ends by closing `express-as`, `voice` and `speak` |
| Ssml.PresetFor | synthesize.py:198-204 | A style has a prosody preset exactly when it is Cheerful, Excited, Friendly or Enthusiastic |
| Ssml.ProsodyExactlyForPresets | synthesize.py:198-223 | With a language value free of `<`, the document contains a `<prosody` tag if and only if the style is one of the four presets |
| Ssml.OtherStyleHasNoProsody | synthesize.py:209-223 | For any other style, and a language free of `<`, no `<prosody` occurs anywhere in the document |
| Ssml.PresetProsodyPlacement | synthesize.py:204-208 | A preset style puts the preset's `prosody` start tag straight after the `express-as` start tag and straight before the `lang` start tag |
| Ssml.OtherStyleLangDirect | synthesize.py:209-219 | For any other style the `lang` start tag follows the `express-as` start tag directly |
| Ssml.CheerfulProsody | synthesize.py:199-208 | The Cheerful style yields `<prosody rate='+8%' pitch='+5%'>` |
| Ssml.TextInSsml | synthesize.py:195-210 | Whatever the style, the escaped text appears in the document inside its `lang` element |
| Ssml.AttributesEscaped | synthesize.py:217-218 | The speaker-profile id and the style appear in their attributes escaped, and the escaped values hold no quote or angle bracket |
| Trial.ScriptOrder | synthesize.py:111-118 | The script order is between 11 and 14, and anything other than 11 comes from a listed locale |
| Trial.ScriptOrderValues | synthesize.py:111-118 | en-US gives 11, es-ES 13, fr-FR 12, ja-JP 14, pt-BR 13, and every unlisted locale 11 |
| Trial.BuildTrialBody | synthesize.py:98-126 | The body names the zero-shot model URL of the region and speaker (on the region's host), echoes the locale and the text, names `DragonLatestNeural` as base model, and carries the locale's script order from the table, in 11..14 |
| Trial.ModelUrlInjective | synthesize.py:98-101 | Different speaker ids in one region name different model URLs |
| Trial.TrialSucceededIff | synthesize.py:138 | The trial call succeeded if and only if the status is 200 and a `Content-Type` header is present and contains `audio` |
| Trial.AudioContentTypeAccepted | synthesize.py:138 | Status 200 with any content type beginning with `audio` counts as success |
| Config.Require | synthesize.py:35-40 | A required variable is accepted if and only if it is present, non-empty and does not start with `your_`, and then its value is kept verbatim |
| Config.LoadConfig | synthesize.py:29-47 | Loading succeeds if and only if all three required variables are usable; a failure names a required variable that is unusable; the loaded format has no upper-case letter |
| Config.LoadConfigReportsFirstUnusable | synthesize.py:33-39 | The error names the first unusable variable in the order SPEECH_KEY, SPEECH_REGION, SPEAKER_PROFILE_ID |
| Config.LoadConfigValues | synthesize.py:40-45 | Required values are kept verbatim; absent optional ones default to `en-US`, `Cheerful`, `wav` and `output`; the format is lower-cased |
| Config.PlaceholderRejected | synthesize.py:37 | A required variable still holding a `your_` placeholder makes loading fail |
| Config.ApplyOutputOverride | synthesize.py:296-298 | A non-empty `-o` value replaces the output name, an absent or empty one does not, and no other setting changes |
| Config.AnyCaseMp3IsMp3 | synthesize.py:175-179 | Since line 44 lower-cases it, `OUTPUT_FORMAT` set to `mp3` in any mix of cases selects MP3 output and a `.mp3` file |
| Config.SdkFormat | synthesize.py:175-183 | The SDK writes MP3 if and only if the format is exactly `mp3`; every other value gives PCM WAV |
| Config.TrialOutputFile | synthesize.py:92 | The trial file is the output name followed by `.` and the configured format verbatim, and nothing else |
| Config.SdkOutputFile | synthesize.py:175-184 | The SDK file is the output name followed by a four-character extension: `.mp3` exactly when MP3 is written, and otherwise `.wav` |
| Config.OutputFilesAgreeIff | synthesize.py:175-184 | The trial path (line 92) and the SDK path name the same file if and only if the format is `mp3` or `wav` |
| Pipeline.IsTrialVoice | synthesize.py:258-262 | Only an HTTP 200 answer marks a trial voice; any other status, or no answer, does not |
| Pipeline.ProbeUrlIsModelUrl | synthesize.py:253-256 | The voice-type probe fetches exactly the model URL that the trial body names |
| Pipeline.Preview | synthesize.py:290 | A text of at most 500 characters is shown whole; a longer one is cut to its first 500 characters plus `...` |
| Pipeline.PreviewLosesNothingShort | synthesize.py:290 | A preview shorter than 503 characters is the whole text |
| Pipeline.Run | synthesize.py:281-307 | A missing input file is fatal; a run proceeds only with non-empty reduced text and a loaded configuration; it takes the trial path exactly for a trial voice |
| Pipeline.Proceed | synthesize.py:285-307 | After extraction, the run goes ahead exactly when the text is non-empty and the configuration loads; empty text stops it first |
| Pipeline.Synthesis | synthesize.py:300-307 | The trial request is chosen exactly when the probe found a trial voice. It goes to the region's synthesis URL, names the probed model, the configured locale and that locale's script order, and writes `<name>.<format>`. The SDK request opens with the configured language and the base voice, carries the escaped profile id and style, and uses the format and file `SdkFormat` and `SdkOutputFile` give |
| Pipeline.DefaultStyleIsCheerful | synthesize.py:198-208 | Without `SPEECH_STYLE` the style defaults to Cheerful (line 43), so a run through the SDK speaks with the Cheerful preset `<prosody rate='+8%' pitch='+5%'>` |
| Pipeline.EmptyTextStopsBeforeConfig | synthesize.py:283-294 | Markdown that reduces to nothing stops the run, whatever the configuration |
| Pipeline.ConfigErrorNamesKey | synthesize.py:33-39 | With non-empty text, a configuration failure stops the run and names an unusable required variable |
| Pipeline.NonTrialVoiceUsesSdk | synthesize.py:258-262 | A probe answered with 404, or one that got no answer, sends the text through the SDK |
| Pipeline.RunSendsReducedText | synthesize.py:283-307 | The text sent has no edge whitespace and no triple newline; it is verbatim in the trial body and escaped in the SSML |
| Pipeline.OutputOverrideNamesFile | synthesize.py:296-298 | With a non-empty `-o` name, the file written on either path starts with that name |
| Pipeline.FinishTrial | synthesize.py:138-154 | The response body is saved unchanged to the output file exactly when the call succeeded; otherwise the run fails with the HTTP status |
| Pipeline.TrialWavSavedVerbatim | synthesize.py:138-140 | With the default format, a 200 reply of type `audio/wav` is saved byte for byte to `<name>.wav` |
| Pipeline.TrialFailsWithoutOk | synthesize.py:143-154 | A status other than 200 fails whatever the content type |
| Pipeline.SdkExitStatus | synthesize.py:236-244 | Only a cancelled synthesis exits with status 1; a completed one, and any other reason, end normally |

## Left out

- HTTP and SDK calls: `requests.post`, `requests.get` and the Speech SDK synthesizer are foreign calls. The probe's answer, the trial reply and the SDK's result reason are parameters of the model.
- Sending the subscription key in request headers (lines 103-106 and 257), and the SDK `SpeechConfig` setup: these are not part of any computed value.
- File I/O and the environment: the input file's existence, `.env` loading, and argparse. They become an `Option<string>` document, an environment map and an `Option<string>` `-o` value.
- Reading the file in text mode (lines 59-60): the document is the text as Python returns it, after `\r\n` and `\r` have become `\n`. The decoding and its error on invalid UTF-8 are not modelled.
- The script's own directory as the default input path (line 271): a file-system fact.
- Console output, and the KB size printed after saving (line 141), which is float division for display only.
- The error-message extraction from a failed trial reply (lines 145-153): it parses JSON only to print it.
- The SDK import failure (lines 162-166): it depends on the installed environment.
- The cancellation details printed at lines 240-243: printing only; the exit status is modelled by `Pipeline.SdkExitStatus`.
- HTTP header lookup is case-insensitive in `requests`. The model takes the `Content-Type` value as already looked up.
- Text.Lower: lower-cases ASCII letters only, whereas Python's `str.lower()` also maps non-ASCII upper-case letters. The format values the program compares against (`mp3`, `wav`) are ASCII.
- Markdown.EmphasisRemoved, Markdown.EmphasisMatch: stated only for runs of equal length (one to three markers on each side) around single-line text. The passes themselves are modelled for every input, including unbalanced runs.
- Markdown.HeadingMarkerRemoved: stated for a heading at the start of the text, with no later line starting with `#` (a later heading would be removed too). The pass itself is modelled at every line start.
- Ssml.ProsodyExactlyForPresets, Ssml.OtherStyleHasNoProsody: assume a language value without `<`. The language is inserted unescaped (lines 207 and 213), so a value holding `<prosody` would put such a tag into the document whatever the style.
- Markdown.CollapseRun: stated for one run between newline-free text; `Markdown.CollapseHasNoTripleNewline` covers any input.
- Rule (line 76) and Fence (line 74) passes: modelled exactly, but no general theorem is stated about them beyond the examples and the shared pass lemmas.
