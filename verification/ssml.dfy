/** The speech-synthesis markup document of `synthesize_sdk`: a W3C SSML 1.0
    `speak` element with the `mstts` extensions, naming the fixed base voice,
    embedding the speaker profile, and wrapping the text in an
    `express-as` style, optionally inside a `prosody` preset. */
module Ssml {
  import opened Wrappers
  import opened Text
  import opened Html

  /** Rate and pitch adjustments of a prosody preset. */
  datatype Prosody = Prosody(rate: string, pitch: string)

  /** The styles that get a prosody wrapper, with their adjustments. */
  const ProsodyPresets: map<string, Prosody> := map[
    "Cheerful" := Prosody("+8%", "+5%"),
    "Excited" := Prosody("+12%", "+8%"),
    "Friendly" := Prosody("+5%", "+3%"),
    "Enthusiastic" := Prosody("+10%", "+6%")
  ]

  /** `PROSODY_PRESETS.get(style)` */
  function PresetFor(style: string): (r: Option<Prosody>)
    ensures r.Some? <==> style in {"Cheerful", "Excited", "Friendly", "Enthusiastic"}
  {
    if style in ProsodyPresets then Some(ProsodyPresets[style]) else None
  }

  /** The `lang` start tag; the language is inserted as given, unescaped. */
  function LangOpen(lang: string): string {
    "<lang xml:lang='" + lang + "'>"
  }

  /** The `lang` element around the escaped text. */
  function LangElement(lang: string, text: string): string {
    LangOpen(lang) + Escape(text) + "</lang>"
  }

  /** The `prosody` start tag of a preset. */
  function ProsodyOpen(p: Prosody): string {
    "<prosody rate='" + p.rate + "' pitch='" + p.pitch + "'>"
  }

  /** The content of `express-as`: the `lang` element, inside `prosody` when
      the style has a preset. */
  function Inner(lang: string, style: string, text: string): string {
    match PresetFor(style)
    case Some(p) => ProsodyOpen(p) + LangElement(lang, text) + "</prosody>"
    case None => LangElement(lang, text)
  }

  /** The `speak` start tag with the SSML and `mstts` namespaces; the
      language is inserted unescaped. */
  function SpeakOpen(lang: string): string {
    "<speak version='1.0' " + "xml:lang='" + lang + "' " + Namespaces
  }

  const Namespaces: string :=
    "xmlns='http://www.w3.org" + "/2001/10/synthesis' "
    + "xmlns:mstts='http://" + "www.w3.org/2001/mstts'>"

  const VoiceOpen: string := "<voice name='" + "DragonLatestNeural'>"

  /** The speaker-profile embedding, with the profile id escaped. */
  function Embedding(spid: string): string {
    "<mstts:ttsembedding " + "speakerProfileId='" + Escape(spid) + "'/>"
  }

  /** The `express-as` start tag, with the style escaped. */
  function ExpressOpen(style: string): string {
    "<mstts:express-as " + "style='" + Escape(style) + "'>"
  }

  /** Everything after the content of `express-as`. */
  const Tail: string := "</mstts:express-as>" + "</voice>" + "</speak>"

  /** The document `synthesize_sdk` submits: one `speak` element that
      opens with the namespaces and the fixed base voice, and closes
      `express-as`, `voice` and `speak` in that order. */
  function BuildSsml(lang: string, spid: string, style: string, text: string): (r: string)
    ensures StartsWith(r, SpeakOpen(lang) + VoiceOpen)
    ensures EndsWith(r, Tail)
  {
    Framed(SpeakOpen(lang), VoiceOpen, Embedding(spid), ExpressOpen(style), Inner(lang, style, text), Tail);
    SpeakOpen(lang) + VoiceOpen + Embedding(spid) + ExpressOpen(style) + Inner(lang, style, text) + Tail
  }

  /** A concatenation of six pieces starts with the first two and ends with
      the last. */
  lemma Framed(p1: string, p2: string, p3: string, p4: string, p5: string, p6: string)
    ensures StartsWith(p1 + p2 + p3 + p4 + p5 + p6, p1 + p2)
    ensures EndsWith(p1 + p2 + p3 + p4 + p5 + p6, p6)
  {
    var r := p1 + p2 + p3 + p4 + p5 + p6;
    assert r == (p1 + p2) + (p3 + p4 + p5 + p6);
    assert r[..|p1 + p2|] == p1 + p2;
    assert r[|r| - |p6|..] == p6;
  }

  // ---------------------------------------------------------------- properties

  /** Every `<` in `s` is followed by a character other than `p`, so no
      `<prosody` tag occurs in it. */
  predicate NoTagStartingWithP(s: string) {
    forall k :: 0 <= k < |s| && s[k] == '<' ==> k + 1 < |s| && s[k + 1] != 'p'
  }

  lemma NoTagStartingWithPConcat(a: string, b: string)
    requires NoTagStartingWithP(a) && NoTagStartingWithP(b)
    ensures NoTagStartingWithP(a + b)
  {
    var s := a + b;
    forall k | 0 <= k < |s| && s[k] == '<' ensures k + 1 < |s| && s[k + 1] != 'p' {
      if k < |a| {
        assert s[k] == a[k] && s[k + 1] == a[k + 1];
      } else {
        assert s[k] == b[k - |a|] && s[k + 1] == b[k - |a| + 1];
      }
    }
  }

  lemma NoLtNoTag(s: string)
    requires '<' !in s
    ensures NoTagStartingWithP(s)
  {
    forall k | 0 <= k < |s| ensures s[k] != '<' {
      assert s[k] in s;
    }
  }

  lemma EscapedNoTag(s: string)
    ensures NoTagStartingWithP(Escape(s))
  {
    var e := Escape(s);
    forall k | 0 <= k < |e| ensures e[k] != '<' {
      assert !IsMarkupChar(e[k]);
    }
  }

  /** Joins three pieces free of `<p`. */
  lemma NoTag3(a: string, b: string, c: string)
    requires NoTagStartingWithP(a) && NoTagStartingWithP(b) && NoTagStartingWithP(c)
    ensures NoTagStartingWithP(a + b + c)
  {
    NoTagStartingWithPConcat(a, b);
    NoTagStartingWithPConcat(a + b, c);
  }

  lemma SpeakOpenNoTag(lang: string)
    requires '<' !in lang
    ensures NoTagStartingWithP(SpeakOpen(lang))
  {
    var a, b := "<speak version='1.0' ", "xml:lang='";
    SpeakStartNoTag(a);
    PlainNoTag(b);
    NoLtNoTag(lang);
    NoTag3(a, b, lang);
    PlainNoTag("' ");
    NamespacesNoTag();
    NoTag3(a + b + lang, "' ", Namespaces);
  }

  lemma NamespacesNoTag()
    ensures NoTagStartingWithP(Namespaces)
  {
    var a, b := "xmlns='http://www.w3.org", "/2001/10/synthesis' ";
    var c, d := "xmlns:mstts='http://", "www.w3.org/2001/mstts'>";
    LongPlainNoTag(a);
    LongPlainNoTag(b);
    LongPlainNoTag(c);
    LongPlainNoTag(d);
    NoTag3(a, b, c);
    NoTagStartingWithPConcat(a + b + c, d);
  }

  /** The literal pieces of the document with no `<` in them. */
  lemma PlainNoTag(a: string)
    requires a in {"xml:lang='", "' ", "speakerProfileId='", "'/>", "style='", "'>"}
    ensures NoTagStartingWithP(a)
  {
    NoLtNoTag(a);
  }

  /** The namespace declarations and the voice name, which hold no `<`. */
  lemma LongPlainNoTag(a: string)
    requires a in {"xmlns='http://www.w3.org", "/2001/10/synthesis' ",
                   "xmlns:mstts='http://", "www.w3.org/2001/mstts'>", "DragonLatestNeural'>"}
    ensures NoTagStartingWithP(a)
  {
    NoLtNoTag(a);
  }

  /** The literal pieces that open a tag other than `prosody`. */
  lemma OpeningNoTag(a: string)
    requires a in {"<voice name='", "<mstts:ttsembedding "}
    ensures NoTagStartingWithP(a)
  {
  }

  lemma SpeakStartNoTag(a: string)
    requires a == "<speak version='1.0' "
    ensures NoTagStartingWithP(a)
  {
  }

  lemma InnerOpeningNoTag(a: string)
    requires a in {"<mstts:express-as ", "<lang xml:lang='", "</lang>"}
    ensures NoTagStartingWithP(a)
  {
  }

  lemma ClosingNoTag(a: string)
    requires a in {"</mstts:express-as>", "</voice>", "</speak>"}
    ensures NoTagStartingWithP(a)
  {
  }

  lemma VoiceOpenNoTag()
    ensures NoTagStartingWithP(VoiceOpen)
  {
    OpeningNoTag("<voice name='");
    LongPlainNoTag("DragonLatestNeural'>");
    NoTagStartingWithPConcat("<voice name='", "DragonLatestNeural'>");
  }

  lemma EmbeddingNoTag(spid: string)
    ensures NoTagStartingWithP(Embedding(spid))
  {
    var a, b := "<mstts:ttsembedding ", "speakerProfileId='";
    OpeningNoTag(a);
    PlainNoTag(b);
    EscapedNoTag(spid);
    PlainNoTag("'/>");
    NoTag3(a, b, Escape(spid));
    NoTagStartingWithPConcat(a + b + Escape(spid), "'/>");
  }

  lemma ExpressOpenNoTag(style: string)
    ensures NoTagStartingWithP(ExpressOpen(style))
  {
    var a, b := "<mstts:express-as ", "style='";
    InnerOpeningNoTag(a);
    PlainNoTag(b);
    EscapedNoTag(style);
    PlainNoTag("'>");
    NoTag3(a, b, Escape(style));
    NoTagStartingWithPConcat(a + b + Escape(style), "'>");
  }

  lemma LangElementNoTag(lang: string, text: string)
    requires '<' !in lang
    ensures NoTagStartingWithP(LangElement(lang, text))
  {
    InnerOpeningNoTag("<lang xml:lang='");
    PlainNoTag("'>");
    InnerOpeningNoTag("</lang>");
    NoLtNoTag(lang);
    NoTag3("<lang xml:lang='", lang, "'>");
    EscapedNoTag(text);
    NoTag3(LangOpen(lang), Escape(text), "</lang>");
  }

  lemma TailNoTag()
    ensures NoTagStartingWithP(Tail)
  {
    ClosingNoTag("</mstts:express-as>");
    ClosingNoTag("</voice>");
    ClosingNoTag("</speak>");
    NoTag3("</mstts:express-as>", "</voice>", "</speak>");
  }

  /** `b` occurs in `a + b + c`. */
  lemma ContainsMiddle(a: string, b: string, c: string)
    ensures Contains(a + b + c, b)
  {
    var s := a + b + c;
    assert s[|a|..|a| + |b|] == b;
    assert OccursAt(s, b, |a|);
  }

  /** With a language value free of `<`, the document contains a `<prosody`
      tag exactly when the style is one of the four presets. (The language
      is inserted unescaped, so a value holding `<prosody` would put one
      there whatever the style.) */
  lemma ProsodyExactlyForPresets(lang: string, spid: string, style: string, text: string)
    requires '<' !in lang
    ensures Contains(BuildSsml(lang, spid, style, text), "<prosody")
            <==> style in {"Cheerful", "Excited", "Friendly", "Enthusiastic"}
  {
    if style in ProsodyPresets {
      PresetHasProsody(lang, spid, style, text);
    } else {
      OtherStyleHasNoProsody(lang, spid, style, text);
    }
  }

  lemma PresetHasProsody(lang: string, spid: string, style: string, text: string)
    requires style in ProsodyPresets
    ensures Contains(BuildSsml(lang, spid, style, text), "<prosody")
  {
    var p := ProsodyPresets[style];
    var head := SpeakOpen(lang) + VoiceOpen + Embedding(spid) + ExpressOpen(style);
    var le := LangElement(lang, text);
    var po := ProsodyOpen(p);
    assert BuildSsml(lang, spid, style, text) == head + (po + le + "</prosody>") + Tail;
    ProsodyOpenSplit(p);
    var rest := po[8..];
    ProsodyRegroup(head, "<prosody", rest, le, "</prosody>", Tail);
    ContainsMiddle(head, "<prosody", rest + le + "</prosody>" + Tail);
  }

  lemma ProsodyRegroup(head: string, pp: string, rest: string, le: string, close: string, tail: string)
    ensures head + (pp + rest + le + close) + tail == head + pp + (rest + le + close + tail)
  {
  }

  lemma OtherStyleHasNoProsody(lang: string, spid: string, style: string, text: string)
    requires '<' !in lang
    requires style !in ProsodyPresets
    ensures !Contains(BuildSsml(lang, spid, style, text), "<prosody")
  {
    OtherStyleNoTag(lang, spid, style, text);
    NoTagNoProsody(BuildSsml(lang, spid, style, text));
  }

  lemma HeadNoTag(lang: string, spid: string, style: string)
    requires '<' !in lang
    ensures NoTagStartingWithP(SpeakOpen(lang) + VoiceOpen + Embedding(spid) + ExpressOpen(style))
  {
    VoiceOpenNoTag();
    SpeakOpenNoTag(lang);
    EmbeddingNoTag(spid);
    ExpressOpenNoTag(style);
    NoTag3(SpeakOpen(lang), VoiceOpen, Embedding(spid));
    NoTagStartingWithPConcat(SpeakOpen(lang) + VoiceOpen + Embedding(spid), ExpressOpen(style));
  }

  lemma OtherStyleNoTag(lang: string, spid: string, style: string, text: string)
    requires '<' !in lang
    requires style !in ProsodyPresets
    ensures NoTagStartingWithP(BuildSsml(lang, spid, style, text))
  {
    var head := SpeakOpen(lang) + VoiceOpen + Embedding(spid) + ExpressOpen(style);
    var inner := LangElement(lang, text);
    assert BuildSsml(lang, spid, style, text) == head + inner + Tail;
    HeadNoTag(lang, spid, style);
    LangElementNoTag(lang, text);
    TailNoTag();
    NoTag3(head, inner, Tail);
  }

  lemma NoTagNoProsody(s: string)
    requires NoTagStartingWithP(s)
    ensures !Contains(s, "<prosody")
  {
    forall k: nat | k + 8 <= |s| ensures !OccursAt(s, "<prosody", k) {
      assert s[k..k + 8][0] == s[k] && s[k..k + 8][1] == s[k + 1];
    }
  }

  lemma ProsodyOpenSplit(p: Prosody)
    ensures |ProsodyOpen(p)| >= 8 && ProsodyOpen(p) == "<prosody" + ProsodyOpen(p)[8..]
  {
    var q := ProsodyOpen(p);
    assert q[..8] == "<prosody";
  }

  /** A preset style wraps the `lang` element in `prosody` with the preset's
      rate and pitch, straight after the `express-as` start tag. */
  lemma PresetProsodyPlacement(lang: string, spid: string, style: string, text: string)
    requires style in ProsodyPresets
    ensures var p := ProsodyPresets[style];
      Contains(BuildSsml(lang, spid, style, text), ExpressOpen(style) + ProsodyOpen(p) + LangOpen(lang))
  {
    var p := ProsodyPresets[style];
    var pre := SpeakOpen(lang) + VoiceOpen + Embedding(spid);
    var x, po, lo, e := ExpressOpen(style), ProsodyOpen(p), LangOpen(lang), Escape(text);
    assert BuildSsml(lang, spid, style, text) == pre + x + (po + (lo + e + "</lang>") + "</prosody>") + Tail;
    PlacementRegroup(pre, x, po, lo, e, "</lang>", "</prosody>", Tail);
    ContainsMiddle(pre, x + po + lo, e + "</lang>" + "</prosody>" + Tail);
  }

  lemma PlacementRegroup(pre: string, x: string, po: string, lo: string, e: string, c1: string, c2: string, t: string)
    ensures pre + x + (po + (lo + e + c1) + c2) + t == pre + (x + po + lo) + (e + c1 + c2 + t)
  {
  }

  /** Any other style puts the `lang` element directly inside `express-as`,
      with no prosody adjustment. */
  lemma OtherStyleLangDirect(lang: string, spid: string, style: string, text: string)
    requires style !in ProsodyPresets
    ensures Contains(BuildSsml(lang, spid, style, text), ExpressOpen(style) + LangOpen(lang))
  {
    var pre := SpeakOpen(lang) + VoiceOpen + Embedding(spid);
    var x, lo, e := ExpressOpen(style), LangOpen(lang), Escape(text);
    assert BuildSsml(lang, spid, style, text) == pre + x + (lo + e + "</lang>") + Tail;
    DirectRegroup(pre, x, lo, e, "</lang>", Tail);
    ContainsMiddle(pre, x + lo, e + "</lang>" + Tail);
  }

  lemma DirectRegroup(pre: string, x: string, lo: string, e: string, c: string, t: string)
    ensures pre + x + (lo + e + c) + t == pre + (x + lo) + (e + c + t)
  {
  }

  /** The speaker-profile id and the style sit in their attributes
      escaped, so neither can close the quoted attribute value or open a
      tag. */
  lemma AttributesEscaped(lang: string, spid: string, style: string, text: string)
    ensures Contains(BuildSsml(lang, spid, style, text), "speakerProfileId='" + Escape(spid) + "'/>")
    ensures Contains(BuildSsml(lang, spid, style, text), "style='" + Escape(style) + "'>")
    ensures NoMarkupChar(Escape(spid)) && NoMarkupChar(Escape(style))
  {
    ProfileIdInSsml(lang, spid, style, text);
    StyleInSsml(lang, spid, style, text);
  }

  lemma ProfileIdInSsml(lang: string, spid: string, style: string, text: string)
    ensures Contains(BuildSsml(lang, spid, style, text), "speakerProfileId='" + Escape(spid) + "'/>")
  {
    var inner := Inner(lang, style, text);
    SixRegroup(SpeakOpen(lang), VoiceOpen, Embedding(spid), ExpressOpen(style), inner, Tail);
    PieceOfPiece(SpeakOpen(lang) + VoiceOpen, "<mstts:ttsembedding ", "speakerProfileId='", Escape(spid), "'/>",
                 ExpressOpen(style) + inner + Tail);
  }

  lemma StyleInSsml(lang: string, spid: string, style: string, text: string)
    ensures Contains(BuildSsml(lang, spid, style, text), "style='" + Escape(style) + "'>")
  {
    var inner := Inner(lang, style, text);
    SixRegroupLate(SpeakOpen(lang), VoiceOpen, Embedding(spid), ExpressOpen(style), inner, Tail);
    PieceOfPiece(SpeakOpen(lang) + VoiceOpen + Embedding(spid), "<mstts:express-as ", "style='", Escape(style), "'>",
                 inner + Tail);
  }

  lemma SixRegroup(p1: string, p2: string, p3: string, p4: string, p5: string, p6: string)
    ensures p1 + p2 + p3 + p4 + p5 + p6 == (p1 + p2) + p3 + (p4 + p5 + p6)
  {
  }

  lemma SixRegroupLate(p1: string, p2: string, p3: string, p4: string, p5: string, p6: string)
    ensures p1 + p2 + p3 + p4 + p5 + p6 == (p1 + p2 + p3) + p4 + (p5 + p6)
  {
  }

  /** `y + e + z` occurs in `a + (x + y + e + z) + c`. */
  lemma PieceOfPiece(a: string, x: string, y: string, e: string, z: string, c: string)
    ensures Contains(a + (x + y + e + z) + c, y + e + z)
  {
    assert a + (x + y + e + z) + c == (a + x) + (y + e + z) + c;
    ContainsMiddle(a + x, y + e + z, c);
  }

  /** The `Cheerful` style, the default, speeds speech up by 8% and raises
      the pitch by 5%. */
  lemma CheerfulProsody(lang: string, spid: string, style: string, text: string)
    requires style == "Cheerful"
    ensures Contains(BuildSsml(lang, spid, style, text), "<prosody rate='+8%' pitch='+5%'>")
  {
    CheerfulPreset(style);
    PresetProsodyPlacement(lang, spid, style, text);
    var p := ProsodyPresets[style];
    CheerfulTag(p);
    ContainsPart(BuildSsml(lang, spid, style, text), ExpressOpen(style), ProsodyOpen(p), LangOpen(lang));
  }

  lemma CheerfulPreset(style: string)
    requires style == "Cheerful"
    ensures style in ProsodyPresets && ProsodyPresets[style] == Prosody("+8%", "+5%")
  {
  }

  lemma CheerfulTag(p: Prosody)
    requires p == Prosody("+8%", "+5%")
    ensures ProsodyOpen(p) == "<prosody rate='+8%' pitch='+5%'>"
  {
  }

  /** Whatever the style, the escaped text appears in the document, wrapped
      in its `lang` element. */
  lemma TextInSsml(lang: string, spid: string, style: string, text: string)
    ensures Contains(BuildSsml(lang, spid, style, text), LangElement(lang, text))
    ensures Contains(BuildSsml(lang, spid, style, text), Escape(text))
  {
    var ssml := BuildSsml(lang, spid, style, text);
    var head := SpeakOpen(lang) + VoiceOpen + Embedding(spid) + ExpressOpen(style);
    if style in ProsodyPresets {
      WrappedTextInSsml(head, ProsodyOpen(ProsodyPresets[style]), LangElement(lang, text), Tail);
    } else {
      ContainsMiddle(head, LangElement(lang, text), Tail);
    }
    ContainsPart(ssml, LangOpen(lang), Escape(text), "</lang>");
  }

  lemma WrappedTextInSsml(head: string, po: string, le: string, tail: string)
    ensures Contains(head + (po + le + "</prosody>") + tail, le)
  {
    assert head + (po + le + "</prosody>") + tail == (head + po) + le + ("</prosody>" + tail);
    ContainsMiddle(head + po, le, "</prosody>" + tail);
  }
}
