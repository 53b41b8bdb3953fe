/** Python's `html.escape(s, quote=True)` and a decoder for the five
    entities it produces. */
module Html {
  import opened Text

  /** The replacement of one character. `html.escape` replaces `&` first,
      then `<`, `>`, `"` and `'`; since `&` goes first, no later
      replacement touches an entity made earlier, so the effect is this
      per-character map. */
  function EscapeChar(c: char): string {
    if c == '&' then "&amp;"
    else if c == '<' then "&lt;"
    else if c == '>' then "&gt;"
    else if c == '"' then "&quot;"
    else if c == '\'' then "&#x27;"
    else [c]
  }

  /** `html.escape(s)`: the result is safe inside an element and inside an
      attribute value quoted with either kind of quote. */
  function Escape(s: string): (r: string)
    ensures |r| >= |s|
    ensures NoMarkupChar(r)
    decreases |s|
  {
    if |s| == 0 then []
    else
      var e := EscapeChar(s[0]);
      var rest := Escape(s[1..]);
      assert NoMarkupChar(e);
      NoMarkupCharConcat(e, rest);
      e + rest
  }

  /** None of `<`, `>`, `"`, `'` occurs in `r`. */
  predicate NoMarkupChar(r: string) {
    forall k :: 0 <= k < |r| ==> !IsMarkupChar(r[k])
  }

  predicate IsMarkupChar(c: char) {
    c == '<' || c == '>' || c == '"' || c == '\''
  }

  lemma NoMarkupCharConcat(a: string, b: string)
    requires NoMarkupChar(a) && NoMarkupChar(b)
    ensures NoMarkupChar(a + b)
  {
    forall k | 0 <= k < |a + b| ensures !IsMarkupChar((a + b)[k]) {
      if k >= |a| {
        assert (a + b)[k] == b[k - |a|];
      }
    }
  }

  /** One of the five entities `html.escape` produces starts at index `k`. */
  predicate EntityAt(r: string, k: nat)
    requires k <= |r|
  {
    var t := r[k..];
    StartsWith(t, "&amp;") || StartsWith(t, "&lt;") || StartsWith(t, "&gt;")
    || StartsWith(t, "&quot;") || StartsWith(t, "&#x27;")
  }

  /** Every `&` in `r` starts an entity. */
  predicate AmpersandsAreEntities(r: string) {
    forall k :: 0 <= k < |r| && r[k] == '&' ==> EntityAt(r, k)
  }

  /** Every `&` in an escaped string starts one of the five entities: no
      bare `&` survives escaping. */
  lemma {:induction false} EscapedAmpersandsAreEntities(s: string)
    ensures AmpersandsAreEntities(Escape(s))
    decreases |s|
  {
    if |s| > 0 {
      var e := EscapeChar(s[0]);
      var rest := Escape(s[1..]);
      EscapedAmpersandsAreEntities(s[1..]);
      EscapeCharAmpersand(s[0], rest);
      AmpersandsConcat(e, rest);
      assert Escape(s) == e + rest;
    }
  }

  /** The replacement of one character holds `&` at most at its start, and
      there only as the start of an entity. */
  lemma EscapeCharAmpersand(c: char, rest: string)
    ensures var e := EscapeChar(c);
      && |e| > 0
      && (forall k :: 0 < k < |e| ==> e[k] != '&')
      && (e[0] == '&' ==> EntityAt(e + rest, 0))
  {
    var e := EscapeChar(c);
    assert (e + rest)[0..][..|e|] == e;
  }

  lemma AmpersandsConcat(e: string, rest: string)
    requires |e| > 0 && forall k :: 0 < k < |e| ==> e[k] != '&'
    requires e[0] == '&' ==> EntityAt(e + rest, 0)
    requires AmpersandsAreEntities(rest)
    ensures AmpersandsAreEntities(e + rest)
  {
    var r := e + rest;
    forall k | 0 <= k < |r| && r[k] == '&' ensures EntityAt(r, k) {
      if k >= |e| {
        assert r[k] == rest[k - |e|];
        assert r[k..] == rest[k - |e|..];
      }
    }
  }

  /** Decodes the five entities `html.escape` produces; any other `&` is
      kept as it is. */
  function Unescape(s: string): string
    decreases |s|
  {
    if |s| == 0 then []
    else if StartsWith(s, "&amp;") then "&" + Unescape(s[5..])
    else if StartsWith(s, "&lt;") then "<" + Unescape(s[4..])
    else if StartsWith(s, "&gt;") then ">" + Unescape(s[4..])
    else if StartsWith(s, "&quot;") then "\"" + Unescape(s[6..])
    else if StartsWith(s, "&#x27;") then "'" + Unescape(s[6..])
    else [s[0]] + Unescape(s[1..])
  }

  lemma UnescapeOne(c: char, rest: string)
    ensures Unescape(EscapeChar(c) + rest) == [c] + Unescape(rest)
  {
    if c == '&' {
      UnescapeEntity("&amp;", '&', rest);
    } else if c == '<' {
      UnescapeEntity("&lt;", '<', rest);
    } else if c == '>' {
      UnescapeEntity("&gt;", '>', rest);
    } else if c == '"' {
      UnescapeEntity("&quot;", '"', rest);
    } else if c == '\'' {
      UnescapeEntity("&#x27;", '\'', rest);
    } else {
      assert EscapeChar(c) == [c];
      UnescapePlain(c, rest);
    }
  }

  /** A character that does not start an entity is kept as it is. */
  lemma UnescapePlain(c: char, rest: string)
    requires c != '&'
    ensures Unescape([c] + rest) == [c] + Unescape(rest)
  {
    var s := [c] + rest;
    assert s[0] == c && s[1..] == rest;
    NoEntityStart(s, "&amp;");
    NoEntityStart(s, "&lt;");
    NoEntityStart(s, "&gt;");
    NoEntityStart(s, "&quot;");
    NoEntityStart(s, "&#x27;");
  }

  lemma NoEntityStart(s: string, e: string)
    requires |s| > 0 && |e| > 0 && e[0] == '&' && s[0] != '&'
    ensures !StartsWith(s, e)
  {
    if |e| <= |s| {
      assert s[..|e|][0] != e[0];
    }
  }

  lemma UnescapeEntity(e: string, c: char, rest: string)
    requires (e, c) in {("&amp;", '&'), ("&lt;", '<'), ("&gt;", '>'), ("&quot;", '"'), ("&#x27;", '\'')}
    ensures Unescape(e + rest) == [c] + Unescape(rest)
  {
    var s := e + rest;
    assert s[..|e|] == e && s[|e|..] == rest;
    assert s[0] == '&' && s[1] == e[1];
  }

  /** Unescaping an escaped string gives the original back, so escaping
      loses nothing. */
  lemma {:induction false} UnescapeEscape(s: string)
    ensures Unescape(Escape(s)) == s
    decreases |s|
  {
    if |s| > 0 {
      UnescapeOne(s[0], Escape(s[1..]));
      UnescapeEscape(s[1..]);
      assert s == [s[0]] + s[1..];
    }
  }

  /** Escaping is injective: different strings never escape alike. */
  lemma EscapeInjective(a: string, b: string)
    requires Escape(a) == Escape(b)
    ensures a == b
  {
    UnescapeEscape(a);
    UnescapeEscape(b);
  }
}
