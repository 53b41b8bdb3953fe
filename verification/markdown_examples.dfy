/** Concrete documents run through the Markdown reduction, worked out pass
    by pass.

    Each example takes its document as a parameter fixed by `requires`: a
    literal argument would make the verifier unfold every pass eagerly.
    Literals are written in short pieces, which the verifier indexes readily. */
module MarkdownExamples {
  import opened Wrappers
  import opened Text
  import opened Markdown


  /** The heading, emphasis and link of a short document go; the trailing
      newline is stripped. */
  lemma WorkedExample(doc: string)
    requires doc == "# Hello\n\nThis is **bold** and a [link](http://x).\n"
    ensures ReadMarkdown(doc) == "Hello\n\nThis is bold and a link."
  {
    var s2 := "# Hello\n\nThis is " + "**bold** and a link.\n";
    var s3 := "Hello\n\nThis is " + "**bold** and a link.\n";
    var s4 := "Hello\n\nThis is " + "bold and a link.\n";
    ExampleImage(doc);
    ExampleLink(doc);
    ExampleHeading(s2);
    ExampleEmphasis(s3);
    ExampleLastPasses(s4);
    assert Reduce(doc) == s4;
    ExampleStrip(s4);
  }

  lemma ExampleImage(s0: string)
    requires s0 == "# Hello\n\nThis is **bold** and a [link](http://x).\n"
    ensures Sub(Image, s0) == s0
  {
    var a, b, c := "# Hello\n\nThis is ", "**bold** and a [link]", "(http://x).\n";
    ExampleImagePieces(s0, a, b, c);
    Absent3(a, b, c, '!');
    NoLeadUnchanged(Image, a + b + c);
  }

  lemma ExampleImagePieces(s0: string, a: string, b: string, c: string)
    requires s0 == "# Hello\n\nThis is **bold** and a [link](http://x).\n"
    requires a == "# Hello\n\nThis is " && b == "**bold** and a [link]" && c == "(http://x).\n"
    ensures s0 == a + b + c && '!' !in a && '!' !in b && '!' !in c
  {
    NoBang(a);
    NoBang(b);
    NoBang(c);
  }

  lemma NoBang(a: string)
    requires a == "# Hello\n\nThis is " || a == "**bold** and a [link]" || a == "(http://x).\n"
    ensures '!' !in a
  {
  }

  /** A character in none of three pieces is in none of their joins. */
  lemma Absent3(a: string, b: string, c: string, x: char)
    requires x !in a && x !in b && x !in c
    ensures forall ch :: ch in a + b + c ==> ch != x
  {
  }

  lemma ExampleLink(s0: string)
    requires s0 == "# Hello\n\nThis is **bold** and a [link](http://x).\n"
    ensures Sub(Link, s0) == "# Hello\n\nThis is " + "**bold** and a link.\n"
  {
    var pre := "# Hello\n\nThis is " + "**bold** and a ";
    ExampleLinkPieces(s0);
    ExampleLinkInContext(pre, "link", "http://x", ".\n");
  }

  lemma ExampleLinkPieces(s0: string)
    requires s0 == "# Hello\n\nThis is **bold** and a [link](http://x).\n"
    ensures s0 == "# Hello\n\nThis is " + "**bold** and a " + "[" + "link" + "](" + "http://x" + ")" + ".\n"
  {
  }

  lemma ExampleLinkInContext(pre: string, t: string, u: string, post: string)
    requires pre == "# Hello\n\nThis is " + "**bold** and a "
    requires t == "link" && u == "http://x" && post == ".\n"
    ensures Sub(Link, pre + "[" + t + "](" + u + ")" + post) == pre + t + post
  {
    var a, b := "# Hello\n\nThis is ", "**bold** and a ";
    assert '[' !in a && '[' !in b;
    assert forall ch :: ch in pre ==> ch in a || ch in b;
    LinkReplaced(pre, t, u, post);
  }

  lemma ExampleHeading(s2: string)
    requires s2 == "# Hello\n\nThis is " + "**bold** and a link.\n"
    ensures Sub(Heading, s2) == "Hello\n\nThis is " + "**bold** and a link.\n"
  {
    var s3 := "Hello\n\nThis is " + "**bold** and a link.\n";
    ExampleHeadingPieces(s2, s3);
    NoHashAfterHeading(s3);
    HeadingMarkerRemoved(1, " ", s3);
  }

  lemma ExampleHeadingPieces(s2: string, s3: string)
    requires s2 == "# Hello\n\nThis is " + "**bold** and a link.\n"
    requires s3 == "Hello\n\nThis is " + "**bold** and a link.\n"
    ensures Rep('#', 1) + " " + s3 == s2 && !IsSpace(s3[0])
  {
    assert Rep('#', 1) == "#";
  }

  lemma NoHashAfterHeading(s3: string)
    requires s3 == "Hello\n\nThis is " + "**bold** and a link.\n"
    ensures '#' !in s3
  {
    var a, b := "Hello\n\nThis is ", "**bold** and a link.\n";
    assert '#' !in a;
    assert '#' !in b;
  }

  lemma ExampleEmphasis(s3: string)
    requires s3 == "Hello\n\nThis is " + "**bold** and a link.\n"
    ensures Sub(StarEmphasis, s3) == "Hello\n\nThis is " + "bold and a link.\n"
  {
    var pre, post := "Hello\n\nThis is ", " and a link.\n";
    ExampleEmphasisPieces(s3, pre, post);
    EmphasisRemoved(pre, '*', 2, "bold", post);
    ExampleEmphasisResult(pre, post);
  }

  lemma ExampleEmphasisPieces(s3: string, pre: string, post: string)
    requires s3 == "Hello\n\nThis is " + "**bold** and a link.\n"
    requires pre == "Hello\n\nThis is " && post == " and a link.\n"
    ensures s3 == pre + Rep('*', 2) + "bold" + Rep('*', 2) + post
    ensures '*' !in pre && '*' !in post
  {
    assert Rep('*', 2) == "**";
  }

  lemma ExampleEmphasisResult(pre: string, post: string)
    requires pre == "Hello\n\nThis is " && post == " and a link.\n"
    ensures pre + "bold" + post == "Hello\n\nThis is " + "bold and a link.\n"
  {
  }

  lemma ExampleLastPasses(s4: string)
    requires s4 == "Hello\n\nThis is " + "bold and a link.\n"
    ensures Sub(BlankLines, Sub(Rule, Sub(Fence, Sub(InlineCode, Sub(UnderscoreEmphasis, s4))))) == s4
  {
    ExampleNoMarkers(s4);
    NoLeadUnchanged(UnderscoreEmphasis, s4);
    NoLeadUnchanged(InlineCode, s4);
    NoLeadUnchanged(Fence, s4);
    NoLeadUnchanged(Rule, s4);
    ExampleNoTriple(s4);
    CollapseUnchanged(s4);
  }

  lemma ExampleNoMarkers(s4: string)
    requires s4 == "Hello\n\nThis is " + "bold and a link.\n"
    ensures forall c :: c in s4 ==> c != '_' && c != '`' && c != '-' && c != '*'
  {
    var a, b := "Hello\n\nThis is ", "bold and a link.\n";
    NoMarkersInHead(a);
    NoMarkersInTail(b);
    assert s4 == a + b;
  }

  lemma NoMarkersInHead(a: string)
    requires a == "Hello\n\nThis is "
    ensures forall c :: c in a ==> c != '_' && c != '`' && c != '-' && c != '*'
  {
  }

  lemma NoMarkersInTail(b: string)
    requires b == "bold and a link.\n"
    ensures forall c :: c in b ==> c != '_' && c != '`' && c != '-' && c != '*'
  {
  }

  lemma ExampleNoTriple(s4: string)
    requires s4 == "Hello\n\nThis is " + "bold and a link.\n"
    ensures NoTripleNewline(s4)
  {
  }

  lemma ExampleStrip(s4: string)
    requires s4 == "Hello\n\nThis is " + "bold and a link.\n"
    ensures Strip(s4) == "Hello\n\nThis is bold and a link."
  {
    var t := "Hello\n\nThis is " + "bold and a link.";
    assert !IsSpace(s4[0]);
    assert TrimStart(s4) == s4;
    assert IsSpace(s4[|s4| - 1]);
    assert s4[..|s4| - 1] == t;
    assert TrimEnd(s4) == TrimEnd(t);
    assert !IsSpace(t[|t| - 1]);
    assert TrimEnd(t) == t;
  }

  /** A document holding only a fenced code block does not reduce to empty
      text: the inline-code pass runs before the fence pass and pairs the
      third opening backtick with the first closing one, so the fence pass
      no longer sees three backticks in a row. */
  lemma FenceOnlyDocument(doc: string)
    requires doc == "```\ncode\n```"
    ensures ReadMarkdown(doc) == "``\ncode\n``"
  {
    var t := "``\ncode\n``";
    FenceOnlyFirstPasses(doc);
    FenceOnlyInlineCode(doc);
    FenceOnlyRest(t);
    assert Reduce(doc) == t;
  }

  lemma FenceOnlyFirstPasses(doc: string)
    requires doc == "```\ncode\n```"
    ensures Sub(UnderscoreEmphasis, Sub(StarEmphasis, Sub(Heading, Sub(Link, Sub(Image, doc))))) == doc
  {
    assert forall c :: c in doc ==> c == '`' || c == '\n' || c in "code";
    NoLeadUnchanged(Image, doc);
    NoLeadUnchanged(Link, doc);
    NoLeadUnchanged(Heading, doc);
    NoLeadUnchanged(StarEmphasis, doc);
    NoLeadUnchanged(UnderscoreEmphasis, doc);
  }

  lemma FenceOnlyInlineCode(s: string)
    requires s == "```\ncode\n```"
    ensures Sub(InlineCode, s) == "``\ncode\n``"
  {
    FenceOnlyCodeMatches(s);
    assert Rewrite(InlineCode, s, 12) == [];
    assert Rewrite(InlineCode, s, 11) == "`";
    assert Rewrite(InlineCode, s, 10) == "``";
    assert Rewrite(InlineCode, s, 2) == "\ncode\n``";
    assert Rewrite(InlineCode, s, 1) == "`\ncode\n``";
  }

  /** The inline-code matches on the fenced block: only the third backtick
      opens one, closed by the first backtick of the closing fence. */
  lemma FenceOnlyCodeMatches(s: string)
    requires s == "```\ncode\n```"
    ensures MatchAt(InlineCode, s, 0).None? && MatchAt(InlineCode, s, 1).None?
    ensures MatchAt(InlineCode, s, 2) == Some(Hit(10, "\ncode\n"))
    ensures MatchAt(InlineCode, s, 10).None? && MatchAt(InlineCode, s, 11).None?
    ensures s[0] == '`' && s[1] == '`' && s[10] == '`' && s[11] == '`' && |s| == 12
  {
    FindFromIs(s, 1, '`', 1);
    FindFromIs(s, 2, '`', 2);
    FindFromIs(s, 3, '`', 9);
    FindFromIs(s, 11, '`', 11);
    assert s[3..9] == "\ncode\n";
  }

  lemma FenceOnlyRest(t: string)
    requires t == "``\ncode\n``"
    ensures Sub(BlankLines, Sub(Rule, Sub(Fence, t))) == t
    ensures Strip(t) == t
  {
    FenceOnlyFencePass(t);
    FenceOnlyLastPasses(t);
    FenceOnlyStrip(t);
  }

  lemma FenceOnlyFencePass(t: string)
    requires t == "``\ncode\n``"
    ensures Sub(Fence, t) == t
  {
    forall k | 0 <= k < |t| ensures MatchAt(Fence, t, k).None? {
      assert !TicksAt(t, k);
    }
    NoMatchUnchanged(Fence, t, 0);
  }

  lemma FenceOnlyLastPasses(t: string)
    requires t == "``\ncode\n``"
    ensures Sub(BlankLines, Sub(Rule, t)) == t
  {
    assert forall c :: c in t ==> c == '`' || c == '\n' || c in "code";
    NoLeadUnchanged(Rule, t);
    assert NoTripleNewline(t);
    CollapseUnchanged(t);
  }

  lemma FenceOnlyStrip(t: string)
    requires t == "``\ncode\n``"
    ensures Strip(t) == t
  {
    assert !IsSpace(t[0]) && !IsSpace(t[|t| - 1]);
    StripFixpointIff(t);
  }
}
