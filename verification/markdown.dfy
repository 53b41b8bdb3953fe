/** The Markdown-to-speech-text reduction of `read_markdown`: nine rewrite
    passes applied to the whole document in a fixed order, then a strip.

    Each pass is a Python `re.sub` with a fixed pattern. `re.sub` scans the
    string from left to right: at each position it tries the pattern; on a
    match it emits the replacement and resumes after the match, otherwise it
    copies one character and moves on. None of the nine patterns can match
    the empty string, so that scan is `Rewrite` below, and each pattern is a
    hand-written matcher `...At(s, i)` that returns where a match starting at
    `i` ends (with the backtracking of the pattern's greedy and lazy
    repetitions worked out) and what replaces it. Anchors `^` and `$` in
    MULTILINE mode look at the original string, which the matchers see whole. */
module Markdown {
  import opened Wrappers
  import opened Text

  /** The nine passes, in the order `read_markdown` applies them. */
  datatype Pass =
    | Image               // !\[.*?\]\(.*?\)      -> ""
    | Link                // \[([^\]]+)\]\([^\)]+\) -> \1
    | Heading             // ^#{1,6}\s+ (MULTILINE) -> ""
    | StarEmphasis        // \*{1,3}(.*?)\*{1,3}  -> \1
    | UnderscoreEmphasis  // _{1,3}(.*?)_{1,3}    -> \1
    | InlineCode          // `([^`]+)`            -> \1
    | Fence               // ```[\s\S]*?```       -> ""
    | Rule                // ^[-*_]{3,}\s*$ (MULTILINE) -> ""
    | BlankLines          // \n{3,}               -> "\n\n"

  /** A match that started at some index, ends (exclusively) at `end` and is
      replaced by `repl`. */
  datatype Hit = Hit(end: nat, repl: string)

  /** The characters a match of each pass can start with. */
  predicate Lead(p: Pass, c: char) {
    match p
    case Image => c == '!'
    case Link => c == '['
    case Heading => c == '#'
    case StarEmphasis => c == '*'
    case UnderscoreEmphasis => c == '_'
    case InlineCode => c == '`'
    case Fence => c == '`'
    case Rule => IsRuleChar(c)
    case BlankLines => c == '\n'
  }

  predicate IsRuleChar(c: char) {
    c == '-' || c == '*' || c == '_'
  }

  /** `^` in MULTILINE mode: the start of the string or just after a newline. */
  predicate AtLineStart(s: string, i: nat)
    requires i <= |s|
  {
    i == 0 || s[i - 1] == '\n'
  }

  // ---------------------------------------------------------------- scanning

  /** The first index at or after `p` holding `c` (the character may be
      reached across newlines, as by `[^c]*`). */
  function FindFrom(s: string, p: nat, c: char): (r: Option<nat>)
    requires p <= |s|
    ensures r.Some? ==> p <= r.value < |s| && s[r.value] == c
    ensures r.Some? ==> forall k :: p <= k < r.value ==> s[k] != c
    ensures r.None? ==> forall k :: p <= k < |s| ==> s[k] != c
    decreases |s| - p
  {
    if p == |s| then None
    else if s[p] == c then Some(p)
    else FindFrom(s, p + 1, c)
  }

  /** The first index at or after `p` holding `c` that can be reached
      without crossing a newline (as by `.*?c`, where `.` excludes `\n`). */
  function FindOnLine(s: string, p: nat, c: char): (r: Option<nat>)
    requires p <= |s|
    requires c != '\n'
    ensures r.Some? ==> p <= r.value < |s| && s[r.value] == c
    ensures r.Some? ==> forall k :: p <= k < r.value ==> s[k] != c && s[k] != '\n'
    ensures r.None? ==> forall k :: p <= k < |s| && s[k] == c ==> exists n :: p <= n < k && s[n] == '\n'
    decreases |s| - p
  {
    if p == |s| then None
    else if s[p] == c then Some(p)
    else if s[p] == '\n' then None
    else FindOnLine(s, p + 1, c)
  }

  /** Length of the run of `c` starting at `p`. */
  function Run(s: string, p: nat, c: char): (n: nat)
    requires p <= |s|
    ensures p + n <= |s|
    ensures forall k :: p <= k < p + n ==> s[k] == c
    ensures p + n == |s| || s[p + n] != c
    decreases |s| - p
  {
    if p < |s| && s[p] == c then 1 + Run(s, p + 1, c) else 0
  }

  /** Length of the run of whitespace (`\s`) starting at `p`. */
  function SpaceRun(s: string, p: nat): (n: nat)
    requires p <= |s|
    ensures p + n <= |s|
    ensures forall k :: p <= k < p + n ==> IsSpace(s[k])
    ensures p + n == |s| || !IsSpace(s[p + n])
    decreases |s| - p
  {
    if p < |s| && IsSpace(s[p]) then 1 + SpaceRun(s, p + 1) else 0
  }

  /** Length of the run of `[-*_]` starting at `p`. */
  function RuleRun(s: string, p: nat): (n: nat)
    requires p <= |s|
    ensures p + n <= |s|
    ensures forall k :: p <= k < p + n ==> IsRuleChar(s[k])
    ensures p + n == |s| || !IsRuleChar(s[p + n])
    decreases |s| - p
  {
    if p < |s| && IsRuleChar(s[p]) then 1 + RuleRun(s, p + 1) else 0
  }

  /** The last newline in `s[lo..hi]`. */
  function LastNewline(s: string, lo: nat, hi: nat): (r: Option<nat>)
    requires lo <= hi <= |s|
    ensures r.Some? ==> lo <= r.value < hi && s[r.value] == '\n'
    ensures r.Some? ==> forall k :: r.value < k < hi ==> s[k] != '\n'
    ensures r.None? ==> forall k :: lo <= k < hi ==> s[k] != '\n'
    decreases hi
  {
    if hi == lo then None
    else if s[hi - 1] == '\n' then Some(hi - 1)
    else LastNewline(s, lo, hi - 1)
  }

  /** Three backticks start at `p`. */
  predicate TicksAt(s: string, p: nat) {
    p + 3 <= |s| && s[p] == '`' && s[p + 1] == '`' && s[p + 2] == '`'
  }

  /** The first index at or after `p` where three backticks start. */
  function FindTicks(s: string, p: nat): (r: Option<nat>)
    requires p <= |s|
    ensures r.Some? ==> p <= r.value && TicksAt(s, r.value)
    ensures r.Some? ==> forall k :: p <= k < r.value ==> !TicksAt(s, k)
    ensures r.None? ==> forall k :: p <= k <= |s| ==> !TicksAt(s, k)
    decreases |s| - p
  {
    if p + 3 > |s| then None
    else if TicksAt(s, p) then Some(p)
    else FindTicks(s, p + 1)
  }

  function Min(a: nat, b: nat): nat {
    if a <= b then a else b
  }

  // ---------------------------------------------------------------- matchers

  /** `!\[.*?\]\(.*?\)`: after `![`, the lazy `.*?` tries each `]` on the
      line in turn; it is taken when `(` follows and a `)` closes on the
      same line (the first such `)`). */
  function ImageAt(s: string, i: nat): (r: Option<Hit>)
    requires i < |s|
    ensures r.Some? ==> i + 2 < r.value.end <= |s| && r.value.repl == []
  {
    if s[i] == '!' && i + 1 < |s| && s[i + 1] == '[' then
      match ImageTail(s, i + 2)
      case Some(e) => Some(Hit(e, []))
      case None => None
    else None
  }

  function ImageTail(s: string, j: nat): (r: Option<nat>)
    requires j <= |s|
    ensures r.Some? ==> j < r.value <= |s|
    decreases |s| - j
  {
    if j == |s| then None
    else if s[j] == ']' && j + 1 < |s| && s[j + 1] == '(' && FindOnLine(s, j + 2, ')').Some? then
      Some(FindOnLine(s, j + 2, ')').value + 1)
    else if s[j] == '\n' then None
    else ImageTail(s, j + 1)
  }

  /** `\[([^\]]+)\]\([^\)]+\)`: the text runs to the first `]`, which must
      be followed by `(`; the target runs to the first `)`. Both are
      non-empty and may span lines. The link becomes its text. */
  function LinkAt(s: string, i: nat): (r: Option<Hit>)
    requires i < |s|
  {
    if s[i] != '[' then None
    else
      match FindFrom(s, i + 1, ']')
      case None => None
      case Some(j) =>
        if j == i + 1 || j + 1 >= |s| || s[j + 1] != '(' then None
        else
          match FindFrom(s, j + 2, ')')
          case None => None
          case Some(k) => if k == j + 2 then None else Some(Hit(k + 1, s[i + 1..j]))
  }

  /** `^#{1,6}\s+` (MULTILINE): one to six `#` at a line start followed by
      whitespace, which `\s+` takes greedily, newlines included. Seven or
      more `#` never match: whatever `#{1,6}` takes, another `#` follows. */
  function HeadingAt(s: string, i: nat): (r: Option<Hit>)
    requires i < |s|
  {
    if !AtLineStart(s, i) then None
    else
      var h := Run(s, i, '#');
      if 1 <= h <= 6 && SpaceRun(s, i + h) >= 1 then Some(Hit(i + h + SpaceRun(s, i + h), []))
      else None
  }

  /** `m{1,3}(.*?)m{1,3}` for a marker `m`: the opening run is tried with
      three, two, then one marker; for each, the lazy `.*?` stops at the
      first marker on the same line, and the closing `m{1,3}` takes up to
      three markers greedily. The match becomes the enclosed text. */
  function EmphasisAt(s: string, i: nat, m: char): (r: Option<Hit>)
    requires i < |s|
    requires m != '\n'
  {
    if s[i] != m then None else EmphasisOpen(s, i, m, Min(3, Run(s, i, m)))
  }

  function EmphasisOpen(s: string, i: nat, m: char, a: nat): (r: Option<Hit>)
    requires m != '\n'
    requires i <= |s| && 1 <= a <= Run(s, i, m)
    ensures r.Some? ==> i < r.value.end <= |s|
    ensures r.Some? ==> |r.value.repl| < r.value.end - i
    decreases a
  {
    match FindOnLine(s, i + a, m)
    case Some(q) =>
      assert Run(s, q, m) >= 1;
      Some(Hit(q + Min(3, Run(s, q, m)), s[i + a..q]))
    case None => if a == 1 then None else EmphasisOpen(s, i, m, a - 1)
  }

  /** `` `([^`]+)` ``: a backtick, at least one non-backtick character (any,
      newlines included), and the next backtick. */
  function InlineCodeAt(s: string, i: nat): (r: Option<Hit>)
    requires i < |s|
  {
    if s[i] != '`' then None
    else
      match FindFrom(s, i + 1, '`')
      case None => None
      case Some(j) => if j == i + 1 then None else Some(Hit(j + 1, s[i + 1..j]))
  }

  /** ```` ```[\s\S]*?``` ````: three backticks up to the next three, across
      lines; removed. */
  function FenceAt(s: string, i: nat): (r: Option<Hit>)
    requires i < |s|
  {
    if !TicksAt(s, i) then None
    else
      match FindTicks(s, i + 3)
      case None => None
      case Some(j) => Some(Hit(j + 3, []))
  }

  /** `^[-*_]{3,}\s*$` (MULTILINE): at a line start, three or more of
      `-`, `*`, `_` (mixed), then `\s*` greedily (newlines included), then
      end of string or of a line. When the whitespace run stops before a
      non-space character, `\s*` gives back to the last newline it took;
      with no newline there, the match fails. Removed. */
  function RuleAt(s: string, i: nat): (r: Option<Hit>)
    requires i < |s|
  {
    if !AtLineStart(s, i) then None
    else
      var n := RuleRun(s, i);
      if n < 3 then None
      else
        var e := i + n + SpaceRun(s, i + n);
        if e == |s| then Some(Hit(e, []))
        else
          match LastNewline(s, i + n, e)
          case Some(q) => Some(Hit(q, []))
          case None => None
  }

  /** `\n{3,}`: a run of three or more newlines, taken whole, becomes two. */
  function BlankLinesAt(s: string, i: nat): (r: Option<Hit>)
    requires i < |s|
  {
    var n := Run(s, i, '\n');
    if n >= 3 then Some(Hit(i + n, "\n\n")) else None
  }

  /** The match, if any, of pass `p` starting exactly at `i`. */
  function MatchAt(p: Pass, s: string, i: nat): (r: Option<Hit>)
    requires i < |s|
    ensures r.Some? ==> i < r.value.end <= |s|
    ensures r.Some? ==> |r.value.repl| < r.value.end - i
    ensures r.Some? ==> Lead(p, s[i])
    ensures r.Some? && (p == Heading || p == Rule) ==> AtLineStart(s, i)
  {
    match p
    case Image => ImageAt(s, i)
    case Link => LinkAt(s, i)
    case Heading => HeadingAt(s, i)
    case StarEmphasis => EmphasisAt(s, i, '*')
    case UnderscoreEmphasis => EmphasisAt(s, i, '_')
    case InlineCode => InlineCodeAt(s, i)
    case Fence => FenceAt(s, i)
    case Rule => RuleAt(s, i)
    case BlankLines => BlankLinesAt(s, i)
  }

  /** `re.sub` of pass `p` over `s[i..]`, scanning left to right. Every
      match is replaced by something shorter, so no pass lengthens the
      text. */
  function Rewrite(p: Pass, s: string, i: nat): (r: string)
    requires i <= |s|
    ensures |r| <= |s| - i
    decreases |s| - i
  {
    if i == |s| then []
    else
      match MatchAt(p, s, i)
      case Some(h) => h.repl + Rewrite(p, s, h.end)
      case None => [s[i]] + Rewrite(p, s, i + 1)
  }

  /** One pass over the whole text. */
  function Sub(p: Pass, s: string): (r: string)
    ensures |r| <= |s|
  {
    Rewrite(p, s, 0)
  }

  /** The passes of `read_markdown` in order, without the final strip. The
      collapse comes last, so no three newlines in a row survive. */
  function Reduce(text: string): (r: string)
    ensures NoTripleNewline(r)
    ensures |r| <= |text|
  {
    var t1 := Sub(Image, text);
    var t2 := Sub(Link, t1);
    var t3 := Sub(Heading, t2);
    var t4 := Sub(StarEmphasis, t3);
    var t5 := Sub(UnderscoreEmphasis, t4);
    var t6 := Sub(InlineCode, t5);
    var t7 := Sub(Fence, t6);
    var t8 := Sub(Rule, t7);
    CollapseHasNoTripleNewline(t8);
    Sub(BlankLines, t8)
  }

  /** `read_markdown` after the file has been read: speech-ready text. */
  function ReadMarkdown(text: string): (r: string)
    ensures NoEdgeSpace(r)
    ensures NoTripleNewline(r)
    ensures |r| <= |text|
  {
    var r := Strip(Reduce(text));
    StripKeepsNoTripleNewline(Reduce(text));
    r
  }

  // ---------------------------------------------------------------- properties

  /** No three consecutive newlines occur in `t`. */
  predicate NoTripleNewline(t: string) {
    forall k :: 0 <= k && k + 2 < |t| ==> !TripleAt(t, k)
  }

  /** Three newlines start at index `k` of `t`. */
  predicate TripleAt(t: string, k: nat)
    requires k + 2 < |t|
  {
    t[k] == '\n' && t[k + 1] == '\n' && t[k + 2] == '\n'
  }

  /** Number of newlines `t` starts with. */
  function LeadingNewlines(t: string): nat {
    Run(t, 0, '\n')
  }

  lemma StripKeepsNoTripleNewline(t: string)
    requires NoTripleNewline(t)
    ensures NoTripleNewline(Strip(t))
  {
    StripIsInfix(t);
    InfixKeepsNoTripleNewline(t, StripOffset(t), Strip(t));
  }

  /** A contiguous piece of a text without triple newlines has none. */
  lemma InfixKeepsNoTripleNewline(t: string, lo: nat, r: string)
    requires NoTripleNewline(t)
    requires lo + |r| <= |t| && t[lo..lo + |r|] == r
    ensures NoTripleNewline(r)
  {
    forall k | 0 <= k && k + 2 < |r|
      ensures !TripleAt(r, k)
    {
      var j := lo + k;
      assert !TripleAt(t, j);
      assert r[k] == t[j] && r[k + 1] == t[j + 1] && r[k + 2] == t[j + 2];
    }
  }

  /** Replacing maximal runs of three or more newlines by two cannot leave
      or create a run of three. */
  lemma CollapseHasNoTripleNewline(s: string)
    ensures NoTripleNewline(Sub(BlankLines, s))
  {
    CollapseFrom(s, 0);
  }

  /** The collapse scan from `i`: its output has no triple newline, and it
      starts with one (two) newlines only if `s` does at `i`. */
  lemma {:induction false} CollapseFrom(s: string, i: nat)
    requires i <= |s|
    ensures NoTripleNewline(Rewrite(BlankLines, s, i))
    ensures var out := Rewrite(BlankLines, s, i);
      |out| > 0 && out[0] == '\n' ==> i < |s| && s[i] == '\n'
    ensures var out := Rewrite(BlankLines, s, i);
      |out| > 1 && out[0] == '\n' && out[1] == '\n' ==> i + 1 < |s| && s[i] == '\n' && s[i + 1] == '\n'
    decreases |s| - i
  {
    if i < |s| {
      var out := Rewrite(BlankLines, s, i);
      var n := Run(s, i, '\n');
      if n >= 3 {
        var x := Rewrite(BlankLines, s, i + n);
        CollapseFrom(s, i + n);
        assert out == "\n\n" + x;
        assert |x| > 0 ==> x[0] != '\n';
        NoTripleAfterPrefix("\n\n", x);
      } else {
        var x := Rewrite(BlankLines, s, i + 1);
        CollapseFrom(s, i + 1);
        assert out == [s[i]] + x;
        if s[i] == '\n' {
          assert !(|x| > 1 && x[0] == '\n' && x[1] == '\n');
        }
        NoTripleAfterPrefix([s[i]], x);
      }
    }
  }

  /** Joining `a` (at most two characters) to `x` makes no triple newline
      unless the joint does. */
  lemma NoTripleAfterPrefix(a: string, x: string)
    requires |a| <= 2
    requires NoTripleNewline(x)
    requires |a| == 2 ==> !(a[0] == '\n' && a[1] == '\n' && |x| > 0 && x[0] == '\n')
    requires |a| == 2 ==> !(a[1] == '\n' && |x| > 1 && x[0] == '\n' && x[1] == '\n')
    requires |a| == 1 ==> !(a[0] == '\n' && |x| > 1 && x[0] == '\n' && x[1] == '\n')
    ensures NoTripleNewline(a + x)
  {
    var t := a + x;
    forall k | 0 <= k && k + 2 < |t|
      ensures !TripleAt(t, k)
    {
      if k >= |a| {
        assert !TripleAt(x, k - |a|);
        assert t[k] == x[k - |a|] && t[k + 1] == x[k - |a| + 1] && t[k + 2] == x[k - |a| + 2];
      }
    }
  }

  // ------------------------------------------------ passes on concrete shapes

  /** A stretch without any character a match of `p` can start with is
      copied through unchanged. */
  lemma {:induction false} LiteralRun(p: Pass, s: string, i: nat, j: nat)
    requires i <= j <= |s|
    requires forall k :: i <= k < j ==> !Lead(p, s[k])
    ensures Rewrite(p, s, i) == s[i..j] + Rewrite(p, s, j)
    decreases j - i
  {
    if i < j {
      LiteralRun(p, s, i + 1, j);
      LiteralJoin(p, s, i, j);
    }
  }

  lemma LiteralJoin(p: Pass, s: string, i: nat, j: nat)
    requires i < j <= |s| && !Lead(p, s[i])
    requires Rewrite(p, s, i + 1) == s[i + 1..j] + Rewrite(p, s, j)
    ensures Rewrite(p, s, i) == s[i..j] + Rewrite(p, s, j)
  {
    LiteralStep(p, s, i);
    ConsSlice(s, i, j, Rewrite(p, s, i + 1), Rewrite(p, s, j));
  }

  lemma ConsSlice(s: string, i: nat, j: nat, a: string, b: string)
    requires i < j <= |s|
    requires a == s[i + 1..j] + b
    ensures [s[i]] + a == s[i..j] + b
  {
    assert s[i..j] == [s[i]] + s[i + 1..j];
  }

  /** A character no match starts with is copied. */
  lemma LiteralStep(p: Pass, s: string, i: nat)
    requires i < |s| && !Lead(p, s[i])
    ensures Rewrite(p, s, i) == [s[i]] + Rewrite(p, s, i + 1)
  {
  }

  /** A match is replaced and the scan resumes at its end. */
  lemma HitStep(p: Pass, s: string, i: nat, h: Hit)
    requires i < |s| && MatchAt(p, s, i) == Some(h)
    ensures Rewrite(p, s, i) == h.repl + Rewrite(p, s, h.end)
  {
  }

  /** Text containing no character a match of `p` can start with passes
      through `p` unchanged; in particular text without `[` is left alone by
      the link pass. */
  lemma NoLeadUnchanged(p: Pass, s: string)
    requires forall c :: c in s ==> !Lead(p, c)
    ensures Sub(p, s) == s
  {
    LiteralRun(p, s, 0, |s|);
    assert s[0..|s|] == s;
  }

  /** Where `p` matches nowhere, its scan copies the text. */
  lemma {:induction false} NoMatchUnchanged(p: Pass, s: string, i: nat)
    requires i <= |s|
    requires forall k :: i <= k < |s| ==> MatchAt(p, s, k).None?
    ensures Rewrite(p, s, i) == s[i..]
    decreases |s| - i
  {
    if i < |s| {
      NoMatchUnchanged(p, s, i + 1);
      assert s[i..] == [s[i]] + s[i + 1..];
    }
  }

  /** Text with no three newlines in a row passes the collapse unchanged. */
  lemma CollapseUnchanged(s: string)
    requires NoTripleNewline(s)
    ensures Sub(BlankLines, s) == s
  {
    forall k | 0 <= k < |s|
      ensures MatchAt(BlankLines, s, k).None?
    {
      if k + 2 < |s| {
        assert !TripleAt(s, k);
      }
    }
    NoMatchUnchanged(BlankLines, s, 0);
  }

  /** A run of three or more newlines at `i` becomes exactly two, and the
      scan resumes after the whole run. */
  lemma CollapseStep(s: string, i: nat)
    requires i < |s| && Run(s, i, '\n') >= 3
    ensures Rewrite(BlankLines, s, i) == "\n\n" + Rewrite(BlankLines, s, i + Run(s, i, '\n'))
  {
    HitStep(BlankLines, s, i, Hit(i + Run(s, i, '\n'), "\n\n"));
  }

  /** Between text without newlines, a run of `n >= 3` newlines collapses to
      exactly one blank line. */
  lemma CollapseRun(pre: string, n: nat, post: string)
    requires n >= 3 && '\n' !in pre && '\n' !in post
    ensures Sub(BlankLines, pre + Rep('\n', n) + post) == pre + "\n\n" + post
  {
    var mid := Rep('\n', n);
    var s := pre + mid + post;
    MiddleRun(pre, n, post);
    CollapseMatch(s, |pre|);
    ReplaceInContext(BlankLines, pre, mid, post, "\n\n");
  }

  lemma MiddleRun(pre: string, n: nat, post: string)
    requires n > 0 && '\n' !in post
    ensures Run(pre + Rep('\n', n) + post, |pre|, '\n') == n
  {
    var mid := Rep('\n', n);
    var s := pre + mid + post;
    MiddleWindow(pre, mid, post);
    RunInWindow(s, |pre|, mid, '\n');
    NextAfterMiddle(pre, mid, post, '\n');
    RunIs(s, |pre|, '\n', n);
  }

  lemma CollapseMatch(s: string, i: nat)
    requires i < |s| && Run(s, i, '\n') >= 3
    ensures MatchAt(BlankLines, s, i) == Some(Hit(i + Run(s, i, '\n'), "\n\n"))
  {
  }

  lemma FindFromIs(s: string, p: nat, c: char, j: nat)
    requires p <= j < |s| && s[j] == c
    requires forall k :: p <= k < j ==> s[k] != c
    ensures FindFrom(s, p, c) == Some(j)
  {
  }

  lemma FindOnLineIs(s: string, p: nat, c: char, j: nat)
    requires c != '\n'
    requires p <= j < |s| && s[j] == c
    requires forall k :: p <= k < j ==> s[k] != c && s[k] != '\n'
    ensures FindOnLine(s, p, c) == Some(j)
  {
  }

  lemma RunIs(s: string, p: nat, c: char, n: nat)
    requires p + n <= |s|
    requires forall k :: p <= k < p + n ==> s[k] == c
    requires p + n == |s| || s[p + n] != c
    ensures Run(s, p, c) == n
  {
  }

  /** A pass over `pre + mid + post` where `mid` is one match of the
      pass and `pre`, `post` hold no character a match can start with. */
  lemma ReplaceInContext(p: Pass, pre: string, mid: string, post: string, repl: string)
    requires forall c :: c in pre ==> !Lead(p, c)
    requires forall c :: c in post ==> !Lead(p, c)
    requires |mid| > 0
    requires MatchAt(p, pre + mid + post, |pre|) == Some(Hit(|pre| + |mid|, repl))
    ensures Sub(p, pre + mid + post) == pre + repl + post
  {
    var s := pre + mid + post;
    PrefixCopied(p, pre, mid, post);
    MatchThenSuffix(p, pre, mid, post, repl);
    assert Sub(p, s) == pre + (repl + post);
  }

  /** The scan copies `pre` and then reaches the start of `mid`. */
  lemma PrefixCopied(p: Pass, pre: string, mid: string, post: string)
    requires forall c :: c in pre ==> !Lead(p, c)
    ensures Sub(p, pre + mid + post) == pre + Rewrite(p, pre + mid + post, |pre|)
  {
    var s := pre + mid + post;
    forall n | 0 <= n < |pre| ensures !Lead(p, s[n]) {
      assert s[n] == pre[n];
      assert s[n] in pre;
    }
    LiteralRun(p, s, 0, |pre|);
    assert s[0..|pre|] == pre;
  }

  /** From the start of `mid` the scan replaces the match and copies `post`. */
  lemma MatchThenSuffix(p: Pass, pre: string, mid: string, post: string, repl: string)
    requires forall c :: c in post ==> !Lead(p, c)
    requires |mid| > 0
    requires MatchAt(p, pre + mid + post, |pre|) == Some(Hit(|pre| + |mid|, repl))
    ensures Rewrite(p, pre + mid + post, |pre|) == repl + post
  {
    var s := pre + mid + post;
    var e := |pre| + |mid|;
    HitStep(p, s, |pre|, Hit(e, repl));
    SuffixCopied(p, pre + mid, post);
  }

  /** Once the scan is past `a`, a `b` free of leading characters is copied. */
  lemma SuffixCopied(p: Pass, a: string, b: string)
    requires forall c :: c in b ==> !Lead(p, c)
    ensures Rewrite(p, a + b, |a|) == b
  {
    var s := a + b;
    forall n | |a| <= n < |s| ensures !Lead(p, s[n]) {
      assert s[n] == b[n - |a|];
      assert s[n] in b;
    }
    LiteralRun(p, s, |a|, |s|);
    EndStep(p, s);
    assert s[|a|..|s|] == b;
  }

  lemma EndStep(p: Pass, s: string)
    ensures Rewrite(p, s, |s|) == []
  {
  }

  // ------------------------------------------------ windows into a string

  /** A piece of a window is the matching piece of the string. */
  lemma WindowPiece(s: string, i: nat, w: string, lo: nat, hi: nat)
    requires i + |w| <= |s| && s[i..i + |w|] == w
    requires lo <= hi <= |w|
    ensures s[i + lo..i + hi] == w[lo..hi]
  {
    forall k | 0 <= k < hi - lo
      ensures s[i + lo..i + hi][k] == w[lo..hi][k]
    {
      assert s[i + lo..i + hi][k] == s[i..i + |w|][lo + k];
    }
  }

  /** One character of a window. */
  lemma WindowChar(s: string, i: nat, w: string, n: nat)
    requires i + |w| <= |s| && s[i..i + |w|] == w
    requires n < |w|
    ensures s[i + n] == w[n]
  {
    assert s[i + n] == s[i..i + |w|][n];
  }

  /** A character missing from `t` is missing from where `t` sits in `s`. */
  lemma AbsentInWindow(s: string, lo: nat, t: string, c: char)
    requires lo + |t| <= |s| && s[lo..lo + |t|] == t
    requires c !in t
    ensures forall n :: lo <= n < lo + |t| ==> s[n] != c
  {
    forall n | lo <= n < lo + |t|
      ensures s[n] != c
    {
      assert s[n] == t[n - lo];
      assert t[n - lo] in t;
    }
  }

  /** `[t](u)` at index `i` of `s` is one link match, replaced by `t`. */
  lemma LinkMatch(s: string, i: nat, t: string, u: string)
    requires |t| > 0 && ']' !in t
    requires |u| > 0 && ')' !in u
    requires i + |t| + |u| + 4 <= |s|
    requires s[i..i + |t| + |u| + 4] == "[" + t + "](" + u + ")"
    ensures MatchAt(Link, s, i) == Some(Hit(i + |t| + |u| + 4, t))
  {
    var j := i + 1 + |t|;
    var k := j + 2 + |u|;
    LinkShape(s, i, t, u);
    AbsentInWindow(s, i + 1, t, ']');
    FindFromIs(s, i + 1, ']', j);
    AbsentInWindow(s, j + 2, u, ')');
    FindFromIs(s, j + 2, ')', k);
  }

  /** Where the pieces of `[t](u)` sit in `s`. */
  lemma LinkShape(s: string, i: nat, t: string, u: string)
    requires i + |t| + |u| + 4 <= |s|
    requires s[i..i + |t| + |u| + 4] == "[" + t + "](" + u + ")"
    ensures s[i] == '[' && s[i + 1 + |t|] == ']' && s[i + 2 + |t|] == '('
    ensures s[i + 3 + |t| + |u|] == ')'
    ensures s[i + 1..i + 1 + |t|] == t && s[i + 3 + |t|..i + 3 + |t| + |u|] == u
  {
    var w := "[" + t + "](" + u + ")";
    LinkWord(t, u);
    WindowChar(s, i, w, 0);
    WindowChar(s, i, w, 1 + |t|);
    WindowChar(s, i, w, 2 + |t|);
    WindowChar(s, i, w, 3 + |t| + |u|);
    WindowPiece(s, i, w, 1, 1 + |t|);
    WindowPiece(s, i, w, 3 + |t|, 3 + |t| + |u|);
  }

  lemma LinkWord(t: string, u: string)
    ensures var w := "[" + t + "](" + u + ")";
      && |w| == |t| + |u| + 4
      && w[0] == '[' && w[1 + |t|] == ']' && w[2 + |t|] == '(' && w[3 + |t| + |u|] == ')'
      && w[1..1 + |t|] == t && w[3 + |t|..3 + |t| + |u|] == u
  {
  }

  /** The link pass turns `[t](u)` into `t` when `t` is non-empty without
      `]` and `u` is non-empty without `)`; text around it without `[` is
      kept as it is. */
  lemma LinkReplaced(pre: string, t: string, u: string, post: string)
    requires '[' !in pre && '[' !in post
    requires |t| > 0 && ']' !in t
    requires |u| > 0 && ')' !in u
    ensures Sub(Link, pre + "[" + t + "](" + u + ")" + post) == pre + t + post
  {
    var mid := "[" + t + "](" + u + ")";
    var s := pre + mid + post;
    MiddleWindow(pre, mid, post);
    LinkMatch(s, |pre|, t, u);
    ReplaceInContext(Link, pre, mid, post, t);
    Regroup5(pre, "[", t, "](", u, ")", post);
  }

  lemma Regroup5(pre: string, a: string, b: string, c: string, d: string, e: string, post: string)
    ensures pre + a + b + c + d + e + post == pre + (a + b + c + d + e) + post
  {
  }

  lemma Regroup3(pre: string, a: string, b: string, c: string, post: string)
    ensures pre + a + b + c + post == pre + (a + b + c) + post
  {
  }

  /** `mid` is the window of `pre + mid + post` just after `pre`. */
  lemma MiddleWindow(pre: string, mid: string, post: string)
    ensures (pre + mid + post)[|pre|..|pre| + |mid|] == mid
  {
  }

  /** `n` copies of `c`. */
  function Rep(c: char, n: nat): (r: string)
    ensures |r| == n
    ensures forall k :: 0 <= k < n ==> r[k] == c
  {
    seq(n, _ => c)
  }

  /** No `#` starts a line of `t` after its first character. */
  predicate NoHashAtLineStart(t: string) {
    forall k :: 0 < k < |t| && t[k - 1] == '\n' ==> t[k] != '#'
  }

  /** One to six `#` at the start of the text followed by whitespace are
      removed together with all of that whitespace. The rest of the text is
      kept as long as no further line of it starts with `#`: neither a line
      inside it, nor its first line when the whitespace ends in a newline. */
  lemma HeadingMarkerRemoved(h: nat, ws: string, rest: string)
    requires 1 <= h <= 6
    requires |ws| > 0 && forall k :: 0 <= k < |ws| ==> IsSpace(ws[k])
    requires rest == [] || !IsSpace(rest[0])
    requires NoHashAtLineStart(rest)
    requires ws[|ws| - 1] == '\n' && |rest| > 0 ==> rest[0] != '#'
    ensures Sub(Heading, Rep('#', h) + ws + rest) == rest
  {
    var mid := Rep('#', h) + ws;
    var s := mid + rest;
    HeadingScan(h, ws, rest);
    HeadingHit(s, h, |ws|);
    HitStep(Heading, s, 0, Hit(|mid|, []));
    MarkerEnd(h, ws);
    AfterMarkerCopied(mid, rest);
  }

  /** The marker is `h + |ws|` long and ends with the whitespace's last
      character. */
  lemma MarkerEnd(h: nat, ws: string)
    requires |ws| > 0
    ensures |Rep('#', h) + ws| == h + |ws|
    ensures (Rep('#', h) + ws)[h + |ws| - 1] == ws[|ws| - 1]
  {
  }

  /** After the marker, the heading pass finds nothing more in `rest`. */
  lemma AfterMarkerCopied(mid: string, rest: string)
    requires |mid| > 0
    requires NoHashAtLineStart(rest)
    requires mid[|mid| - 1] == '\n' && |rest| > 0 ==> rest[0] != '#'
    ensures Rewrite(Heading, mid + rest, |mid|) == rest
  {
    var s := mid + rest;
    assert s[|mid|..] == rest;
    assert s[|mid| - 1] == mid[|mid| - 1];
    TailHasNoHeading(s, |mid|, rest);
    NoMatchUnchanged(Heading, s, |mid|);
  }

  /** Where `s` ends with `rest` after index `lo`, the heading pattern matches
      nowhere in `rest` unless one of its lines starts with `#`. */
  lemma TailHasNoHeading(s: string, lo: nat, rest: string)
    requires 0 < lo <= |s| && s[lo..] == rest
    requires NoHashAtLineStart(rest)
    requires s[lo - 1] == '\n' && |rest| > 0 ==> rest[0] != '#'
    ensures forall k :: lo <= k < |s| ==> MatchAt(Heading, s, k).None?
  {
    forall k | lo <= k < |s|
      ensures MatchAt(Heading, s, k).None?
    {
      assert s[k] == rest[k - lo];
      if k > lo {
        assert s[k - 1] == rest[k - 1 - lo];
      }
      NoHeadingAt(s, k);
    }
  }

  lemma NoHeadingAt(s: string, k: nat)
    requires k < |s| && (s[k] != '#' || (k > 0 && s[k - 1] != '\n'))
    ensures MatchAt(Heading, s, k).None?
  {
  }

  /** What the heading matcher's helpers find at the start of that text. */
  lemma HeadingScan(h: nat, ws: string, rest: string)
    requires |ws| > 0 && forall k :: 0 <= k < |ws| ==> IsSpace(ws[k])
    requires rest == [] || !IsSpace(rest[0])
    ensures var s := Rep('#', h) + ws + rest;
      Run(s, 0, '#') == h && SpaceRun(s, h) == |ws|
  {
    var s := Rep('#', h) + ws + rest;
    var e := h + |ws|;
    RunIs(s, 0, '#', h);
    forall k | h <= k < e ensures IsSpace(s[k]) {
      assert s[k] == ws[k - h];
    }
    assert e < |s| ==> s[e] == rest[0];
    SpaceRunIs(s, h, |ws|);
  }

  lemma HeadingHit(s: string, h: nat, n: nat)
    requires 1 <= h <= 6 && n >= 1 && 0 < |s|
    requires Run(s, 0, '#') == h && SpaceRun(s, h) == n
    ensures MatchAt(Heading, s, 0) == Some(Hit(h + n, []))
  {
  }

  /** Seven or more `#` at a line start are never a heading marker. */
  lemma SevenHashesKept(s: string, i: nat)
    requires i + 7 <= |s|
    requires forall k :: i <= k < i + 7 ==> s[k] == '#'
    ensures MatchAt(Heading, s, i).None?
  {
  }

  lemma SpaceRunIs(s: string, p: nat, n: nat)
    requires p + n <= |s|
    requires forall k :: p <= k < p + n ==> IsSpace(s[k])
    requires p + n == |s| || !IsSpace(s[p + n])
    ensures SpaceRun(s, p) == n
  {
  }

  /** `k` markers (one to three), a non-empty one-line text without the
      marker, and `k` markers again: the markers go, the text stays. */
  lemma EmphasisRemoved(pre: string, m: char, k: nat, t: string, post: string)
    requires m == '*' || m == '_'
    requires 1 <= k <= 3
    requires m !in pre && m !in post
    requires |t| > 0 && m !in t && '\n' !in t
    ensures Sub(if m == '*' then StarEmphasis else UnderscoreEmphasis,
                pre + Rep(m, k) + t + Rep(m, k) + post) == pre + t + post
  {
    var p := if m == '*' then StarEmphasis else UnderscoreEmphasis;
    var mid := Rep(m, k) + t + Rep(m, k);
    var s := pre + mid + post;
    MiddleWindow(pre, mid, post);
    NextAfterMiddle(pre, mid, post, m);
    EmphasisMatch(s, |pre|, m, k, t);
    ReplaceInContext(p, pre, mid, post, t);
    Regroup3(pre, Rep(m, k), t, Rep(m, k), post);
  }

  /** What follows `mid` in `pre + mid + post` is the start of `post`. */
  lemma NextAfterMiddle(pre: string, mid: string, post: string, c: char)
    requires c !in post
    ensures var s := pre + mid + post;
      |pre| + |mid| == |s| || s[|pre| + |mid|] != c
  {
    var s := pre + mid + post;
    if |post| > 0 {
      assert s[|pre| + |mid|] == post[0];
      assert post[0] in post;
    }
  }

  /** The emphasis match at `i` when `s[i..]` starts with `k` markers, the
      text and `k` markers, and no further marker follows. */
  lemma EmphasisMatch(s: string, i: nat, m: char, k: nat, t: string)
    requires m == '*' || m == '_'
    requires 1 <= k <= 3
    requires |t| > 0 && m !in t && '\n' !in t
    requires i + 2 * k + |t| <= |s|
    requires s[i..i + 2 * k + |t|] == Rep(m, k) + t + Rep(m, k)
    requires i + 2 * k + |t| == |s| || s[i + 2 * k + |t|] != m
    ensures MatchAt(if m == '*' then StarEmphasis else UnderscoreEmphasis, s, i)
            == Some(Hit(i + 2 * k + |t|, t))
  {
    var q := i + k + |t|;
    EmphasisScan(s, i, m, k, t);
    OpenHit(s, i, m, k, q);
    EmphasisAtRun(s, i, m, k);
    MatchAtEmphasis(s, i, m);
  }

  /** What the helpers of the emphasis matcher find on that shape. */
  lemma EmphasisScan(s: string, i: nat, m: char, k: nat, t: string)
    requires m == '*' || m == '_'
    requires 1 <= k <= 3
    requires |t| > 0 && m !in t && '\n' !in t
    requires i + 2 * k + |t| <= |s|
    requires s[i..i + 2 * k + |t|] == Rep(m, k) + t + Rep(m, k)
    requires i + 2 * k + |t| == |s| || s[i + 2 * k + |t|] != m
    ensures Run(s, i, m) == k && Run(s, i + k + |t|, m) == k
    ensures FindOnLine(s, i + k, m) == Some(i + k + |t|)
    ensures s[i + k..i + k + |t|] == t
  {
    var q := i + k + |t|;
    EmphasisPieces(s, i, m, k, t);
    DelimitedRuns(s, m, i, i + k, q, q + k);
  }

  /** A run of `m` on `[a, b)`, a stretch without `m` or newline on
      `[b, c)`, and a maximal run of `m` on `[c, d)`. */
  lemma DelimitedRuns(s: string, m: char, a: nat, b: nat, c: nat, d: nat)
    requires m != '\n' && a <= b < c < d <= |s|
    requires forall n :: a <= n < b ==> s[n] == m
    requires forall n :: b <= n < c ==> s[n] != m && s[n] != '\n'
    requires forall n :: c <= n < d ==> s[n] == m
    requires d == |s| || s[d] != m
    ensures Run(s, a, m) == b - a && Run(s, c, m) == d - c
    ensures FindOnLine(s, b, m) == Some(c)
  {
    FindOnLineIs(s, b, m, c);
    RunIs(s, a, m, b - a);
    RunIs(s, c, m, d - c);
  }

  lemma OpenHit(s: string, i: nat, m: char, k: nat, q: nat)
    requires m != '\n' && i <= |s| && 1 <= k <= 3 && k <= Run(s, i, m)
    requires i + k <= q <= |s| && FindOnLine(s, i + k, m) == Some(q)
    requires Run(s, q, m) == k
    ensures EmphasisOpen(s, i, m, k) == Some(Hit(q + k, s[i + k..q]))
  {
  }

  lemma EmphasisAtRun(s: string, i: nat, m: char, k: nat)
    requires m != '\n' && i < |s| && 1 <= k <= 3 && Run(s, i, m) == k
    ensures EmphasisAt(s, i, m) == EmphasisOpen(s, i, m, k)
  {
  }

  lemma MatchAtEmphasis(s: string, i: nat, m: char)
    requires (m == '*' || m == '_') && i < |s|
    ensures MatchAt(if m == '*' then StarEmphasis else UnderscoreEmphasis, s, i) == EmphasisAt(s, i, m)
  {
  }

  lemma EmphasisPieces(s: string, i: nat, m: char, k: nat, t: string)
    requires 1 <= k <= 3
    requires |t| > 0 && m !in t && '\n' !in t
    requires i + 2 * k + |t| <= |s|
    requires s[i..i + 2 * k + |t|] == Rep(m, k) + t + Rep(m, k)
    ensures forall n :: i <= n < i + k ==> s[n] == m
    ensures forall n :: i + k <= n < i + k + |t| ==> s[n] != m && s[n] != '\n'
    ensures forall n :: i + k + |t| <= n < i + 2 * k + |t| ==> s[n] == m
    ensures s[i + k..i + k + |t|] == t
  {
    var w := Rep(m, k) + t + Rep(m, k);
    var q := i + k + |t|;
    EmphasisWord(m, k, t);
    WindowPiece(s, i, w, 0, k);
    WindowPiece(s, i, w, k, k + |t|);
    WindowPiece(s, i, w, k + |t|, |w|);
    RunInWindow(s, i, Rep(m, k), m);
    RunInWindow(s, q, Rep(m, k), m);
    AbsentInWindow(s, i + k, t, m);
    AbsentInWindow(s, i + k, t, '\n');
  }

  lemma EmphasisWord(m: char, k: nat, t: string)
    ensures var w := Rep(m, k) + t + Rep(m, k);
      && |w| == 2 * k + |t|
      && w[0..k] == Rep(m, k) && w[k..k + |t|] == t && w[k + |t|..|w|] == Rep(m, k)
  {
  }

  /** Where `s` holds a window of `c`s, every index in it holds `c`. */
  lemma RunInWindow(s: string, lo: nat, w: string, c: char)
    requires lo + |w| <= |s| && s[lo..lo + |w|] == w
    requires forall n :: 0 <= n < |w| ==> w[n] == c
    ensures forall n :: lo <= n < lo + |w| ==> s[n] == c
  {
    forall n | lo <= n < lo + |w|
      ensures s[n] == c
    {
      assert s[n] == w[n - lo];
    }
  }

  /** The lazy `.*?` of the image pattern walks past characters other than
      `]` and newline without deciding anything. */
  lemma {:induction false} ImageTailSkips(s: string, j0: nat, j: nat)
    requires j0 <= j <= |s|
    requires forall k :: j0 <= k < j ==> s[k] != ']' && s[k] != '\n'
    ensures ImageTail(s, j0) == ImageTail(s, j)
    decreases j - j0
  {
    if j0 < j {
      ImageTailSkips(s, j0 + 1, j);
    }
  }

  /** `` `t` `` at index `i` of `s`, with `t` non-empty and free of
      backticks, is one inline-code match, replaced by `t`. */
  lemma InlineCodeMatch(s: string, i: nat, t: string)
    requires |t| > 0 && '`' !in t
    requires i + |t| + 2 <= |s|
    requires s[i..i + |t| + 2] == "`" + t + "`"
    ensures MatchAt(InlineCode, s, i) == Some(Hit(i + |t| + 2, t))
  {
    var w := "`" + t + "`";
    CodeWord(t);
    WindowChar(s, i, w, 0);
    WindowChar(s, i, w, 1 + |t|);
    WindowPiece(s, i, w, 1, 1 + |t|);
    AbsentInWindow(s, i + 1, t, '`');
    FindFromIs(s, i + 1, '`', i + 1 + |t|);
  }

  lemma CodeWord(t: string)
    ensures var w := "`" + t + "`";
      && |w| == |t| + 2 && w[0] == '`' && w[1 + |t|] == '`' && w[1..1 + |t|] == t
  {
  }

  /** The inline-code pass turns `` `t` `` into `t` when `t` is non-empty
      without backticks; text around it without backticks is kept. */
  lemma InlineCodeReplaced(pre: string, t: string, post: string)
    requires '`' !in pre && '`' !in post
    requires |t| > 0 && '`' !in t
    ensures Sub(InlineCode, pre + "`" + t + "`" + post) == pre + t + post
  {
    var mid := "`" + t + "`";
    var s := pre + mid + post;
    MiddleWindow(pre, mid, post);
    InlineCodeMatch(s, |pre|, t);
    ReplaceInContext(InlineCode, pre, mid, post, t);
    Regroup3(pre, "`", t, "`", post);
  }

  /** `![alt](url)` at index `i` of `s`, with one-line `alt` and `url`
      holding no `]` and no `)` respectively, is one image match. */
  lemma ImageMatch(s: string, i: nat, alt: string, url: string)
    requires ']' !in alt && '\n' !in alt
    requires ')' !in url && '\n' !in url
    requires i + |alt| + |url| + 5 <= |s|
    requires s[i..i + |alt| + |url| + 5] == "![" + alt + "](" + url + ")"
    ensures MatchAt(Image, s, i) == Some(Hit(i + |alt| + |url| + 5, []))
  {
    var j := i + 2 + |alt|;
    var k := j + 2 + |url|;
    ImageScan(s, i, alt, url);
    ImageTailHit(s, j, k);
    ImageHit(s, i, j, k);
  }

  /** Where the pieces of `![alt](url)` sit, and what the lazy scans find. */
  lemma ImageScan(s: string, i: nat, alt: string, url: string)
    requires ']' !in alt && '\n' !in alt
    requires ')' !in url && '\n' !in url
    requires i + |alt| + |url| + 5 <= |s|
    requires s[i..i + |alt| + |url| + 5] == "![" + alt + "](" + url + ")"
    ensures var j := i + 2 + |alt|;
      && s[i] == '!' && s[i + 1] == '[' && s[j] == ']' && s[j + 1] == '('
      && ImageTail(s, i + 2) == ImageTail(s, j)
      && FindOnLine(s, j + 2, ')') == Some(j + 2 + |url|)
  {
    var j := i + 2 + |alt|;
    var k := j + 2 + |url|;
    ImageShape(s, i, alt, url);
    AbsentInWindow(s, i + 2, alt, ']');
    AbsentInWindow(s, i + 2, alt, '\n');
    ImageTailSkips(s, i + 2, j);
    AbsentInWindow(s, j + 2, url, ')');
    AbsentInWindow(s, j + 2, url, '\n');
    FindOnLineIs(s, j + 2, ')', k);
  }

  /** Where the pieces of `![alt](url)` sit in `s`. */
  lemma ImageShape(s: string, i: nat, alt: string, url: string)
    requires i + |alt| + |url| + 5 <= |s|
    requires s[i..i + |alt| + |url| + 5] == "![" + alt + "](" + url + ")"
    ensures var j := i + 2 + |alt|;
      && s[i] == '!' && s[i + 1] == '[' && s[j] == ']' && s[j + 1] == '('
      && s[j + 2 + |url|] == ')'
      && s[i + 2..j] == alt && s[j + 2..j + 2 + |url|] == url
  {
    var w := "![" + alt + "](" + url + ")";
    ImageWord(alt, url);
    WindowChar(s, i, w, 0);
    WindowChar(s, i, w, 1);
    WindowChar(s, i, w, 2 + |alt|);
    WindowChar(s, i, w, 3 + |alt|);
    WindowChar(s, i, w, 4 + |alt| + |url|);
    WindowPiece(s, i, w, 2, 2 + |alt|);
    WindowPiece(s, i, w, 4 + |alt|, 4 + |alt| + |url|);
  }

  lemma ImageWord(alt: string, url: string)
    ensures var w := "![" + alt + "](" + url + ")";
      && |w| == |alt| + |url| + 5
      && w[0] == '!' && w[1] == '[' && w[2 + |alt|] == ']' && w[3 + |alt|] == '('
      && w[4 + |alt| + |url|] == ')'
      && w[2..2 + |alt|] == alt && w[4 + |alt|..4 + |alt| + |url|] == url
  {
  }

  lemma ImageTailHit(s: string, j: nat, k: nat)
    requires j + 2 <= k < |s| && s[j] == ']' && s[j + 1] == '('
    requires FindOnLine(s, j + 2, ')') == Some(k)
    ensures ImageTail(s, j) == Some(k + 1)
  {
  }

  lemma ImageHit(s: string, i: nat, j: nat, k: nat)
    requires i + 2 <= j <= k < |s| && s[i] == '!' && s[i + 1] == '['
    requires ImageTail(s, i + 2) == ImageTail(s, j) == Some(k + 1)
    ensures MatchAt(Image, s, i) == Some(Hit(k + 1, []))
  {
  }

  /** An image reference `![alt](url)` is removed entirely, URL included,
      when `alt` has no `]`, `url` has no `)`, neither spans a line, and the
      text around it has no `!`. */
  lemma ImageRemoved(pre: string, alt: string, url: string, post: string)
    requires '!' !in pre && '!' !in post
    requires ']' !in alt && '\n' !in alt
    requires ')' !in url && '\n' !in url
    ensures Sub(Image, pre + "![" + alt + "](" + url + ")" + post) == pre + post
  {
    var mid := "![" + alt + "](" + url + ")";
    var s := pre + mid + post;
    MiddleWindow(pre, mid, post);
    ImageMatch(s, |pre|, alt, url);
    ReplaceInContext(Image, pre, mid, post, []);
    Regroup5(pre, "![", alt, "](", url, ")", post);
    assert pre + [] + post == pre + post;
  }
}
