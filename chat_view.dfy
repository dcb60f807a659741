/**
 * The chat panel's rules: when a message may be submitted, which placeholder is shown, and how
 * a message's text becomes HTML (links, then bold, then line breaks), following the matching
 * rules of JavaScript's global, non-greedy regular-expression replacement.
 */
module ChatView {
  import opened Wrappers
  import opened Strings

  const AnalyzingPlaceholder := "Analyzing document..."
  const ThinkingPlaceholder := "Marve is thinking..."
  const ReportPlaceholder := "Ask about the data in the dashboard..."
  const DefaultPlaceholder := "Ask a financial question..."

  /** Both the input and the send button are disabled while either request is running. */
  function IsChatDisabled(isLoading: bool, isChatLoading: bool): (d: bool)
    ensures d <==> isLoading || isChatLoading
  {
    isLoading || isChatLoading
  }

  /** The send button is also disabled while the input is blank. */
  function SendDisabled(isLoading: bool, isChatLoading: bool, input: string): (d: bool)
    ensures !d <==> !isLoading && !isChatLoading && !AllSpace(input)
  {
    TrimEmptyIff(input);
    IsChatDisabled(isLoading, isChatLoading) || Trim(input) == ""
  }

  /** The condition under which `handleSubmit` sends: a non-blank input and no request running. */
  predicate SubmitAccepted(input: string, isChatLoading: bool, isLoading: bool)
  {
    Trim(input) != "" && !isChatLoading && !isLoading
  }

  /** The send button is enabled exactly when pressing it would send the message. */
  lemma ButtonMatchesSubmit(input: string, isChatLoading: bool, isLoading: bool)
    ensures !SendDisabled(isLoading, isChatLoading, input) <==> SubmitAccepted(input, isChatLoading, isLoading)
  {
    TrimEmptyIff(input);
  }

  /** The placeholder: analysis loading first, then chat loading, then whether a report is shown. */
  function PlaceholderText(isLoading: bool, isChatLoading: bool, hasReport: bool): (p: string)
    ensures isLoading ==> p == AnalyzingPlaceholder
    ensures !isLoading && isChatLoading ==> p == ThinkingPlaceholder
    ensures !isLoading && !isChatLoading && hasReport ==> p == ReportPlaceholder
    ensures !isLoading && !isChatLoading && !hasReport ==> p == DefaultPlaceholder
  {
    if isLoading then AnalyzingPlaceholder
    else if isChatLoading then ThinkingPlaceholder
    else if hasReport then ReportPlaceholder
    else DefaultPlaceholder
  }

  /** A disabled input always explains itself: it shows one of the two loading placeholders. */
  lemma DisabledShowsLoadingPlaceholder(isLoading: bool, isChatLoading: bool, hasReport: bool)
    ensures IsChatDisabled(isLoading, isChatLoading) <==>
      PlaceholderText(isLoading, isChatLoading, hasReport) in {AnalyzingPlaceholder, ThinkingPlaceholder}
  {
    assert AnalyzingPlaceholder[0] == 'A' && ThinkingPlaceholder[0] == 'M';
    assert ReportPlaceholder[4] == 'a' && DefaultPlaceholder[4] == 'a';
    assert AnalyzingPlaceholder[4] == 'y';
  }

  /** The message input. */
  class ChatInput {
    var input: string

    constructor ()
      ensures input == ""
    {
      input := "";
    }

    /** `handleSubmit`: hands the input to the sender and clears it, or does nothing. */
    method Submit(isChatLoading: bool, isLoading: bool) returns (sent: Option<string>)
      modifies this
      ensures SubmitAccepted(old(input), isChatLoading, isLoading) ==> sent == Some(old(input)) && input == ""
      ensures !SubmitAccepted(old(input), isChatLoading, isLoading) ==> sent == None && input == old(input)
    {
      if Trim(input) != "" && !isChatLoading && !isLoading {
        sent := Some(input);
        input := "";
      } else {
        sent := None;
      }
    }
  }

  /** No line terminator: the text a regular-expression `.` can run over. */
  predicate Plain(s: string)
  {
    forall i :: 0 <= i < |s| ==> !IsLineTerminator(s[i])
  }

  /** No line terminator among the first `k` characters. */
  predicate PlainBefore(s: string, k: nat)
    requires k <= |s|
  {
    forall i :: 0 <= i < k ==> !IsLineTerminator(s[i])
  }

  /**
   * The non-greedy `(.*?)\)` of the link pattern: the text up to the first `)`, and what follows
   * it, provided no line terminator comes first.
   */
  function CloseParen(s: string): (r: Option<(string, string)>)
    ensures r.Some? ==> s == r.value.0 + ")" + r.value.1 && Plain(r.value.0) && ')' !in r.value.0
    ensures r.None? ==> forall k :: 0 <= k < |s| && s[k] == ')' ==> !PlainBefore(s, k)
  {
    if s == [] then None
    else if s[0] == ')' then Some(("", s[1..]))
    else if IsLineTerminator(s[0]) then None
    else
      match CloseParen(s[1..])
      case None =>
        None
      case Some((url, rest)) =>
        assert s == [s[0]] + url + ")" + rest;
        Some(([s[0]] + url, rest))
  }

  /** A link match: the bracketed text, the parenthesised target, and the text after it. */
  datatype LinkMatch = LinkMatch(text: string, url: string, rest: string)

  /** `](` followed by a target that closes before the line ends. */
  predicate LinkBody(s: string)
  {
    |s| >= 2 && s[0] == ']' && s[1] == '(' && CloseParen(s[2..]).Some?
  }

  /**
   * The rest of the link pattern after its `[`: the shortest text before a `](` whose target
   * closes, with that target.
   */
  function LinkAfterBracket(s: string): (r: Option<LinkMatch>)
    ensures r.Some? ==>
      s == r.value.text + "](" + r.value.url + ")" + r.value.rest &&
      Plain(r.value.text) && Plain(r.value.url) && ')' !in r.value.url &&
      forall m :: 0 <= m < |r.value.text| ==> !LinkBody(s[m..])
    ensures r.None? ==> forall m :: 0 <= m < |s| && PlainBefore(s, m) ==> !LinkBody(s[m..])
  {
    if |s| < 2 then None
    else if s[0] == ']' && s[1] == '(' && CloseParen(s[2..]).Some? then
      var (url, rest) := CloseParen(s[2..]).value;
      assert s == "" + "](" + url + ")" + rest;
      Some(LinkMatch("", url, rest))
    else if IsLineTerminator(s[0]) then None
    else
      match LinkAfterBracket(s[1..])
      case None =>
        NoLinkStep(s);
        None
      case Some(t) =>
        LinkStep(s, t);
        Some(LinkMatch([s[0]] + t.text, t.url, t.rest))
  }

  /** No link starts at the front, so a link found after the first character is the shortest one. */
  lemma LinkStep(s: string, t: LinkMatch)
    requires |s| >= 2 && !LinkBody(s) && !IsLineTerminator(s[0])
    requires s[1..] == t.text + "](" + t.url + ")" + t.rest && Plain(t.text)
    requires forall m :: 0 <= m < |t.text| ==> !LinkBody(s[1..][m..])
    ensures s == [s[0]] + t.text + "](" + t.url + ")" + t.rest
    ensures Plain([s[0]] + t.text)
    ensures forall m :: 0 <= m < |t.text| + 1 ==> !LinkBody(s[m..])
  {
    assert s == [s[0]] + s[1..];
    forall m | 1 <= m < |t.text| + 1
      ensures !LinkBody(s[m..])
    {
      assert s[1..][m - 1..] == s[m..];
    }
  }

  /** No link starts at the front nor after it, so none starts anywhere on the first line. */
  lemma NoLinkStep(s: string)
    requires |s| >= 2 && !LinkBody(s)
    requires forall m :: 0 <= m < |s[1..]| && PlainBefore(s[1..], m) ==> !LinkBody(s[1..][m..])
    ensures forall m :: 0 <= m < |s| && PlainBefore(s, m) ==> !LinkBody(s[m..])
  {
    forall m | 1 <= m < |s| && PlainBefore(s, m)
      ensures !LinkBody(s[m..])
    {
      assert PlainBefore(s[1..], m - 1);
      assert s[1..][m - 1..] == s[m..];
    }
  }

  /** The replacement for one link. */
  function Anchor(text: string, url: string): string
  {
    "<a href=\"" + url + "\" target=\"_blank\" rel=\"noopener noreferrer\" class=\"text-accent hover:underline\">" + text + "</a>"
  }

  /** `replace(/\[(.*?)\]\((.*?)\)/g, …)`: each leftmost link match, left to right. */
  function RewriteLinks(s: string): string
    decreases |s|
  {
    if s == [] then ""
    else if s[0] == '[' && LinkAfterBracket(s[1..]).Some? then
      var m := LinkAfterBracket(s[1..]).value;
      Anchor(m.text, m.url) + RewriteLinks(m.rest)
    else [s[0]] + RewriteLinks(s[1..])
  }

  /** The non-greedy `(.*?)\*\*` of the bold pattern: the text up to the first `**` on the line. */
  function CloseStars(s: string): (r: Option<(string, string)>)
    ensures r.Some? ==>
      s == r.value.0 + "**" + r.value.1 && Plain(r.value.0) &&
      forall m :: 0 <= m < |r.value.0| ==> !(s[m] == '*' && s[m + 1] == '*')
    ensures r.None? ==> forall m :: 0 <= m < |s| - 1 && PlainBefore(s, m) ==> !(s[m] == '*' && s[m + 1] == '*')
  {
    if |s| < 2 then None
    else if s[0] == '*' && s[1] == '*' then
      assert s == "" + "**" + s[2..];
      Some(("", s[2..]))
    else if IsLineTerminator(s[0]) then None
    else
      match CloseStars(s[1..])
      case None =>
        None
      case Some((x, rest)) =>
        assert s == [s[0]] + x + "**" + rest;
        Some(([s[0]] + x, rest))
  }

  /** The replacement for one bold span. */
  function Strong(x: string): string
  {
    "<strong>" + x + "</strong>"
  }

  /** The global bold replacement with `<strong>$1</strong>`: each leftmost bold match, left to right. */
  function RewriteBold(s: string): string
    decreases |s|
  {
    if s == [] then ""
    else if |s| >= 2 && s[0] == '*' && s[1] == '*' && CloseStars(s[2..]).Some? then
      var (x, rest) := CloseStars(s[2..]).value;
      Strong(x) + RewriteBold(rest)
    else [s[0]] + RewriteBold(s[1..])
  }

  /** `replace(/\n/g, '<br />')`: every line feed becomes a break tag, and none is left. */
  function ReplaceNewlines(s: string): (r: string)
    ensures '\n' !in r
  {
    if s == [] then ""
    else if s[0] == '\n' then "<br />" + ReplaceNewlines(s[1..])
    else [s[0]] + ReplaceNewlines(s[1..])
  }

  /** A line feed becomes `<br />`, with the text before it kept and the text after it replaced in turn. */
  lemma NewlineBecomesBreak(a: string, b: string)
    requires '\n' !in a
    ensures ReplaceNewlines(a + "\n" + b) == a + "<br />" + ReplaceNewlines(b)
  {
    assert a + "\n" + b == a + ("\n" + b);
    NewlinesAppend(a, "\n" + b);
    NewlinesUnchanged(a);
    assert ("\n" + b)[0] == '\n' && ("\n" + b)[1..] == b;
  }

  /** `formatContent`: links first, then bold, then line breaks; the result has no line feed. */
  function FormatContent(content: string): (html: string)
    ensures '\n' !in html
  {
    ReplaceNewlines(RewriteBold(RewriteLinks(content)))
  }

  /** Text without `[` has no link to rewrite. */
  lemma {:induction false} LinksUnchanged(s: string)
    requires '[' !in s
    ensures RewriteLinks(s) == s
  {
    if s != [] {
      assert s == [s[0]] + s[1..];
      LinksUnchanged(s[1..]);
    }
  }

  /** Text without `*` has no bold span to rewrite. */
  lemma {:induction false} BoldUnchanged(s: string)
    requires '*' !in s
    ensures RewriteBold(s) == s
  {
    if s != [] {
      assert s == [s[0]] + s[1..];
      BoldUnchanged(s[1..]);
    }
  }

  /** Text without a line feed keeps its characters. */
  lemma {:induction false} NewlinesUnchanged(s: string)
    requires '\n' !in s
    ensures ReplaceNewlines(s) == s
  {
    if s != [] {
      assert s == [s[0]] + s[1..];
      NewlinesUnchanged(s[1..]);
    }
  }

  /** Line feeds are replaced one by one, so the replacement distributes over concatenation. */
  lemma {:induction false} NewlinesAppend(a: string, b: string)
    ensures ReplaceNewlines(a + b) == ReplaceNewlines(a) + ReplaceNewlines(b)
  {
    if a == [] {
      assert a + b == b;
    } else {
      assert (a + b)[0] == a[0] && (a + b)[1..] == a[1..] + b;
      NewlinesAppend(a[1..], b);
    }
  }

  /** A message with no `[`, `*` or line feed is displayed exactly as written. */
  lemma FormatPlainUnchanged(content: string)
    requires '[' !in content && '*' !in content && '\n' !in content
    ensures FormatContent(content) == content
  {
    LinksUnchanged(content);
    BoldUnchanged(content);
    NewlinesUnchanged(content);
  }

  /** A target with no `)` on the line is read up to the `)` that follows it. */
  lemma CloseParenOf(url: string, rest: string)
    requires Plain(url) && ')' !in url
    ensures CloseParen(url + ")" + rest) == Some((url, rest))
  {
    var s := url + ")" + rest;
    assert s[..|url|] == url && s[|url|] == ')';
    var r := CloseParen(s);
    assert r.Some?;
    var (u, t) := r.value;
    assert s[..|u|] == u && s[|u|] == ')';
    assert |u| == |url|;
    assert u == url;
    assert t == s[|u| + 1..] == rest;
  }

  /**
   * `[t](u)` with no `]` and no line break in `t`, and no `)` and no line break in `u`, becomes
   * one anchor, and the rewrite carries on after the `)`.
   */
  lemma LinkRewritten(t: string, u: string, rest: string)
    requires Plain(t) && ']' !in t && Plain(u) && ')' !in u
    ensures RewriteLinks("[" + t + "](" + u + ")" + rest) == Anchor(t, u) + RewriteLinks(rest)
  {
    var s := "[" + t + "](" + u + ")" + rest;
    assert s[0] == '[' && s[1..] == t + "](" + u + ")" + rest;
    LinkAfterBracketOf(t, u, rest);
  }

  /** After the `[`, the link pattern reads exactly `t` as the text and `u` as the target. */
  lemma LinkAfterBracketOf(t: string, u: string, rest: string)
    requires Plain(t) && ']' !in t && Plain(u) && ')' !in u
    ensures LinkAfterBracket(t + "](" + u + ")" + rest) == Some(LinkMatch(t, u, rest))
  {
    var a := t + "](" + u + ")" + rest;
    assert a[..|t|] == t;
    assert a[|t|..][2..] == u + ")" + rest;
    CloseParenOf(u, rest);
    assert PlainBefore(a, |t|);
    assert LinkBody(a[|t|..]);
    var r := LinkAfterBracket(a);
    assert r.Some?;
    var m := r.value;
    assert a[..|m.text|] == m.text && a[|m.text|] == ']';
    assert |m.text| == |t|;
    assert m.text == t;
    assert a[|t|..][2..] == m.url + ")" + m.rest;
    CloseParenOf(m.url, m.rest);
  }

  /** A bold span `**x**` with no `*` and no line break in `x` becomes one strong element. */
  lemma BoldRewritten(x: string, rest: string)
    requires Plain(x) && '*' !in x
    ensures RewriteBold("**" + x + "**" + rest) == Strong(x) + RewriteBold(rest)
  {
    var s := "**" + x + "**" + rest;
    var a := s[2..];
    assert a == x + "**" + rest;
    assert a[..|x|] == x && a[|x|] == '*' && a[|x| + 1] == '*';
    assert PlainBefore(a, |x|);
    var r := CloseStars(a);
    assert r.Some?;
    var (y, t) := r.value;
    assert a[..|y|] == y && a[|y|] == '*';
    assert |y| == |x|;
    assert y == x;
    assert t == a[|x| + 2..] == rest;
    assert s[0] == '*' && s[1] == '*';
  }

  /** Text before the first `[` is copied as it is, whatever follows it. */
  lemma {:induction false} LinksAfterPlain(a: string, s: string)
    requires '[' !in a
    ensures RewriteLinks(a + s) == a + RewriteLinks(s)
  {
    if a == [] {
      assert a + s == s;
    } else {
      LinksAfterPlain(a[1..], s);
      PlainPrefixStep(a, s);
    }
  }

  /** One step of the induction: the first character of `a` is copied in front of the rest. */
  lemma PlainPrefixStep(a: string, s: string)
    requires a != [] && a[0] != '['
    requires RewriteLinks(a[1..] + s) == a[1..] + RewriteLinks(s)
    ensures RewriteLinks(a + s) == a + RewriteLinks(s)
  {
    CopiedBeforeLink(a, s);
    PrependOne(a, RewriteLinks(a + s), RewriteLinks(a[1..] + s), RewriteLinks(s));
  }

  /** Sequence bookkeeping for one copied character, kept apart from the rewriting. */
  lemma PrependOne(a: string, x: string, y: string, z: string)
    requires a != [] && x == [a[0]] + y && y == a[1..] + z
    ensures x == a + z
  {
    assert a == [a[0]] + a[1..];
  }

  /** A first character other than `[` is copied, and the scan goes on from the next one. */
  lemma CopiedBeforeLink(a: string, s: string)
    requires a != [] && a[0] != '['
    ensures RewriteLinks(a + s) == [a[0]] + RewriteLinks(a[1..] + s)
  {
    assert (a + s)[0] == a[0] && (a + s)[1..] == a[1..] + s;
  }

  /** A `[` that opens no link is copied, and the scan goes on from the next character. */
  lemma UnmatchedBracketCopied(s: string)
    requires s != [] && s[0] == '[' && LinkAfterBracket(s[1..]).None?
    ensures RewriteLinks(s) == "[" + RewriteLinks(s[1..])
  {
  }

  /** Text before the first `*` is copied as it is, whatever follows it. */
  lemma {:induction false} BoldAfterPlain(a: string, s: string)
    requires '*' !in a
    ensures RewriteBold(a + s) == a + RewriteBold(s)
  {
    if a == [] {
      assert a + s == s;
    } else {
      assert (a + s)[0] == a[0] && (a + s)[1..] == a[1..] + s;
      BoldAfterPlain(a[1..], s);
      assert a == [a[0]] + a[1..];
    }
  }

  /** A `**` with no closing `**` on its line leaves its first `*`, and the scan goes on from the second. */
  lemma UnclosedStarsCopied(s: string)
    requires |s| >= 2 && s[0] == '*' && s[1] == '*' && CloseStars(s[2..]).None?
    ensures RewriteBold(s) == "*" + RewriteBold(s[1..])
  {
  }

  /** A `*` not followed by another `*` is copied, and the scan goes on from the next character. */
  lemma LoneStarCopied(s: string)
    requires s != [] && s[0] == '*' && !(|s| >= 2 && s[1] == '*')
    ensures RewriteBold(s) == "*" + RewriteBold(s[1..])
  {
  }

  /**
   * A `**` whose closing `**` is found on its line, whatever its text holds, becomes one strong
   * element, and the scan goes on after the closing stars.
   */
  lemma BoldMatched(s: string, x: string, rest: string)
    requires |s| >= 2 && s[0] == '*' && s[1] == '*' && CloseStars(s[2..]) == Some((x, rest))
    ensures RewriteBold(s) == Strong(x) + RewriteBold(rest)
  {
  }

  /**
   * A `[` that opens a link, whatever its shortest text holds, becomes one anchor, and the scan
   * goes on after the closing `)`.
   */
  lemma LinkMatched(s: string, m: LinkMatch)
    requires s != [] && s[0] == '[' && LinkAfterBracket(s[1..]) == Some(m)
    ensures RewriteLinks(s) == Anchor(m.text, m.url) + RewriteLinks(m.rest)
  {
  }
}
