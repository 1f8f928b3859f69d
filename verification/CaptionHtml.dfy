/** Captions as HTML, server/linkify.go: `captionHTML` and a reader that undoes it. */
module CaptionHtml {
  import opened Prelude
  import opened DiscordMarkdown

  /** `html.EscapeString`, one character. */
  function Entity(c: char): (e: string)
    ensures e != ""
  {
    if c == '&' then "&amp;"
    else if c == '\'' then "&#39;"
    else if c == '<' then "&lt;"
    else if c == '>' then "&gt;"
    else if c == '"' then "&#34;"
    else [c]
  }

  /** `html.EscapeString`. */
  function Html(t: string): string { if t == "" then "" else Entity(t[0]) + Html(t[1..]) }

  /** `brHTML`. */
  function Breaks(t: string): string {
    if t == "" then "" else (if t[0] == '\n' then "<br>" else [t[0]]) + Breaks(t[1..])
  }

  const ANCHOR := "<a href=\""

  function Anchor(name: string, href: string): string { ANCHOR + Html(href) + "\">" + Html(name) + "</a>" }

  /** The HTML of `text[last..]`. */
  function HtmlFrom(text: string, spans: seq<Span>, last: nat): string
    requires last <= |text| && Ordered(spans, last, |text|)
    decreases |spans|
  {
    if spans == [] then Breaks(Html(text[last..]))
    else
      Breaks(Html(text[last..spans[0].start])) + Anchor(text[spans[0].start..spans[0].end], spans[0].href)
      + HtmlFrom(text, spans[1..], spans[0].end)
  }

  /** `captionHTML`, for the spans detected. */
  method CaptionHTML(text: string, spans: seq<Span>) returns (b: string)
    requires Ordered(spans, 0, |text|)
    ensures b == HtmlFrom(text, spans, 0)
  {
    hide Html, Breaks, Anchor;
    b := "";
    var last: nat := 0;
    ghost var whole := HtmlFrom(text, spans, 0);
    assert spans[0..] == spans && "" + whole == whole;
    for i := 0 to |spans|
      invariant last <= |text| && Ordered(spans[i..], last, |text|)
      invariant b + HtmlFrom(text, spans[i..], last) == whole
    {
      var s := spans[i];
      assert spans[i..][1..] == spans[i + 1..] && spans[i..][0] == s;
      Piecewise(b, Breaks(Html(text[last..s.start])), s, text[s.start..s.end], HtmlFrom(text, spans[i + 1..], s.end));
      b := b + Breaks(Html(text[last..s.start]));
      b := b + "<a href=\"";
      b := b + Html(s.href);
      b := b + "\">";
      b := b + Html(text[s.start..s.end]);
      b := b + "</a>";
      last := s.end;
    }
    assert spans[|spans|..] == [];
    b := b + Breaks(Html(text[last..]));
  }

  lemma Piecewise(b: string, gap: string, s: Span, name: string, rest: string)
    ensures b + (gap + Anchor(name, s.href) + rest)
         == b + gap + "<a href=\"" + Html(s.href) + "\">" + Html(name) + "</a>" + rest
  {
    hide Html;
    Seven(b, gap, ANCHOR, Html(s.href), "\">", Html(name), "</a>", rest);
  }

  lemma Seven(a: string, b: string, c: string, d: string, e: string, f: string, g: string, h: string)
    ensures a + (b + (c + d + e + f + g) + h) == a + b + c + d + e + f + g + h
  {}

  // ---------- Reading it back ----------

  /** What a browser meets. */
  datatype Token = Letter(c: char) | Open(href: string) | Close

  /** The character an entity at the head of `t` stands for, and its size. */
  function EntityAt(t: string): (r: (char, nat))
    requires t != ""
    ensures 0 < r.1 <= |t|
  {
    if "&amp;" <= t then ('&', 5)
    else if "&#39;" <= t then ('\'', 5)
    else if "&lt;" <= t then ('<', 4)
    else if "&gt;" <= t then ('>', 4)
    else if "&#34;" <= t then ('"', 5)
    else (t[0], 1)
  }

  function Unescaped(t: string): string
    decreases |t|
  {
    if t == "" then "" else [EntityAt(t).0] + Unescaped(t[EntityAt(t).1..])
  }

  function ToQuote(t: string): (n: nat)
    ensures n <= |t|
  {
    if t == "" || t[0] == '"' then 0 else 1 + ToQuote(t[1..])
  }

  /** What follows an attribute that ends at `i`. */
  function PastQuote(t: string, i: nat): (r: string)
    requires 0 < i <= |t|
    ensures |r| < |t|
  {
    if "\">" <= t[i..] then t[i + 2..] else ""
  }

  /** The opening tag at the head of `t`, and what follows it. */
  function AnchorAt(t: string): (r: (Token, string))
    requires |t| >= 9
    ensures |r.1| < |t|
  {
    var n := ToQuote(t[9..]);
    (Open(Unescaped(t[9..9 + n])), PastQuote(t, 9 + n))
  }

  function Tokens(t: string): seq<Token>
    decreases |t|
  {
    if t == "" then []
    else if "<br>" <= t then [Letter('\n')] + Tokens(t[4..])
    else if "</a>" <= t then [Close] + Tokens(t[4..])
    else if ANCHOR <= t then [AnchorAt(t).0] + Tokens(AnchorAt(t).1)
    else [Letter(EntityAt(t).0)] + Tokens(t[EntityAt(t).1..])
  }

  function Letters(t: string): seq<Token> { if t == "" then [] else [Letter(t[0])] + Letters(t[1..]) }

  /** What the caption's HTML is meant to say. */
  function Said(text: string, spans: seq<Span>, last: nat): seq<Token>
    requires last <= |text| && Ordered(spans, last, |text|)
    decreases |spans|
  {
    if spans == [] then Letters(text[last..])
    else
      Letters(text[last..spans[0].start])
      + ([Open(spans[0].href)] + Letters(text[spans[0].start..spans[0].end]) + [Close])
      + Said(text, spans[1..], spans[0].end)
  }

  lemma Chars(e: string, w: string)
    ensures (e + w)[|e|..] == w && forall i :: 0 <= i < |e| ==> (e + w)[i] == e[i]
  {}

  lemma EntityReads(c: char, w: string)
    ensures EntityAt(Entity(c) + w) == (c, |Entity(c)|) && (Entity(c) + w)[|Entity(c)|..] == w
  {
    var e := Entity(c);
    Chars(e, w);
    if c == '&' {
      assert "&amp;" <= e + w;
    } else if c == '\'' {
      assert "&#39;" <= e + w;
      assert (e + w)[1] == '#';
    } else if c == '<' {
      assert "&lt;" <= e + w;
      assert (e + w)[1] == 'l';
    } else if c == '>' {
      assert "&gt;" <= e + w;
      assert (e + w)[1] == 'g';
    } else if c == '"' {
      assert "&#34;" <= e + w;
      assert (e + w)[1] == '#' && (e + w)[3] == '4';
    } else {
      assert (e + w)[0] == c;
    }
  }

  lemma EntityToken(c: char, w: string)
    ensures Tokens(Entity(c) + w) == [Letter(c)] + Tokens(w)
  {
    hide EntityAt;
    EntityReads(c, w);
    assert (Entity(c) + w)[0] == Entity(c)[0] != '<';
  }

  lemma BreakToken(w: string)
    ensures Tokens("<br>" + w) == [Letter('\n')] + Tokens(w)
  {
    Chars("<br>", w);
  }

  lemma CloseToken(w: string)
    ensures Tokens("</a>" + w) == [Close] + Tokens(w)
  {
    Chars("</a>", w);
    assert ("</a>" + w)[1] == '/';
  }

  lemma NoQuote(c: char)
    ensures '"' !in Entity(c)
  {}

  lemma {:induction false} UnescapeHtml(t: string)
    ensures Unescaped(Html(t)) == t
  {
    hide EntityAt, Entity;
    if t != "" {
      EntityReads(t[0], Html(t[1..]));
      UnescapeHtml(t[1..]);
    }
  }

  lemma {:induction false} QuoteAfter(t: string, w: string)
    requires '"' !in t
    ensures ToQuote(t + ("\"" + w)) == |t|
  {
    if t == "" {
      assert t + ("\"" + w) == "\"" + w;
    } else {
      assert (t + ("\"" + w))[1..] == t[1..] + ("\"" + w);
      QuoteAfter(t[1..], w);
    }
  }

  lemma {:induction false} HtmlHasNoQuote(t: string)
    ensures '"' !in Html(t)
  {
    hide Entity;
    if t != "" {
      NoQuote(t[0]);
      HtmlHasNoQuote(t[1..]);
    }
  }

  lemma OpenSlices(h: string, w: string)
    ensures var t := ANCHOR + (h + ("\">" + w));
            && ANCHOR <= t && t[1] == 'a' && t[9..] == h + ("\">" + w) && t[9..9 + |h|] == h
            && t[9 + |h|..] == "\">" + w && t[9 + |h| + 2..] == w
  {
    var rest := h + ("\">" + w);
    var t := ANCHOR + rest;
    Chars(ANCHOR, rest);
    assert t[9..] == rest;
    Chars(h, "\">" + w);
    Chars("\">", w);
  }

  lemma AnchorOnly(t: string)
    requires ANCHOR <= t
    ensures |t| >= 9 && !("<br>" <= t) && !("</a>" <= t)
  {
    assert t[1] == ANCHOR[1] == 'a';
  }

  lemma AnchorToken(t: string)
    requires ANCHOR <= t
    ensures |t| >= 9 && Tokens(t) == [AnchorAt(t).0] + Tokens(AnchorAt(t).1)
  {
    hide EntityAt, AnchorAt, ANCHOR;
    AnchorOnly(t);
  }

  lemma OpenToken(href: string, w: string)
    ensures Tokens(ANCHOR + (Html(href) + ("\">" + w))) == [Open(href)] + Tokens(w)
  {
    hide Html, Unescaped, Tokens, ToQuote, ANCHOR;
    var t := ANCHOR + (Html(href) + ("\">" + w));
    var h := Html(href);
    OpenSlices(h, w);
    HtmlHasNoQuote(href);
    assert "\">" + w == "\"" + (">" + w);
    QuoteAfter(h, ">" + w);
    UnescapeHtml(href);
    AnchorToken(t);
    assert AnchorAt(t) == (Open(href), w);
  }

  lemma {:induction false} NameTokens(t: string, w: string)
    ensures Tokens(Html(t) + w) == Letters(t) + Tokens(w)
  {
    hide Tokens, Entity;
    if t == "" {
      assert Html(t) + w == w;
    } else {
      var rest := Html(t[1..]);
      assert Html(t) + w == Entity(t[0]) + (rest + w);
      EntityToken(t[0], rest + w);
      NameTokens(t[1..], w);
    }
  }

  lemma {:induction false} BreaksConcat(e: string, w: string)
    requires '\n' !in e
    ensures Breaks(e + w) == e + Breaks(w)
  {
    if e == "" {
      assert e + w == w;
    } else {
      assert (e + w)[1..] == e[1..] + w;
      BreaksConcat(e[1..], w);
      assert [e[0]] + (e[1..] + Breaks(w)) == e + Breaks(w);
    }
  }

  /** A character of plain text in HTML. */
  function Shown(c: char): string { if c == '\n' then "<br>" else Entity(c) }

  lemma NewlineBreaks(w: string)
    ensures Breaks("\n" + w) == "<br>" + Breaks(w)
  {
    assert ("\n" + w)[1..] == w;
  }

  lemma OneLine(c: char)
    ensures if c == '\n' then Entity(c) == "\n" else '\n' !in Entity(c)
  {}

  lemma BreaksFirst(t: string)
    requires t != ""
    ensures Breaks(Html(t)) == Shown(t[0]) + Breaks(Html(t[1..]))
  {
    hide Breaks, Entity;
    var rest := Html(t[1..]);
    OneLine(t[0]);
    NewlineBreaks(rest);
    if t[0] != '\n' {
      BreaksConcat(Entity(t[0]), rest);
    }
  }

  lemma ShownToken(c: char, w: string)
    ensures Tokens(Shown(c) + w) == [Letter(c)] + Tokens(w)
  {
    hide Tokens, Entity;
    if c == '\n' {
      BreakToken(w);
    } else {
      EntityToken(c, w);
    }
  }

  lemma {:induction false} TextTokens(t: string, w: string)
    ensures Tokens(Breaks(Html(t)) + w) == Letters(t) + Tokens(w)
  {
    hide Tokens, Entity, Shown;
    if t == "" {
      assert Breaks(Html(t)) + w == w;
    } else {
      hide Breaks, Html;
      var rest := Breaks(Html(t[1..]));
      BreaksFirst(t);
      assert Breaks(Html(t)) + w == Shown(t[0]) + (rest + w);
      ShownToken(t[0], rest + w);
      TextTokens(t[1..], w);
    }
  }

  lemma AnchorTokens(name: string, href: string, w: string)
    ensures Tokens(Anchor(name, href) + w) == [Open(href)] + Letters(name) + [Close] + Tokens(w)
  {
    hide Tokens, Html, Letters;
    var tail := "</a>" + w;
    var inner := Html(name) + tail;
    Five(ANCHOR, Html(href), "\">", Html(name), "</a>", w);
    OpenToken(href, inner);
    NameTokens(name, tail);
    CloseToken(w);
    assert [Open(href)] + (Letters(name) + ([Close] + Tokens(w))) == [Open(href)] + Letters(name) + [Close] + Tokens(w);
  }

  lemma Five(a: string, b: string, c: string, d: string, e: string, w: string)
    ensures a + b + c + d + e + w == a + (b + (c + (d + (e + w))))
  {}

  lemma Three<T>(a: seq<T>, b: seq<T>, c: seq<T>)
    ensures a + b + c == a + (b + c)
  {}

  /** The HTML of a caption says its text, with its links around the spans. */
  lemma {:induction false} HtmlSays(text: string, spans: seq<Span>, last: nat)
    requires last <= |text| && Ordered(spans, last, |text|)
    ensures Tokens(HtmlFrom(text, spans, last)) == Said(text, spans, last)
    decreases |spans|
  {
    hide Tokens, Html, Breaks, Letters, Anchor;
    if spans == [] {
      assert Breaks(Html(text[last..])) + "" == Breaks(Html(text[last..]));
      TextTokens(text[last..], "");
      NoTokens();
      assert Letters(text[last..]) + [] == Letters(text[last..]);
    } else {
      var s := spans[0];
      var gap, name := text[last..s.start], text[s.start..s.end];
      var rest := HtmlFrom(text, spans[1..], s.end);
      HtmlSays(text, spans[1..], s.end);
      Three(Breaks(Html(gap)), Anchor(name, s.href), rest);
      TextTokens(gap, Anchor(name, s.href) + rest);
      AnchorTokens(name, s.href, rest);
      Three(Letters(gap), [Open(s.href)] + Letters(name) + [Close], Tokens(rest));
    }
  }

  lemma NoTokens()
    ensures Tokens("") == []
  {}

  /** The text a reader sees. */
  function Plain(tokens: seq<Token>): string {
    if tokens == [] then ""
    else (if tokens[0].Letter? then [tokens[0].c] else "") + Plain(tokens[1..])
  }

  /** The links a reader finds: where each begins and ends in the text, and its target. */
  function Linked(tokens: seq<Token>, at: nat, open: Option<Span>): seq<Span> {
    if tokens == [] then []
    else
      match tokens[0]
      case Letter(_) => Linked(tokens[1..], at + 1, open)
      case Open(href) => Linked(tokens[1..], at, Some(Span(at, at, href)))
      case Close =>
        (if open.Some? then [Span(open.value.start, at, open.value.href)] else []) + Linked(tokens[1..], at, None)
  }

  lemma PastLetter(c: char, rest: seq<Token>, at: nat, open: Option<Span>)
    ensures Plain([Letter(c)] + rest) == [c] + Plain(rest)
    ensures Linked([Letter(c)] + rest, at, open) == Linked(rest, at + 1, open)
  {
    assert ([Letter(c)] + rest)[1..] == rest;
  }

  lemma {:induction false} PastLetters(t: string, rest: seq<Token>, at: nat, open: Option<Span>)
    ensures Plain(Letters(t) + rest) == t + Plain(rest)
    ensures Linked(Letters(t) + rest, at, open) == Linked(rest, at + |t|, open)
  {
    hide Plain, Linked;
    if t == "" {
      assert Letters(t) + rest == rest && t + Plain(rest) == Plain(rest);
    } else {
      var more := Letters(t[1..]) + rest;
      Three([Letter(t[0])], Letters(t[1..]), rest);
      PastLetter(t[0], more, at, open);
      PastLetters(t[1..], rest, at + 1, open);
      Three([t[0]], t[1..], Plain(rest));
      assert [t[0]] + t[1..] == t;
    }
  }

  lemma PastOpen(href: string, rest: seq<Token>, at: nat)
    ensures Plain([Open(href)] + rest) == Plain(rest)
    ensures Linked([Open(href)] + rest, at, None) == Linked(rest, at, Some(Span(at, at, href)))
  {
    assert ([Open(href)] + rest)[1..] == rest;
  }

  lemma PastClose(rest: seq<Token>, at: nat, open: Span)
    ensures Plain([Close] + rest) == Plain(rest)
    ensures Linked([Close] + rest, at, Some(open)) == [Span(open.start, at, open.href)] + Linked(rest, at, None)
  {
    assert ([Close] + rest)[1..] == rest;
  }

  lemma {:induction false} SaidIs(text: string, spans: seq<Span>, last: nat)
    requires last <= |text| && Ordered(spans, last, |text|)
    ensures Plain(Said(text, spans, last)) == text[last..]
    ensures Linked(Said(text, spans, last), last, None) == spans
    decreases |spans|
  {
    hide Letters, Plain, Linked;
    if spans == [] {
      var t := text[last..];
      PastLetters(t, [], last, None);
      assert Letters(t) + [] == Letters(t) && t + "" == t;
      NothingLeft(last + |t|);
    } else {
      var s := spans[0];
      var gap, name := text[last..s.start], text[s.start..s.end];
      var rest := Said(text, spans[1..], s.end);
      SaidIs(text, spans[1..], s.end);
      Regroup(Letters(gap), Open(s.href), Letters(name), Close, rest);
      PastLetters(gap, [Open(s.href)] + (Letters(name) + ([Close] + rest)), last, None);
      PastOpen(s.href, Letters(name) + ([Close] + rest), s.start);
      PastLetters(name, [Close] + rest, s.start, Some(Span(s.start, s.start, s.href)));
      PastClose(rest, s.end, Span(s.start, s.start, s.href));
      assert gap + (name + text[s.end..]) == text[last..];
    }
  }

  lemma NothingLeft(at: nat)
    ensures Plain([]) == "" && Linked([], at, None) == []
  {}

  lemma Regroup(a: seq<Token>, b: Token, c: seq<Token>, d: Token, e: seq<Token>)
    ensures a + ([b] + c + [d]) + e == a + ([b] + (c + ([d] + e)))
  {}

  /** Undoing the HTML of a caption gives the caption back, and its links exactly. */
  lemma CaptionUndone(text: string, spans: seq<Span>)
    requires Ordered(spans, 0, |text|)
    ensures Plain(Tokens(HtmlFrom(text, spans, 0))) == text
    ensures Linked(Tokens(HtmlFrom(text, spans, 0)), 0, None) == spans
  {
    HtmlSays(text, spans, 0);
    SaidIs(text, spans, 0);
  }
}