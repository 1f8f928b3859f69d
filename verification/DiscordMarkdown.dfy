/** The Markdown printer of server/component_embed.go.

    Text is a sequence of Unicode scalar values. Everything the Go replacers look for is ASCII,
    so matching bytes and matching scalars agree. */
module DiscordMarkdown {
  // ---------- Ordinary text ----------

  /** Escaped wherever they stand. */
  predicate Markup(c: char) {
    c == '\\' || c == '*' || c == '_' || c == '~' || c == '`' || c == '|' || c == '[' || c == ']' || c == '<'
  }

  /** Escaped at the beginning of a line. */
  predicate Starter(c: char) { c == '#' || c == '-' || c == '+' || c == '>' }

  const ZERO_WIDTH_SPACE := '\U{200B}'

  predicate IsDigit(c: char) { '0' <= c <= '9' }

  /** `discordMarkdownEscaper.Replace`. */
  function Replaced(t: string): string {
    if t == "" then ""
    else if Markup(t[0]) then ['\\', t[0]] + Replaced(t[1..])
    else if "://" <= t then "\\://" + Replaced(t[3..])
    else if t[0] == '@' then ['@', ZERO_WIDTH_SPACE] + Replaced(t[1..])
    else [t[0]] + Replaced(t[1..])
  }

  /** `strings.Split(t, "\n")`. */
  function Split(t: string): (lines: seq<string>)
    ensures lines != []
  {
    if t == "" then [""]
    else if t[0] == '\n' then [""] + Split(t[1..])
    else var rest := Split(t[1..]); [[t[0]] + rest[0]] + rest[1..]
  }

  /** `strings.Join(lines, "\n")`. */
  function Join(lines: seq<string>): string {
    if lines == [] then ""
    else if |lines| == 1 then lines[0]
    else lines[0] + "\n" + Join(lines[1..])
  }

  function DigitRun(line: string): (n: nat)
    ensures n <= |line|
  {
    if line == "" || !IsDigit(line[0]) then 0 else 1 + DigitRun(line[1..])
  }

  /** Where the escaper stands on its line: nothing read yet, digits only, or past both. */
  datatype Place = Start | Digits | Mid

  function Next(at: Place, c: char): Place {
    if c == '\n' then Start
    else if at != Mid && IsDigit(c) then Digits
    else Mid
  }

  /** The output for the first character of `t`, read at `at`. */
  function Piece(t: string, at: Place): string
    requires t != ""
  {
    if Markup(t[0]) || "://" <= t then ['\\', t[0]]
    else if t[0] == '@' then ['@', ZERO_WIDTH_SPACE]
    else if at == Start && Starter(t[0]) then ['\\', t[0]]
    else if at == Digits && t[0] == '.' then "\\."
    else [t[0]]
  }

  /** One-pass description of the escaper, character by character. */
  function Escaped(t: string, at: Place): string {
    if t == "" then "" else Piece(t, at) + Escaped(t[1..], Next(at, t[0]))
  }

  /** What a reader of the escaped text is meant to see: mentions are broken up, nothing else. */
  function Shown(t: string): string {
    if t == "" then ""
    else (if t[0] == '@' then ['@', ZERO_WIDTH_SPACE] else [t[0]]) + Shown(t[1..])
  }

  /** A backslash between leading digits and a dot. */
  function NumberedFrom(line: string): string {
    var n := DigitRun(line);
    if "." <= line[n..] then line[..n] + "\\" + line[n..] else line
  }

  /** The body of the line loop, continued from `at` within the line. */
  function LineFrom(line: string, at: Place): string {
    match at
    case Mid => line
    case Digits => NumberedFrom(line)
    case Start =>
      if line != "" && Starter(line[0]) then "\\" + line
      else if DigitRun(line) > 0 then NumberedFrom(line)
      else line
  }

  function AllLines(lines: seq<string>): (r: seq<string>)
    ensures |r| == |lines|
    ensures forall i :: 0 <= i < |r| ==> r[i] == LineFrom(lines[i], Start)
  {
    if lines == [] then [] else [LineFrom(lines[0], Start)] + AllLines(lines[1..])
  }

  lemma SplitPiece(p: string, t: string)
    requires '\n' !in p
    ensures Split(p + t) == [p + Split(t)[0]] + Split(t)[1..]
  {
    if p == "" {
      assert p + t == t;
      assert p + Split(t)[0] == Split(t)[0];
    } else {
      assert (p + t)[1..] == p[1..] + t;
      SplitPiece(p[1..], t);
      assert [p[0]] + (p[1..] + Split(t)[0]) == p + Split(t)[0];
    }
  }

  lemma NumberedDigit(c: char, line: string)
    requires IsDigit(c)
    ensures DigitRun([c] + line) == 1 + DigitRun(line)
    ensures NumberedFrom([c] + line) == [c] + NumberedFrom(line)
  {
    var n := DigitRun(line);
    assert ([c] + line)[1..] == line;
    assert DigitRun([c] + line) == 1 + n;
    DotAfter(c, line, n);
  }

  lemma DotAfter(c: char, line: string, n: nat)
    requires n <= |line|
    ensures ([c] + line)[n + 1..] == line[n..]
    ensures ([c] + line)[..n + 1] + "\\" + line[n..] == [c] + (line[..n] + "\\" + line[n..])
  {
    assert ([c] + line)[..n + 1] == [c] + line[..n];
  }

  lemma NumberedOther(p: string, line: string)
    requires p != "" && !IsDigit(p[0])
    ensures DigitRun(p + line) == 0
    ensures NumberedFrom(p + line) == if p[0] == '.' then "\\" + (p + line) else p + line
  {
    assert (p + line)[0] == p[0] && (p + line)[0..] == p + line && (p + line)[..0] == "";
  }

  /** The replacement of one character other than a newline, "://" aside. */
  function Plain(c: char): (p: string)
    ensures p != ""
  {
    if Markup(c) then ['\\', c] else if c == '@' then [c, ZERO_WIDTH_SPACE] else [c]
  }

  lemma LineStep(t: string, line: string, at: Place)
    requires t != "" && t[0] != '\n' && (Markup(t[0]) || !("://" <= t))
    ensures LineFrom(Plain(t[0]) + line, at) == Piece(t, at) + LineFrom(line, Next(at, t[0]))
  {
    if IsDigit(t[0]) {
      DigitStep(t, line, at);
    } else {
      OtherStep(t, line, at);
    }
  }

  lemma DigitStep(t: string, line: string, at: Place)
    requires t != "" && IsDigit(t[0])
    ensures LineFrom(Plain(t[0]) + line, at) == Piece(t, at) + LineFrom(line, Next(at, t[0]))
  {
    hide NumberedFrom, DigitRun;
    var c := t[0];
    assert Plain(c) == [c] && Piece(t, at) == [c];
    NumberedDigit(c, line);
  }

  lemma OtherStep(t: string, line: string, at: Place)
    requires t != "" && t[0] != '\n' && !IsDigit(t[0]) && (Markup(t[0]) || !("://" <= t))
    ensures LineFrom(Plain(t[0]) + line, at) == Piece(t, at) + LineFrom(line, Next(at, t[0]))
  {
    hide NumberedFrom, DigitRun;
    var c := t[0];
    NumberedOther(Plain(c), line);
    assert Next(at, c) == Mid;
    assert "\\" + ([c] + line) == ['\\', c] + line;
    assert (Plain(c) + line)[0] == Plain(c)[0];
  }

  /** The first line of replaced text continued from `at`, the others from their start, joined. */
  function Rejoined(t: string, at: Place): string {
    var lines := Split(Replaced(t));
    Join([LineFrom(lines[0], at)] + AllLines(lines[1..]))
  }

  /** Replacing, splitting, treating each line and joining is the one-pass escaper. */
  lemma {:induction false} LinesAreEscaped(t: string, at: Place)
    ensures Rejoined(t, at) == Escaped(t, at)
    decreases |t|
  {
    hide Rejoined, Piece, Plain;
    if t == "" {
      EmptyLine(at);
    } else if t[0] == '\n' {
      LinesAreEscaped(t[1..], Start);
      NewlineLine(t, at);
    } else if !Markup(t[0]) && "://" <= t {
      LinesAreEscaped(t[3..], Mid);
      ColonLine(t, at);
      SlashSlash(t, at);
    } else {
      LinesAreEscaped(t[1..], Next(at, t[0]));
      CharLine(t, at);
    }
  }

  lemma EmptyLine(at: Place)
    ensures Rejoined("", at) == ""
  {}

  lemma NewlineLine(t: string, at: Place)
    requires t != "" && t[0] == '\n'
    ensures Rejoined(t, at) == Piece(t, at) + Rejoined(t[1..], Start)
  {
    hide NumberedFrom, DigitRun;
    var rest := Split(Replaced(t[1..]));
    assert Replaced(t) == "\n" + Replaced(t[1..]);
    assert Replaced(t)[1..] == Replaced(t[1..]);
    assert Split(Replaced(t)) == [""] + rest;
    assert AllLines(rest) == [LineFrom(rest[0], Start)] + AllLines(rest[1..]);
    EmptyFirst(at, AllLines(rest));
  }

  lemma EmptyFirst(at: Place, lines: seq<string>)
    requires lines != []
    ensures Join([LineFrom("", at)] + lines) == "\n" + Join(lines)
  {
    assert LineFrom("", at) == "";
    assert ([""] + lines)[1..] == lines;
  }

  lemma CharLine(t: string, at: Place)
    requires t != "" && t[0] != '\n' && (Markup(t[0]) || !("://" <= t))
    ensures Rejoined(t, at) == Piece(t, at) + Rejoined(t[1..], Next(at, t[0]))
  {
    hide LineFrom, Join, Next, Piece, Markup;
    var p := Plain(t[0]);
    var rest := Split(Replaced(t[1..]));
    assert Replaced(t) == p + Replaced(t[1..]);
    assert '\n' !in p;
    SplitPiece(p, Replaced(t[1..]));
    LineStep(t, rest[0], at);
    PrefixLine(Piece(t, at), LineFrom(rest[0], Next(at, t[0])), AllLines(rest[1..]));
  }

  lemma PrefixLine(p: string, line: string, lines: seq<string>)
    ensures Join([p + line] + lines) == p + Join([line] + lines)
  {
    assert ([p + line] + lines)[1..] == lines && ([line] + lines)[1..] == lines;
    if lines != [] {
      assert (p + line) + "\n" + Join(lines) == p + (line + "\n" + Join(lines));
    }
  }

  lemma ColonLine(t: string, at: Place)
    requires "://" <= t
    ensures Rejoined(t, at) == "\\://" + Rejoined(t[3..], Mid)
  {
    hide Join, Split, NumberedFrom, DigitRun;
    var rest := Split(Replaced(t[3..]));
    SplitColon(t);
    NumberedOther("\\://", rest[0]);
    assert LineFrom("\\://" + rest[0], at) == "\\://" + rest[0];
    PrefixLine("\\://", rest[0], AllLines(rest[1..]));
  }

  lemma SplitColon(t: string)
    requires "://" <= t
    ensures Split(Replaced(t)) == ["\\://" + Split(Replaced(t[3..]))[0]] + Split(Replaced(t[3..]))[1..]
  {
    assert Replaced(t) == "\\://" + Replaced(t[3..]);
    SplitPiece("\\://", Replaced(t[3..]));
  }

  lemma SlashSlash(t: string, at: Place)
    requires "://" <= t
    ensures Escaped(t, at) == "\\://" + Escaped(t[3..], Mid)
  {
    var u, v := t[1..], t[2..];
    assert u[1..] == v && v[1..] == t[3..] && u[0] == v[0] == '/';
    assert Escaped(v, Mid) == "/" + Escaped(t[3..], Mid);
    assert Escaped(u, Mid) == "/" + Escaped(v, Mid);
    assert "\\:" + ("/" + ("/" + Escaped(t[3..], Mid))) == "\\://" + Escaped(t[3..], Mid);
  }

  /** `discordText`: rewrites the lines of the replaced text in place. */
  method DiscordText(text: string) returns (out: string)
    ensures out == Escaped(text, Start)
  {
    var lines := Split(Replaced(text));
    ghost var before := lines;
    for i := 0 to |lines|
      invariant |lines| == |before|
      invariant forall j :: 0 <= j < i ==> lines[j] == LineFrom(before[j], Start)
      invariant forall j :: i <= j < |lines| ==> lines[j] == before[j]
    {
      var line := lines[i];
      if line != "" && Starter(line[0]) {
        lines := lines[i := "\\" + line];
      } else {
        var n := DigitRun(line);
        if n > 0 && "." <= line[n..] {
          lines := lines[i := line[..n] + "\\" + line[n..]];
        }
      }
    }
    out := Join(lines);
    LinesAreEscaped(text, Start);
    assert lines == [LineFrom(before[0], Start)] + AllLines(before[1..]);
  }

  // ---------- Links ----------

  /** A detected link: `text[start..end]` shown, `href` its target. */
  datatype Span = Span(start: nat, end: nat, href: string)

  /** What the printer asks of libraries: `format` is the Unicode category Cf, `media` is
      `discordMediaURL`. */
  datatype Env = Env(format: char -> bool, media: string -> bool)

  const LINK_ESCAPES := map['(' := "%28", ')' := "%29", '\\' := "%5C", '[' := "%5B", ']' := "%5D",
                            '<' := "%3C", '>' := "%3E"]

  /** `discordLinkEscaper.Replace`. */
  function Target(href: string): (r: string)
    ensures forall c :: c in r ==> c !in LINK_ESCAPES
  {
    if href == "" then ""
    else (if href[0] in LINK_ESCAPES then LINK_ESCAPES[href[0]] else [href[0]]) + Target(href[1..])
  }

  /** `unicode.IsSpace`. */
  predicate GoSpace(c: char) {
    '\t' <= c <= '\r' || c == ' ' || c == '\U{85}' || c == '\U{A0}' || c == '\U{1680}'
    || '\U{2000}' <= c <= '\U{200A}' || c in "\U{2028}\U{2029}\U{202F}\U{205F}\U{3000}"
  }

  predicate Control(c: char) { c < ' ' || '\U{7F}' <= c <= '\U{9F}' }

  predicate Contains(t: string, sub: string) {
    exists i :: 0 <= i <= |t| && sub <= t[i..]
  }

  /** Labels Discord would not keep as they are. */
  predicate Unsafe(env: Env, name: string) {
    || (exists c :: c in name && c in "\\[]")
    || Contains(name, "://")
    || (exists c :: c in name && c in "\U{34F}\U{17B4}\U{17B5}\U{1160}\U{3164}\U{FFA0}")
    || (exists c :: c in name && (Control(c) || env.format(c) || (GoSpace(c) && c != ' ')))
  }

  predicate HttpScheme(t: string) { "https://" <= t || "http://" <= t }

  const ARROW := "\U{2197}"
  const ELLIPSIS := "\U{2026}"

  /** `discordLink`. */
  function Link(env: Env, name: string, href: string): string {
    var target := Target(href);
    if name == target && HttpScheme(target) then "<" + target + ">"
    else if Unsafe(env, name) then Escaped(name, Start) + " [" + ARROW + "](" + target + ")"
    else "[" + name + "](" + target + ")"
  }

  // ---------- Captions ----------

  /** Spans in order, disjoint and non-empty, between `from` and `limit`. */
  predicate Ordered(spans: seq<Span>, from: nat, limit: nat) {
    spans != [] ==>
      from <= spans[0].start < spans[0].end <= limit && Ordered(spans[1..], spans[0].end, limit)
  }

  /** The spans a caption cut at `end` keeps as links: those wholly before the cut whose target
      is an http(s) URL. */
  function Kept(env: Env, spans: seq<Span>, end: nat): seq<Span> {
    if spans == [] then []
    else
      var rest := Kept(env, spans[1..], end);
      if spans[0].end <= end && env.media(spans[0].href) then [spans[0]] + rest else rest
  }

  /** Where the shown text stops: a span the cut falls into is dropped whole. */
  function Stop(spans: seq<Span>, end: nat): nat {
    if spans == [] then end
    else if spans[0].start < end < spans[0].end then spans[0].start
    else Stop(spans[1..], end)
  }

  /** Escaped text up to `stop` with the given spans as links. */
  function Linked(env: Env, text: string, links: seq<Span>, last: nat, stop: nat): string
    requires last <= stop <= |text| && Ordered(links, last, stop)
  {
    if links == [] then Escaped(text[last..stop], Start)
    else
      Escaped(text[last..links[0].start], Start)
      + Link(env, text[links[0].start..links[0].end], links[0].href)
      + Linked(env, text, links[1..], links[0].end, stop)
  }

  lemma OrderedFrom(spans: seq<Span>, from: nat, lower: nat, limit: nat)
    requires Ordered(spans, from, limit) && lower <= from
    ensures Ordered(spans, lower, limit)
  {}

  lemma KeptOrdered(env: Env, spans: seq<Span>, end: nat, last: nat, limit: nat)
    requires Ordered(spans, last, limit) && last <= end
    ensures last <= Stop(spans, end) <= end
    ensures Ordered(Kept(env, spans, end), last, Stop(spans, end))
  {
    if spans != [] {
      var s := spans[0];
      if s.end <= end {
        KeptOrdered(env, spans[1..], end, s.end, limit);
        OrderedFrom(Kept(env, spans[1..], end), s.end, last, Stop(spans, end));
      } else {
        NothingKept(env, spans[1..], end, s.end, limit);
      }
    }
  }

  lemma NothingKept(env: Env, spans: seq<Span>, end: nat, from: nat, limit: nat)
    requires Ordered(spans, from, limit) && end <= from
    ensures Kept(env, spans, end) == [] && Stop(spans, end) == end
  {
    if spans != [] {
      NothingKept(env, spans[1..], end, spans[0].end, limit);
    }
  }

  /** The shown text stops at the cut, or where the span begins that the cut falls into. */
  lemma {:induction false} StopIs(spans: seq<Span>, end: nat, from: nat, limit: nat)
    requires Ordered(spans, from, limit)
    ensures forall s :: s in spans && s.start < end < s.end ==> Stop(spans, end) == s.start
    ensures (forall s :: s in spans ==> !(s.start < end < s.end)) ==> Stop(spans, end) == end
    decreases |spans|
  {
    if spans != [] {
      var first, rest := spans[0], spans[1..];
      assert spans == [first] + rest;
      StopIs(rest, end, first.end, limit);
      StartsLater(rest, first.end, limit);
    }
  }

  lemma StartsLater(spans: seq<Span>, from: nat, limit: nat)
    requires Ordered(spans, from, limit)
    ensures forall s :: s in spans ==> from <= s.start < s.end <= limit
  {
    if spans != [] {
      assert spans == [spans[0]] + spans[1..];
      StartsLater(spans[1..], spans[0].end, limit);
    }
  }

  /** The form a link takes: bare only when the label is the target, with its label whenever the
      label is clean, and escaped in front of an arrow otherwise. */
  predicate Clean(env: Env, name: string) {
    && (forall c :: c in name ==>
          && c != '\\' && c != '[' && c != ']'
          && c !in ['\U{34F}', '\U{17B4}', '\U{17B5}', '\U{1160}', '\U{3164}', '\U{FFA0}']
          && !Control(c) && !env.format(c) && (GoSpace(c) ==> c == ' '))
    && forall i :: 0 <= i <= |name| ==> !("://" <= name[i..])
  }

  lemma CleanIsSafe(env: Env, name: string)
    ensures Unsafe(env, name) <==> !Clean(env, name)
  {
    hide GoSpace, Control;
  }

  lemma LinkForm(env: Env, name: string, href: string)
    ensures name == Target(href) && HttpScheme(name) ==> Link(env, name, href) == "<" + name + ">"
    ensures !(name == Target(href) && HttpScheme(name)) && Clean(env, name) ==>
      Link(env, name, href) == "[" + name + "](" + Target(href) + ")"
    ensures !(name == Target(href) && HttpScheme(name)) && !Clean(env, name) ==>
      Link(env, name, href) == Escaped(name, Start) + " [\U{2197}](" + Target(href) + ")"
  {
    hide Unsafe, Clean, Target, HttpScheme, Escaped;
    CleanIsSafe(env, name);
  }

  /** The caption as a whole: links where they fit, an ellipsis when something was left out. */
  function Caption(env: Env, text: string, spans: seq<Span>, end: nat): string
    requires Ordered(spans, 0, |text|) && end <= |text|
  {
    KeptOrdered(env, spans, end, 0, |text|);
    var stop := Stop(spans, end);
    Linked(env, text, Kept(env, spans, end), 0, stop) + (if stop < |text| then ELLIPSIS else "")
  }

  lemma FirstLink(env: Env, text: string, b: string, s: Span, rest: seq<Span>, last: nat, stop: nat)
    requires last <= stop <= |text| && Ordered([s] + rest, last, stop)
    ensures Ordered(rest, s.end, stop) && s.end <= stop
    ensures b + Linked(env, text, [s] + rest, last, stop)
         == b + Escaped(text[last..s.start], Start) + Link(env, text[s.start..s.end], s.href)
              + Linked(env, text, rest, s.end, stop)
  {
    hide Escaped, Link;
    var links := [s] + rest;
    assert links[1..] == rest;
    Regroup(b, Escaped(text[last..s.start], Start), Link(env, text[s.start..s.end], s.href),
            Linked(env, text, rest, s.end, stop));
  }

  lemma Regroup(a: string, b: string, c: string, d: string)
    ensures a + (b + c + d) == a + b + c + d
  {}

  /** `discordCaption`. */
  method DiscordCaption(env: Env, text: string, spans: seq<Span>, cut: nat) returns (b: string)
    requires Ordered(spans, 0, |text|) && cut <= |text|
    ensures b == Caption(env, text, spans, cut)
  {
    hide Escaped, Link;
    KeptOrdered(env, spans, cut, 0, |text|);
    ghost var stop := Stop(spans, cut);
    ghost var kept := Kept(env, spans, cut);
    ghost var whole := Linked(env, text, kept, 0, stop);
    b := "";
    var last: nat, end: nat, i: nat := 0, cut, 0;
    ghost var from: nat := 0;
    assert spans[0..] == spans && b + whole == whole;
    while i < |spans|
      invariant i <= |spans| && last <= from && last <= stop <= end == cut
      invariant Ordered(spans[i..], from, |text|)
      invariant Stop(spans[i..], cut) == stop
      invariant kept == Kept(env, spans[i..], cut)
      invariant Ordered(kept, last, stop)
      invariant whole == b + Linked(env, text, kept, last, stop)
    {
      var s := spans[i];
      assert spans[i..][1..] == spans[i + 1..];
      if s.end > end {
        NothingKept(env, spans[i + 1..], cut, s.end, |text|);
      }
      if s.start >= end {
        break;
      }
      if s.end > end {
        end := s.start;
        break;
      }
      if env.media(s.href) {
        kept := Kept(env, spans[i + 1..], cut);
        FirstLink(env, text, b, s, kept, last, stop);
        var gap := DiscordText(text[last..s.start]);
        b := b + gap;
        b := b + Link(env, text[s.start..s.end], s.href);
        last := s.end;
      }
      from := s.end;
      i := i + 1;
    }
    assert kept == [] && stop == end;
    var tail := DiscordText(text[last..end]);
    b := b + tail;
    if end < |text| {
      b := b + ELLIPSIS;
    }
  }
}
