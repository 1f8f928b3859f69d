/** The Markdown parser of web/src/component-embed.ts. */
module Preview {
  import opened Prelude
  import opened DiscordMarkdown

  datatype Tag = Bold | Italic | Underline | Strike | H1 | H2 | H3 | Sub

  /** `Anchor.target` is the URL text as matched; the page links to its normal form. */
  datatype Node =
    | Text(text: string)
    | Styled(tag: Tag, children: seq<Node>)
    | Anchor(target: string, children: seq<Node>)
    | Emoji(name: string)
    | Time(unix: int, style: char)

  datatype Mode = Block | Inline | Name

  datatype Hit = Hit(node: Node, size: nat)
  datatype StyleHit = StyleHit(tag: Tag, inner: string, size: nat)

  /** `http` tells which strings `httpURL` accepts; `style` is the first of the five style
      patterns that matches. */
  datatype RuleSet = RuleSet(http: string -> bool, style: string -> Option<StyleHit>)

  /** The style patterns all begin with one of three characters and capture less than they match. */
  ghost predicate Sound(r: RuleSet) {
    forall t :: r.style(t).Some? ==>
      && t != "" && (t[0] == '*' || t[0] == '_' || t[0] == '~')
      && |r.style(t).value.inner| < r.style(t).value.size <= |t|
  }

  type Rules = r: RuleSet | Sound(r) witness RuleSet(_ => false, _ => None)

  // ---------- Character classes ----------

  /** `\s`. */
  predicate Space(c: char) {
    '\t' <= c <= '\r' || c == ' ' || c == '\U{A0}' || c == '\U{FEFF}' || c == '\U{1680}'
    || '\U{2000}' <= c <= '\U{200A}' || c == '\U{2028}' || c == '\U{2029}' || c == '\U{202F}'
    || c == '\U{205F}' || c == '\U{3000}'
  }

  predicate Alnum(c: char) { IsDigit(c) || 'A' <= c <= 'Z' || 'a' <= c <= 'z' }
  predicate Word(c: char) { Alnum(c) || c == '_' }
  predicate NotNewline(c: char) { c != '\n' }
  predicate NotBracket(c: char) { c != '[' && c != ']' }
  predicate AngleChar(c: char) { !Space(c) && c != '<' && c != '>' }
  predicate BareChar(c: char) { !Space(c) && c != '<' }
  predicate BareEnd(c: char) {
    && BareChar(c) && c != '.' && c != ',' && c != ':' && c != ';' && c != '"' && c != '\''
    && c != ')' && c != ']'
  }
  predicate TargetChar(c: char) { AngleChar(c) && c != '(' && c != ')' }

  /** The longest prefix of `t` within a class. */
  function Run(p: char -> bool, t: string): (n: nat)
    ensures n <= |t| && (n < |t| ==> !p(t[n]))
    ensures forall i :: 0 <= i < n ==> p(t[i])
  {
    if t == "" || !p(t[0]) then 0 else 1 + Run(p, t[1..])
  }

  lemma {:induction false} RunIs(p: char -> bool, t: string, n: nat)
    requires n <= |t| && (forall i :: 0 <= i < n ==> p(t[i])) && (n < |t| ==> !p(t[n]))
    ensures Run(p, t) == n
  {
    if n > 0 {
      RunIs(p, t[1..], n - 1);
    }
  }

  // ---------- Patterns ----------

  predicate At(t: string, i: nat, c: char) { i < |t| && t[i] == c }

  /** `https?:\/\/`. */
  function Scheme(t: string): (n: nat)
    ensures n <= |t| && (n > 0 <==> HttpScheme(t))
  {
    if "https://" <= t then 8 else if "http://" <= t then 7 else 0
  }

  function Hashes(t: string): nat {
    if At(t, 0, '-') && At(t, 1, '#') then 2 else Run(c => c == '#', t)
  }

  /** How a heading is marked. */
  function Marker(tag: Tag): string {
    match tag
    case H1 => "#"
    case H2 => "##"
    case H3 => "###"
    case Sub => "-#"
    case _ => ""
  }

  function TagOf(t: string): Tag {
    if At(t, 0, '-') then Sub else if Hashes(t) == 1 then H1 else if Hashes(t) == 2 then H2 else H3
  }

  lemma MarkerBefore(t: string)
    requires 0 < Hashes(t) <= 3 && At(t, Hashes(t), ' ')
    ensures Marker(TagOf(t)) != "" && Marker(TagOf(t)) + " " <= t
  {
    if At(t, 0, '-') {
      assert t[..3] == "-# ";
    } else {
      assert t[..Hashes(t) + 1] == Marker(TagOf(t)) + " ";
    }
  }

  /** `^(#{1,3}|-#) +([^\n]+)\n?`. */
  function BlockAt(t: string): (hit: Option<StyleHit>)
    ensures hit.Some? ==> t != "" && (t[0] == '#' || t[0] == '-')
    ensures hit.Some? ==> Marker(hit.value.tag) != "" && Marker(hit.value.tag) + " " <= t
    ensures hit.Some? ==> |hit.value.inner| < hit.value.size <= |t|
  {
    var k := Hashes(t);
    if k == 0 || k > 3 then None
    else
      var spaces := Run(c => c == ' ', t[k..]);
      var end := k + Run(NotNewline, t[k..]);
      // A line of nothing but spaces gives its last one back to the heading.
      var from := if k + spaces < end then k + spaces else end - 1;
      if spaces == 0 || from <= k then None
      else
        MarkerBefore(t);
        Some(StyleHit(TagOf(t), t[from..end], if end < |t| then end + 1 else end))
  }

  /** A marker, spaces and a line are that heading, read up to and with the end of the line. */
  lemma HeadingReads(tag: Tag, gap: string, line: string, rest: string)
    requires Marker(tag) != "" && gap != "" && forall c :: c in gap ==> c == ' '
    requires line != "" && line[0] != ' ' && '\n' !in line && (rest != "" ==> rest[0] == '\n')
    ensures BlockAt(Marker(tag) + gap + line + rest)
         == Some(StyleHit(tag, line, |Marker(tag)| + |gap| + |line| + if rest == "" then 0 else 1))
  {
    hide BlockAt, Marker, Hashes, Run, TagOf;
    var m := Marker(tag);
    var t, after := m + gap + line + rest, gap + (line + rest);
    HeadingSlices(m, gap, line, rest);
    assert gap[0] in gap;
    HashesOf(tag, t);
    GapRuns(gap, line, rest);
    BlockParts(t, |m|, |gap|, |line|);
  }

  lemma GapRuns(gap: string, line: string, rest: string)
    requires forall c :: c in gap ==> c == ' '
    requires line != "" && line[0] != ' ' && '\n' !in line && (rest != "" ==> rest[0] == '\n')
    ensures Run(c => c == ' ', gap + (line + rest)) == |gap|
    ensures Run(NotNewline, gap + (line + rest)) == |gap| + |line|
  {
    var after := gap + (line + rest);
    forall i | 0 <= i < |gap| ensures after[i] == ' ' {
      assert gap[i] in gap;
    }
    forall i | |gap| <= i < |gap| + |line| ensures NotNewline(after[i]) {
      assert after[i] == line[i - |gap|];
      assert line[i - |gap|] in line;
    }
    RunIs(c => c == ' ', after, |gap|);
    RunIs(NotNewline, after, |gap| + |line|);
  }

  lemma HeadingSlices(marker: string, gap: string, line: string, rest: string)
    ensures var t, k := marker + gap + line + rest, |marker|;
            && t[k..] == gap + (line + rest) && t[k + |gap|..k + |gap| + |line|] == line
            && marker <= t && (gap != "" ==> t[k] == gap[0])
  {}

  lemma HashesOf(tag: Tag, t: string)
    requires var m := Marker(tag); m != "" && |m| < |t| && m <= t && t[|m|] == ' '
    ensures Hashes(t) == |Marker(tag)| <= 3 && TagOf(t) == tag
  {
    var m := Marker(tag);
    assert forall i :: 0 <= i < |m| ==> t[i] == m[i];
    if tag != Sub {
      RunIs(c => c == '#', t, |m|);
    }
  }

  lemma BlockParts(t: string, k: nat, spaces: nat, n: nat)
    requires k + spaces + n <= |t| && 0 < k == Hashes(t) <= 3 && spaces > 0 && n > 0
    requires Run(c => c == ' ', t[k..]) == spaces && Run(NotNewline, t[k..]) == spaces + n
    ensures BlockAt(t)
         == Some(StyleHit(TagOf(t), t[k + spaces..k + spaces + n],
                          k + spaces + n + if k + spaces + n < |t| then 1 else 0))
  {
    hide Run, Hashes, TagOf;
  }

  /** `^\\([^0-9A-Za-z\s])`. */
  function EscapeAt(t: string): (hit: Option<Hit>)
    ensures hit.Some? ==> 0 < hit.value.size <= |t| && !hit.value.node.Anchor?
  {
    if |t| > 1 && t[0] == '\\' && !Alnum(t[1]) && !Space(t[1]) then Some(Hit(Text([t[1]]), 2)) else None
  }

  /** `^<a?:(\w{2,32}):\d{17,20}>`. */
  function EmojiAt(t: string): (hit: Option<Hit>)
    ensures hit.Some? ==> 0 < hit.value.size <= |t| && !hit.value.node.Anchor?
  {
    if !At(t, 0, '<') then None
    else
      var k := if At(t, 1, 'a') then 2 else 1;
      if !At(t, k, ':') then None
      else
        var name := Run(Word, t[k + 1..]);
        var colon := k + 1 + name;
        if name < 2 || name > 32 || !At(t, colon, ':') then None
        else
          var digits := Run(IsDigit, t[colon + 1..]);
          var close := colon + 1 + digits;
          if digits < 17 || digits > 20 || !At(t, close, '>') then None
          else Some(Hit(Emoji(t[k + 1..colon]), close + 1))
  }

  function Number(digits: string): nat
    requires forall c :: c in digits ==> IsDigit(c)
  {
    if digits == "" then 0
    else
      var last := digits[|digits| - 1];
      assert IsDigit(last);
      10 * Number(digits[..|digits| - 1]) + (last as int - '0' as int)
  }

  /** `^<t:(-?\d{1,13})(?::([tTdDfFsSR]))?>`, within the range of a JavaScript date. */
  function TimeAt(t: string): (hit: Option<Hit>)
    ensures hit.Some? ==> 0 < hit.value.size <= |t| && !hit.value.node.Anchor?
  {
    if !("<t:" <= t) then None
    else
      var from := if At(t, 3, '-') then 4 else 3;
      var digits := Run(IsDigit, t[from..]);
      var end := from + digits;
      if digits < 1 || digits > 13 then None
      else
        var magnitude: int := Number(t[from..end]);
        var unix := if from == 4 then -magnitude else magnitude;
        if magnitude > 8640000000000 then None
        else if At(t, end, '>') then Some(Hit(Time(unix, 'f'), end + 1))
        else if At(t, end, ':') && end + 1 < |t| && t[end + 1] in "tTdDfFsSR" && At(t, end + 2, '>') then
          Some(Hit(Time(unix, t[end + 1]), end + 3))
        else None
  }

  /** `^<(https?:\/\/[^\s<>]+)>`: the size of the URL. */
  function AngleAt(t: string): (n: nat)
    ensures n > 0 ==> n + 2 <= |t| && t[0] == '<' && LinkText(t[1..n + 1])
  {
    if !At(t, 0, '<') then 0
    else
      var k := Scheme(t[1..]);
      var n := Run(AngleChar, t[k + 1..]);
      if k == 0 || n == 0 || !At(t, k + n + 1, '>') then 0
      else
        LinkTextFrom(t[1..], k, n, AngleChar);
        k + n
  }

  function LastEnd(t: string, k: nat, n: nat): (m: nat)
    requires k + n <= |t|
    ensures m <= n && (m > 0 ==> m >= 2 && BareEnd(t[k + m - 1]))
  {
    if n < 2 then 0 else if BareEnd(t[k + n - 1]) then n else LastEnd(t, k, n - 1)
  }

  /** `^(https?:\/\/[^\s<]+[^<.,:;"')\]\s])`: the size of the URL. */
  function BareAt(t: string): (n: nat)
    ensures n > 0 ==> n <= |t| && HttpScheme(t) && LinkText(t[..n])
  {
    var k := Scheme(t);
    var m := LastEnd(t, k, Run(BareChar, t[k..]));
    if k == 0 || m == 0 then 0
    else
      LinkTextFrom(t, k, m, BareChar);
      k + m
  }

  /** `ANGLE_URL.exec(rest) ?? BARE_URL.exec(rest)`: the URL and the size of the match. */
  function UrlAt(t: string): (r: (string, nat))
    ensures r.0 != "" ==> LinkText(r.0) && 0 < r.1 <= |t|
  {
    var angle := AngleAt(t);
    if angle > 0 then (t[1..angle + 1], angle + 2) else (t[..BareAt(t)], BareAt(t))
  }

  datatype Masked = Masked(name: string, target: string, size: nat)

  /** `https?:\/\/[^\s()<>]+`: the size of the URL. */
  function TargetAt(t: string): (n: nat)
    ensures n > 0 ==> n <= |t| && LinkText(t[..n])
  {
    var k := Scheme(t);
    var m := Run(TargetChar, t[k..]);
    if k == 0 || m == 0 then 0
    else
      LinkTextFrom(t, k, m, TargetChar);
      k + m
  }

  /** `^\[([^[\]]+)\]\(<?(https?:\/\/[^\s()<>]+)>?\)`. */
  function MaskedAt(t: string): (hit: Option<Masked>)
    ensures hit.Some? ==>
      t != "" && t[0] == '[' && |hit.value.name| < hit.value.size <= |t| && LinkText(hit.value.target)
  {
    if !At(t, 0, '[') then None
    else
      var n := Run(NotBracket, t[1..]);
      if n == 0 || !("](" <= t[n + 1..]) then None
      else
        var from := if At(t, n + 3, '<') then n + 4 else n + 3;
        var size := TargetAt(t[from..]);
        var close := if At(t, from + size, '>') then from + size + 1 else from + size;
        if size == 0 || !At(t, close, ')') then None
        else
          Some(Masked(t[1..n + 1], t[from..][..size], close + 1))
  }

  /** What every link pattern demands of its URL: a lower-case scheme, something after it, no
      white space. */
  predicate LinkText(u: string) {
    HttpScheme(u) && |u| > Scheme(u) && forall c :: c in u ==> !Space(c)
  }

  lemma LinkTextFrom(t: string, k: nat, n: nat, p: char -> bool)
    requires k == Scheme(t) > 0 && 0 < n && k + n <= |t|
    requires forall i :: 0 <= i < n ==> p(t[k..][i])
    requires forall c :: p(c) ==> !Space(c)
    ensures LinkText(t[..k + n])
  {
    var u := t[..k + n];
    assert Scheme(u) == k;
    forall i | 0 <= i < |u| ensures !Space(u[i]) {
      if k <= i {
        assert p(t[k..][i - k]);
      }
    }
  }

  // ---------- Parsing ----------

  /** The link patterns, in order. */
  function LinkAt(r: Rules, t: string): (hit: Option<Hit>)
    requires t != ""
    ensures hit.Some? ==> 0 < hit.value.size <= |t| && hit.value.node.Anchor?
    ensures hit.Some? ==> LinkText(hit.value.node.target) && r.http(hit.value.node.target)
    decreases |t|, 0
  {
    var (url, size) := UrlAt(t);
    if url != "" && r.http(url) then Some(Hit(Anchor(url, [Text(url)]), size))
    else
      match MaskedAt(t)
      case None => None
      case Some(m) =>
        if r.http(m.target) then Some(Hit(Anchor(m.target, Parse(r, m.name, Name)), m.size)) else None
  }

  /** Escapes, which link names do not have, emoji and timestamps. */
  function LeafAt(t: string, mode: Mode): (hit: Option<Hit>)
    ensures hit.Some? ==> 0 < hit.value.size <= |t| && !hit.value.node.Anchor?
  {
    if mode != Name && EscapeAt(t).Some? then EscapeAt(t)
    else if EmojiAt(t).Some? then EmojiAt(t)
    else TimeAt(t)
  }

  /** `matchAt`: the token at the head of `t`. */
  function MatchAt(r: Rules, t: string, mode: Mode, lineStart: bool): (hit: Option<Hit>)
    requires t != ""
    ensures hit.Some? ==> 0 < hit.value.size <= |t|
    ensures hit.Some? && hit.value.node.Anchor? ==>
      mode != Name && LinkText(hit.value.node.target) && r.http(hit.value.node.target)
    decreases |t|, 1
  {
    var heading := if mode == Block && lineStart then BlockAt(t) else None;
    var leaf := LeafAt(t, mode);
    var link := if mode != Name then LinkAt(r, t) else None;
    if heading.Some? then
      Some(Hit(Styled(heading.value.tag, Parse(r, heading.value.inner, Inline)), heading.value.size))
    else if leaf.Some? then leaf
    else if link.Some? then link
    else
      match r.style(t)
      case None => None
      case Some(s) => Some(Hit(Styled(s.tag, Parse(r, s.inner, if mode == Name then Name else Inline)), s.size))
  }

  /** The token at the head of `t`, or its first character as text. */
  function Token(r: Rules, t: string, mode: Mode, lineStart: bool): (h: Hit)
    requires t != ""
    ensures 0 < h.size <= |t|
    ensures h.node.Anchor? ==> LinkText(h.node.target) && r.http(h.node.target)
    decreases |t|, 2
  {
    match MatchAt(r, t, mode, lineStart)
    case Some(hit) => hit
    case None => Hit(Text([t[0]]), 1)
  }

  /** The tokens of `t`, one by one. */
  function Items(r: Rules, t: string, mode: Mode, lineStart: bool): seq<Node>
    decreases |t|, 3
  {
    if t == "" then []
    else
      var hit := Token(r, t, mode, lineStart);
      [hit.node] + Items(r, t[hit.size..], mode, t[hit.size - 1] == '\n')
  }

  /** Adds a node, joining adjacent text. */
  function Push(out: seq<Node>, node: Node): seq<Node> {
    var n := |out|;
    if node.Text? && n > 0 && out[n - 1].Text? then out[..n - 1] + [Text(out[n - 1].text + node.text)]
    else out + [node]
  }

  function Merge(out: seq<Node>, items: seq<Node>): seq<Node>
    decreases |items|
  {
    if items == [] then out else Merge(Push(out, items[0]), items[1..])
  }

  function Parse(r: Rules, src: string, mode: Mode): seq<Node>
    decreases |src|, 4
  {
    Merge([], Items(r, src, mode, true))
  }

  /** What parsing from position `i` on adds to `out`. */
  ghost function Remaining(r: Rules, src: string, mode: Mode, i: nat, out: seq<Node>): seq<Node>
    requires i <= |src|
  {
    Merge(out, Items(r, src[i..], mode, i == 0 || src[i - 1] == '\n'))
  }

  lemma Advance(r: Rules, src: string, mode: Mode, i: nat, out: seq<Node>, hit: Hit)
    requires i < |src| && hit == Token(r, src[i..], mode, i == 0 || src[i - 1] == '\n')
    ensures i + hit.size <= |src|
    ensures Remaining(r, src, mode, i, out) == Remaining(r, src, mode, i + hit.size, Push(out, hit.node))
  {
    hide Items, Token, Push, Merge;
    FirstToken(r, src, mode, i, hit);
    MergeFirst(out, hit.node, Items(r, src[i + hit.size..], mode, src[i + hit.size - 1] == '\n'));
  }

  lemma FirstToken(r: Rules, src: string, mode: Mode, i: nat, hit: Hit)
    requires i < |src| && hit == Token(r, src[i..], mode, i == 0 || src[i - 1] == '\n')
    ensures i + hit.size <= |src|
    ensures Items(r, src[i..], mode, i == 0 || src[i - 1] == '\n')
         == [hit.node] + Items(r, src[i + hit.size..], mode, src[i + hit.size - 1] == '\n')
  {
    hide Items, Token;
    assert 0 < hit.size <= |src[i..]|;
    Within(src, i, hit.size);
    ItemsStep(r, src[i..], mode, i == 0 || src[i - 1] == '\n');
  }

  lemma ItemsStep(r: Rules, t: string, mode: Mode, lineStart: bool)
    requires t != ""
    ensures var hit := Token(r, t, mode, lineStart);
            Items(r, t, mode, lineStart) == [hit.node] + Items(r, t[hit.size..], mode, t[hit.size - 1] == '\n')
  {
    hide Token;
  }

  lemma Within(src: string, i: nat, size: nat)
    requires 0 < size && i + size <= |src|
    ensures src[i..][size..] == src[i + size..] && src[i..][size - 1] == src[i + size - 1]
  {}

  lemma MergeFirst(out: seq<Node>, node: Node, rest: seq<Node>)
    ensures Merge(out, [node] + rest) == Merge(Push(out, node), rest)
  {
    assert ([node] + rest)[1..] == rest;
  }

  lemma Ends(r: Rules, src: string, mode: Mode, out: seq<Node>)
    ensures Remaining(r, src, mode, 0, []) == Parse(r, src, mode)
    ensures Remaining(r, src, mode, |src|, out) == out
  {
    hide Token, Push;
    assert src[0..] == src;
  }

  /** `parse`: one pass over `src`, growing `out`. */
  method ParseLoop(r: Rules, src: string, mode: Mode) returns (out: seq<Node>)
    ensures out == Parse(r, src, mode)
  {
    hide Token, Remaining, Parse, Push;
    out := [];
    var i := 0;
    Ends(r, src, mode, []);
    while i < |src|
      invariant i <= |src|
      invariant Remaining(r, src, mode, i, out) == Parse(r, src, mode)
    {
      var hit := Token(r, src[i..], mode, i == 0 || src[i - 1] == '\n');
      Advance(r, src, mode, i, out, hit);
      i := i + hit.size;
      out := Push(out, hit.node);
    }
    Ends(r, src, mode, out);
  }

  function ParseMarkdown(r: Rules, src: string): seq<Node> { Parse(r, src, Block) }
}
