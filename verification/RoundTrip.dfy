/** The preview parser undoes the Discord printer. */
module RoundTrip {
  import opened Prelude
  import opened DiscordMarkdown
  import opened Preview
  import opened Percent

  // ---------- Escaped text holds no tokens ----------

  /** Text as the parser meets it: one node a character. */
  function Chars(t: string): (r: seq<Node>)
    ensures |r| == |t|
  {
    if t == "" then [] else [Text([t[0]])] + Chars(t[1..])
  }

  lemma CharsConcat(s: string, t: string)
    ensures Chars(s + t) == Chars(s) + Chars(t)
  {
    if s == "" {
      assert s + t == t;
    } else {
      assert (s + t)[1..] == s[1..] + t;
    }
  }

  /** A continuation that cannot complete a URL scheme begun before it. */
  predicate Fresh(w: string) {
    w != "" ==> w[0] != 't' && w[0] != 'p' && w[0] != 's' && w[0] != ':' && w[0] != '/'
  }

  lemma EscapedStep(t: string, at: Place, w: string)
    requires t != ""
    ensures Escaped(t, at) + w == Piece(t, at) + (Escaped(t[1..], Next(at, t[0])) + w)
  {}

  /** Reading a letter, a colon or a slash from escaped text is reading it from the text. */
  lemma PlainHead(t: string, at: Place, w: string)
    requires t != ""
    ensures var e := Escaped(t, at) + w;
            e != "" && (Alnum(e[0]) || e[0] == ':' || e[0] == '/' ==>
              e[0] == t[0] && e[1..] == Escaped(t[1..], Next(at, t[0])) + w && !("://" <= t))
  {
    EscapedStep(t, at, w);
    var rest := Escaped(t[1..], Next(at, t[0])) + w;
    assert ([t[0]] + rest)[1..] == rest;
  }

  lemma SlashesArePlain(t: string, at: Place, w: string)
    requires Fresh(w) && "//" <= Escaped(t, at) + w
    ensures "//" <= t
  {
    assert "" + w == w;
    if t != "" {
      PlainHead(t, at, w);
      var t', at' := t[1..], Next(at, t[0]);
      assert (Escaped(t, at) + w)[1..][0] == '/';
      if t' != "" {
        PlainHead(t', at', w);
      }
    }
  }

  /** The text of a URL scheme, from some point after its first letter. */
  predicate SchemeTail(s: string) {
    s != "" && (s == "://" || ((s[0] == 't' || s[0] == 'p' || s[0] == 's') && SchemeTail(s[1..])))
  }

  /** No URL scheme can be completed in escaped text, nor across its end. */
  lemma {:induction false} NoScheme(t: string, at: Place, w: string, s: string)
    requires Fresh(w) && SchemeTail(s)
    ensures !(s <= Escaped(t, at) + w)
    decreases |t|
  {
    assert "" + w == w;
    var e := Escaped(t, at) + w;
    if t != "" && s <= e {
      PlainHead(t, at, w);
      assert e[0] == s[0];
      assert s[1..] <= e[1..];
      if s == "://" {
        SlashesArePlain(t[1..], Next(at, t[0]), w);
      } else {
        NoScheme(t[1..], Next(at, t[0]), w, s[1..]);
      }
    }
  }

  lemma NoHttp(t: string, at: Place, w: string)
    requires t != "" && Fresh(w)
    ensures !HttpScheme(Escaped(t, at) + w)
  {
    hide SchemeTail;
    SchemeTails();
    NoBeginning(t, at, w, "http://");
    NoBeginning(t, at, w, "https://");
  }

  lemma SchemeTails()
    ensures SchemeTail("http://"[1..]) && SchemeTail("https://"[1..])
  {
    assert "ttp://"[1..] == "tp://" && "tp://"[1..] == "p://" && "p://"[1..] == "://";
    assert "ttps://"[1..] == "tps://" && "tps://"[1..] == "ps://" && "ps://"[1..] == "s://" && "s://"[1..] == "://";
    assert SchemeTail("p://") && SchemeTail("s://");
    assert SchemeTail("tp://") && SchemeTail("ps://");
    assert "http://"[1..] == "ttp://" && "https://"[1..] == "ttps://";
    assert SchemeTail("tps://");
  }

  lemma NoBeginning(t: string, at: Place, w: string, s: string)
    requires t != "" && Fresh(w) && |s| > 1 && s[0] == 'h' && SchemeTail(s[1..])
    ensures !(s <= Escaped(t, at) + w)
  {
    hide SchemeTail, Escaped;
    var e := Escaped(t, at) + w;
    PlainHead(t, at, w);
    if s <= e {
      assert e[0] == s[0];
      assert s[1..] <= e[1..];
      NoScheme(t[1..], Next(at, t[0]), w, s[1..]);
    }
  }

  /** A character that begins no pattern is text. */
  lemma PlainToken(r: Rules, t: string, mode: Mode, lineStart: bool)
    requires t != "" && !HttpScheme(t)
    requires t[0] != '\\' && t[0] != '<' && t[0] != '[' && t[0] != '*' && t[0] != '_' && t[0] != '~'
    requires mode == Block && lineStart ==> t[0] != '#' && t[0] != '-'
    ensures Token(r, t, mode, lineStart) == Hit(Text([t[0]]), 1)
  {
    assert LeafAt(t, mode).None?;
    assert UrlAt(t).0 == "";
    assert LinkAt(r, t).None?;
  }

  lemma PlainItem(r: Rules, t: string, mode: Mode, lineStart: bool)
    requires t != "" && !HttpScheme(t)
    requires t[0] != '\\' && t[0] != '<' && t[0] != '[' && t[0] != '*' && t[0] != '_' && t[0] != '~'
    requires mode == Block && lineStart ==> t[0] != '#' && t[0] != '-'
    ensures Items(r, t, mode, lineStart) == [Text([t[0]])] + Items(r, t[1..], mode, t[0] == '\n')
  {
    PlainToken(r, t, mode, lineStart);
  }

  lemma EscapeToken(r: Rules, t: string, lineStart: bool)
    requires |t| > 1 && t[0] == '\\' && !Alnum(t[1]) && !Space(t[1])
    ensures Token(r, t, Block, lineStart) == Hit(Text([t[1]]), 2)
  {
    assert BlockAt(t).None?;
    assert LeafAt(t, Block) == EscapeAt(t);
  }

  /** A backslash and punctuation stand for the punctuation. */
  lemma EscapeItem(r: Rules, c: char, w: string, lineStart: bool)
    requires !Alnum(c) && !Space(c)
    ensures Items(r, ['\\', c] + w, Block, lineStart) == [Text([c])] + Items(r, w, Block, false)
  {
    hide Token;
    var t := ['\\', c] + w;
    EscapeToken(r, t, lineStart);
    assert t[2..] == w && t[1] == c;
  }

  predicate LineStartAfter(t: string, lineStart: bool) {
    if t == "" then lineStart else t[|t| - 1] == '\n'
  }

  /** Escaped text reads back character for character, whatever follows it. */
  lemma {:induction false} EscapedItems(r: Rules, t: string, at: Place, w: string, lineStart: bool)
    requires Fresh(w) && (lineStart ==> at == Start)
    ensures Items(r, Escaped(t, at) + w, Block, lineStart)
         == Chars(Shown(t)) + Items(r, w, Block, LineStartAfter(t, lineStart))
    decreases |t|
  {
    hide Items, Piece, Fresh, Chars, Escaped, Shown, HttpScheme;
    if t == "" {
      NothingShown(at, w);
    } else {
      var rest := Escaped(t[1..], Next(at, t[0])) + w;
      EscapedStep(t, at, w);
      NoHttp(t, at, w);
      PieceItems(r, t, at, rest, lineStart);
      EscapedItems(r, t[1..], Next(at, t[0]), w, t[0] == '\n');
      assert LineStartAfter(t, lineStart) == LineStartAfter(t[1..], t[0] == '\n');
      ShownStep(t);
      Assoc(Chars(ShownChar(t[0])), Chars(Shown(t[1..])), Items(r, w, Block, LineStartAfter(t, lineStart)));
    }
  }

  lemma NothingShown(at: Place, w: string)
    ensures Escaped("", at) + w == w && Chars(Shown("")) == []
  {}

  lemma ShownStep(t: string)
    requires t != ""
    ensures Chars(Shown(t)) == Chars(ShownChar(t[0])) + Chars(Shown(t[1..]))
  {
    hide Chars;
    assert Shown(t) == ShownChar(t[0]) + Shown(t[1..]);
    CharsConcat(ShownChar(t[0]), Shown(t[1..]));
  }

  lemma Assoc<T>(a: seq<T>, b: seq<T>, c: seq<T>)
    ensures a + b + c == a + (b + c)
  {}

  function ShownChar(c: char): string { if c == '@' then [c, ZERO_WIDTH_SPACE] else [c] }

  lemma OneChar(c: char)
    ensures Chars([c]) == [Text([c])]
  {
    assert [c][1..] == "";
  }

  lemma PieceItems(r: Rules, t: string, at: Place, rest: string, lineStart: bool)
    requires t != "" && (lineStart ==> at == Start) && !HttpScheme(Piece(t, at) + rest)
    ensures Items(r, Piece(t, at) + rest, Block, lineStart)
         == Chars(ShownChar(t[0])) + Items(r, rest, Block, t[0] == '\n')
  {
    hide Items, Chars, HttpScheme;
    var c := t[0];
    OneChar(c);
    if Piece(t, at) == ['\\', c] {
      EscapeItem(r, c, rest, lineStart);
    } else if c == '@' {
      MentionItems(r, rest, lineStart);
    } else {
      var e := [c] + rest;
      assert e[0] == c && e[1..] == rest;
      PlainItem(r, e, Block, lineStart);
    }
  }

  lemma MentionItems(r: Rules, rest: string, lineStart: bool)
    ensures Items(r, ['@', ZERO_WIDTH_SPACE] + rest, Block, lineStart)
         == Chars(ShownChar('@')) + Items(r, rest, Block, false)
  {
    hide Items, Token;
    var e := ['@', ZERO_WIDTH_SPACE] + rest;
    assert e[0] == '@' && e[1..][0] == ZERO_WIDTH_SPACE;
    PlainItem(r, e, Block, lineStart);
    PlainItem(r, e[1..], Block, false);
    assert e[1..][1..] == rest;
    assert ShownChar('@')[1..] == [ZERO_WIDTH_SPACE];
    assert Chars([ZERO_WIDTH_SPACE]) == [Text([ZERO_WIDTH_SPACE])];
    assert Chars(ShownChar('@')) == [Text("@"), Text([ZERO_WIDTH_SPACE])];
  }

  // ---------- Joining text ----------

  lemma PushText(out: seq<Node>, s: string, t: string)
    ensures Push(out + [Text(s)], Text(t)) == out + [Text(s + t)]
  {
    var all := out + [Text(s)];
    assert all[..|all| - 1] == out;
  }

  lemma CharsFirst(t: string)
    requires t != ""
    ensures Chars(t) == [Text([t[0]])] + Chars(t[1..])
  {}

  lemma FirstChar(out: seq<Node>, t: string, items: seq<Node>)
    requires t != ""
    ensures Merge(out, Chars(t) + items) == Merge(Push(out, Text([t[0]])), Chars(t[1..]) + items)
  {
    hide Push, Merge, Chars;
    CharsFirst(t);
    Assoc([Text([t[0]])], Chars(t[1..]), items);
    MergeFirst(out, Text([t[0]]), Chars(t[1..]) + items);
  }

  lemma MergeChars(out: seq<Node>, s: string, t: string, items: seq<Node>)
    ensures Merge(out + [Text(s)], Chars(t) + items) == Merge(out + [Text(s + t)], items)
    decreases |t|
  {
    hide Push, Merge;
    if t == "" {
      assert Chars(t) + items == items && s + t == s;
    } else {
      FirstChar(out + [Text(s)], t, items);
      PushText(out, s, [t[0]]);
      MergeChars(out, s + [t[0]], t[1..], items);
      assert s + [t[0]] + t[1..] == s + t;
    }
  }

  lemma MergeText(s: string)
    ensures Merge([], Chars(s)) == if s == "" then [] else [Text(s)]
  {
    hide Push;
    if s != "" {
      var first: seq<Node> := [];
      assert Chars(s)[1..] == Chars(s[1..]) + [];
      assert Push(first, Text([s[0]])) == first + [Text([s[0]])] by {
        PushFirst(Text([s[0]]));
      }
      MergeChars(first, [s[0]], s[1..], []);
      assert [s[0]] + s[1..] == s && first + [Text(s)] == [Text(s)];
    }
  }

  lemma PushFirst(node: Node)
    ensures Push([], node) == [] + [node]
  {}

  /** Escaped text is one text node: the original with every mention broken up. */
  lemma TextRoundTrip(r: Rules, t: string)
    ensures ParseMarkdown(r, Escaped(t, Start)) == if t == "" then [] else [Text(Shown(t))]
  {
    hide Token, Merge, Escaped, Chars;
    EscapedItems(r, t, Start, "", true);
    assert Escaped(t, Start) + "" == Escaped(t, Start);
    assert Chars(Shown(t)) + [] == Chars(Shown(t));
    MergeText(Shown(t));
  }

  // ---------- Links ----------

  /** A target the preview takes for a link: lower-case scheme, no white space, accepted by
      `httpURL`. */
  predicate Linkable(r: Rules, target: string) { LinkText(target) && r.http(target) }

  lemma TargetClean(href: string)
    ensures forall c :: c in Target(href) ==>
      c != '(' && c != ')' && c != '<' && c != '>' && c != '[' && c != ']' && c != '\\'
  {
    assert '(' in LINK_ESCAPES && ')' in LINK_ESCAPES && '<' in LINK_ESCAPES && '>' in LINK_ESCAPES
        && '[' in LINK_ESCAPES && ']' in LINK_ESCAPES && '\\' in LINK_ESCAPES;
  }

  lemma SchemeKept(u: string, w: string)
    requires HttpScheme(u)
    ensures Scheme(u + w) == Scheme(u)
  {
    if "https://" <= u {
      assert "https://" <= u + w;
    } else {
      assert "http://" <= u + w && (u + w)[4] == ':';
    }
  }

  lemma {:induction false} RunThen(p: char -> bool, u: string, w: string)
    requires (forall c :: c in u ==> p(c)) && w != "" && !p(w[0])
    ensures Run(p, u + w) == |u|
  {
    if u == "" {
      assert u + w == w;
    } else {
      assert (u + w)[1..] == u[1..] + w;
      RunThen(p, u[1..], w);
    }
  }

  lemma AngleMatch(u: string, w: string)
    requires LinkText(u) && forall c :: c in u ==> c != '<' && c != '>'
    ensures AngleAt("<" + u + ">" + w) == |u|
  {
    var t := "<" + u + ">" + w;
    var close := ['>'] + w;
    assert t[1..] == u + close;
    SchemeKept(u, close);
    var k := Scheme(u);
    forall c | c in u[k..] ensures AngleChar(c) {
      assert c in u;
    }
    RunThen(AngleChar, u[k..], close);
    assert t[k + 1..] == u[k..] + close;
    assert t[|u| + 1] == '>';
  }

  /** Neither a heading, an escape, an emoji nor a timestamp begins like a link. */
  lemma NoLeaf(t: string)
    requires |t| > 1 && (t[0] == '[' || (t[0] == '<' && t[1] == 'h'))
    ensures BlockAt(t).None? && LeafAt(t, Block).None?
  {}

  lemma SchemeHead(u: string)
    requires LinkText(u)
    ensures u != "" && u[0] == 'h'
  {}

  lemma AngleSlices(u: string, w: string)
    requires u != ""
    ensures var t := "<" + u + ">" + w; t[0] == '<' && t[1] == u[0] && t[1..|u| + 1] == u
  {}

  lemma AngleToken(r: Rules, u: string, w: string, lineStart: bool)
    requires Linkable(r, u) && forall c :: c in u ==> c != '<' && c != '>'
    ensures Token(r, "<" + u + ">" + w, Block, lineStart) == Hit(Anchor(u, [Text(u)]), |u| + 2)
  {
    hide AngleAt, BareAt, BlockAt, LeafAt, Space, LinkText, MaskedAt;
    var t := "<" + u + ">" + w;
    SchemeHead(u);
    AngleSlices(u, w);
    NoLeaf(t);
    AngleMatch(u, w);
    assert UrlAt(t) == (u, |u| + 2);
    assert LinkAt(r, t) == Some(Hit(Anchor(u, [Text(u)]), |u| + 2));
  }

  lemma MaskedToken(r: Rules, name: string, u: string, w: string, lineStart: bool)
    requires Linkable(r, u) && forall c :: c in u ==> c != '<' && c != '>' && c != '(' && c != ')'
    requires name != "" && forall c :: c in name ==> NotBracket(c)
    ensures Token(r, "[" + name + "](" + u + ")" + w, Block, lineStart)
         == Hit(Anchor(u, Parse(r, name, Name)), |name| + |u| + 4)
  {
    var t := "[" + name + "](" + u + ")" + w;
    assert t[0] == '[';
    NoLeaf(t);
    assert UrlAt(t).0 == "";
    MaskedMatch(name, u, w);
    MaskedLink(r, t, name, u, lineStart);
  }

  lemma MaskedLink(r: Rules, t: string, name: string, u: string, lineStart: bool)
    requires t != "" && BlockAt(t).None? && LeafAt(t, Block).None? && UrlAt(t).0 == "" && Linkable(r, u)
    requires MaskedAt(t) == Some(Masked(name, u, |name| + |u| + 4))
    ensures Token(r, t, Block, lineStart) == Hit(Anchor(u, Parse(r, name, Name)), |name| + |u| + 4)
  {
    hide MaskedAt, BlockAt, LeafAt, UrlAt;
    assert LinkAt(r, t) == Some(Hit(Anchor(u, Parse(r, name, Name)), |name| + |u| + 4));
  }

  lemma MaskedParts(t: string, n: nat, k: nat, m: nat)
    requires 0 < n && 0 < k && 0 < m && n + 3 + k + m < |t|
    requires t[0] == '[' && "](" <= t[n + 1..] && t[n + 3] != '<' && t[n + 3 + k + m] == ')'
    requires Run(NotBracket, t[1..]) == n && Scheme(t[n + 3..]) == k && Run(TargetChar, t[n + 3 + k..]) == m
    ensures MaskedAt(t) == Some(Masked(t[1..n + 1], t[n + 3..n + 3 + k + m], n + k + m + 4))
  {
    hide Run, Scheme, LinkText, TargetAt;
    TargetPart(t, n + 3, k, m);
  }

  lemma TargetPart(t: string, from: nat, k: nat, m: nat)
    requires 0 < k && 0 < m && from + k + m < |t|
    requires Scheme(t[from..]) == k && Run(TargetChar, t[from + k..]) == m
    ensures TargetAt(t[from..]) == k + m && t[from..][..k + m] == t[from..from + k + m]
  {
    hide Run, Scheme, LinkText;
    assert t[from..][k..] == t[from + k..];
  }

  lemma MaskedSlices(t: string, name: string, u: string, close: string)
    requires t == "[" + name + "](" + u + close
    ensures t[..1] == "[" && t[1..|name| + 1] == name && t[1..] == name + ("](" + u + close)
    ensures "](" <= t[|name| + 1..] && t[|name| + 3..] == u + close
  {}

  lemma MaskedMatch(name: string, u: string, w: string)
    requires LinkText(u) && forall c :: c in u ==> c != '<' && c != '>' && c != '(' && c != ')'
    requires name != "" && forall c :: c in name ==> NotBracket(c)
    ensures MaskedAt("[" + name + "](" + u + ")" + w) == Some(Masked(name, u, |name| + |u| + 4))
  {
    var t := "[" + name + "](" + u + ")" + w;
    var close := ")" + w;
    assert t == "[" + name + "](" + u + close;
    MaskedSlices(t, name, u, close);
    MaskedRuns(t, name, u, close);
  }

  lemma MaskedRuns(t: string, name: string, u: string, close: string)
    requires LinkText(u) && forall c :: c in u ==> c != '<' && c != '>' && c != '(' && c != ')'
    requires name != "" && forall c :: c in name ==> NotBracket(c)
    requires close != "" && close[0] == ')'
    requires |t| >= |name| + 3 && t[0] == '[' && t[1..] == name + ("](" + u + close)
    requires "](" <= t[|name| + 1..] && t[|name| + 3..] == u + close
    ensures MaskedAt(t) == Some(Masked(name, u, |name| + |u| + 4))
  {
    hide *;
    var n, k, rest := |name|, Scheme(u), t[|name| + 3..];
    NameRun(t, name, "](" + u + close);
    TargetRun(rest, u, close);
    assert rest[k..] == t[n + 3 + k..];
    assert rest[|u|] == t[n + 3 + |u|] && rest[0] == t[n + 3];
    MaskedParts(t, n, k, |u| - k);
    assert t[n + 3..n + 3 + |u|] == u;
    assert t[1..n + 1] == name;
  }

  lemma NameRun(t: string, name: string, w: string)
    requires t != "" && t[1..] == name + w && w != "" && w[0] == ']' && forall c :: c in name ==> NotBracket(c)
    ensures Run(NotBracket, t[1..]) == |name|
  {
    RunThen(NotBracket, name, w);
  }

  lemma TargetRun(t: string, u: string, close: string)
    requires LinkText(u) && forall c :: c in u ==> c != '<' && c != '>' && c != '(' && c != ')'
    requires t == u + close && close != "" && close[0] == ')'
    ensures 0 < Scheme(u) < |u| && t[0] == 'h' && t[|u|] == ')'
    ensures Scheme(t) == Scheme(u) && Run(TargetChar, t[Scheme(u)..]) == |u| - Scheme(u)
  {
    var k := Scheme(u);
    SchemeKept(u, close);
    forall c | c in u[k..] ensures TargetChar(c) {
      assert c in u;
    }
    RunThen(TargetChar, u[k..], close);
    assert t[k..] == u[k..] + close;
  }

  lemma PlainName(r: Rules, c: char)
    requires c != '\\' && c != '<' && c != '[' && c != '*' && c != '_' && c != '~'
    ensures Parse(r, [c], Name) == [Text([c])]
  {
    PlainItem(r, [c], Name, true);
    assert [c][1..] == "";
    assert Items(r, "", Name, c == '\n') == [];
    assert [] + [Text([c])] == [Text([c])];
    assert Merge([], [Text([c])]) == Merge(Push([], Text([c])), []);
  }

  /** What a reader of `Link`'s output gets. */
  function LinkItems(r: Rules, env: Env, name: string, href: string): seq<Node> {
    var target := Target(href);
    if name == target && HttpScheme(target) then [Anchor(target, [Text(target)])]
    else if Unsafe(env, name) then Chars(Shown(name)) + [Text(" "), Anchor(target, [Text(ARROW)])]
    else [Anchor(target, Parse(r, name, Name))]
  }

  lemma TokenItems(r: Rules, t: string, w: string, lineStart: bool, node: Node)
    requires t != "" && t[|t| - 1] != '\n' && Token(r, t + w, Block, lineStart) == Hit(node, |t|)
    ensures Items(r, t + w, Block, lineStart) == [node] + Items(r, w, Block, false)
  {
    hide Token;
    Beyond(t, w);
  }

  lemma Beyond(t: string, w: string)
    requires t != ""
    ensures (t + w)[|t|..] == w && (t + w)[|t| - 1] == t[|t| - 1]
  {}

  lemma LinkReads(r: Rules, env: Env, name: string, href: string, w: string, lineStart: bool)
    requires name != "" && Linkable(r, Target(href))
    ensures Items(r, Link(env, name, href) + w, Block, lineStart)
         == LinkItems(r, env, name, href) + Items(r, w, Block, false)
  {
    hide Token, Items, Target;
    var target := Target(href);
    TargetClean(href);
    if name == target && HttpScheme(target) {
      AngleToken(r, target, w, lineStart);
      TokenItems(r, "<" + target + ">", w, lineStart, Anchor(target, [Text(target)]));
    } else if Unsafe(env, name) {
      ArrowReads(r, name, target, w, lineStart);
    } else {
      var t := "[" + name + "](" + target + ")";
      MaskedToken(r, name, target, w, lineStart);
      TokenItems(r, t, w, lineStart, Anchor(target, Parse(r, name, Name)));
    }
  }

  lemma Spaced(e: string, target: string, w: string)
    ensures e + " [" + ARROW + "](" + target + ")" + w == e + (" " + ("[" + ARROW + "](" + target + ")" + w))
  {}

  lemma ArrowReads(r: Rules, name: string, target: string, w: string, lineStart: bool)
    requires Linkable(r, target)
    requires forall c :: c in target ==> c != '<' && c != '>' && c != '(' && c != ')'
    ensures Items(r, Escaped(name, Start) + " [" + ARROW + "](" + target + ")" + w, Block, lineStart)
         == Chars(Shown(name)) + [Text(" "), Anchor(target, [Text(ARROW)])] + Items(r, w, Block, false)
  {
    hide Token, Items, Escaped, Shown, Chars, LinkText, ARROW, Linkable;
    var t := "[" + ARROW + "](" + target + ")";
    var spaced := " " + (t + w);
    Spaced(Escaped(name, Start), target, w);
    EscapedItems(r, name, Start, spaced, lineStart);
    ArrowTail(r, target, w, LineStartAfter(name, lineStart));
    Assoc(Chars(Shown(name)), [Text(" "), Anchor(target, [Text(ARROW)])], Items(r, w, Block, false));
  }

  lemma ArrowTail(r: Rules, target: string, w: string, lineStart: bool)
    requires Linkable(r, target)
    requires forall c :: c in target ==> c != '<' && c != '>' && c != '(' && c != ')'
    ensures Items(r, " " + ("[" + ARROW + "](" + target + ")" + w), Block, lineStart)
         == [Text(" "), Anchor(target, [Text(ARROW)])] + Items(r, w, Block, false)
  {
    hide Token, Items, LinkText;
    var t := "[" + ARROW + "](" + target + ")";
    var spaced := " " + (t + w);
    assert spaced[0] == ' ' && spaced[1..] == t + w;
    PlainItem(r, spaced, Block, lineStart);
    PlainName(r, ARROW[0]);
    assert ARROW == [ARROW[0]];
    MaskedToken(r, ARROW, target, w, false);
    TokenItems(r, t, w, false, Anchor(target, [Text(ARROW)]));
  }

  // ---------- Captions ----------

  /** Span texts begin like the patterns that find them: with no character that could continue a
      scheme. */
  predicate Detected(text: string, spans: seq<Span>) {
    forall s :: s in spans ==> s.start < s.end <= |text| && Fresh(text[s.start..s.end])
  }

  /** What a reader of `Linked`'s output gets. */
  function CaptionItems(r: Rules, env: Env, text: string, links: seq<Span>, last: nat, stop: nat): seq<Node>
    requires last <= stop <= |text| && Ordered(links, last, stop)
  {
    if links == [] then Chars(Shown(text[last..stop]))
    else
      Chars(Shown(text[last..links[0].start]))
      + LinkItems(r, env, text[links[0].start..links[0].end], links[0].href)
      + CaptionItems(r, env, text, links[1..], links[0].end, stop)
  }

  lemma FreshLink(env: Env, name: string, href: string, w: string)
    requires name != "" && Fresh(name)
    ensures Fresh(Link(env, name, href) + w)
  {
    var target := Target(href);
    if !(name == target && HttpScheme(target)) && Unsafe(env, name) {
      assert Escaped(name, Start)[0] == Piece(name, Start)[0];
    }
  }

  lemma Associate<T>(a: seq<T>, b: seq<T>, c: seq<T>, d: seq<T>)
    ensures a + b + c + d == a + (b + (c + d)) == a + b + (c + d)
  {}

  lemma {:induction false} LinkedItems(
      r: Rules, env: Env, text: string, links: seq<Span>, last: nat, stop: nat, w: string, lineStart: bool)
    requires last <= stop <= |text| && Ordered(links, last, stop) && Detected(text, links) && Fresh(w)
    requires forall s :: s in links ==> Linkable(r, Target(s.href))
    requires w == "" || w == ELLIPSIS
    ensures Items(r, Linked(env, text, links, last, stop) + w, Block, lineStart)
         == CaptionItems(r, env, text, links, last, stop) + Chars(w)
    decreases |links|
  {
    hide Items, Token, Link, LinkItems, Escaped, Shown, Linkable, Chars;
    if links == [] {
      var t := text[last..stop];
      EscapedItems(r, t, Start, w, lineStart);
      EndItems(r, w, LineStartAfter(t, lineStart));
    } else {
      var s := links[0];
      var gap, name := text[last..s.start], text[s.start..s.end];
      var rest := Linked(env, text, links[1..], s.end, stop);
      LinkedItems(r, env, text, links[1..], s.end, stop, w, false);
      LinkThen(r, env, gap, name, s.href, rest + w, lineStart);
      Associate(Escaped(gap, Start), Link(env, name, s.href), rest, w);
      Associate(Chars(Shown(gap)), LinkItems(r, env, name, s.href),
                CaptionItems(r, env, text, links[1..], s.end, stop), Chars(w));
    }
  }

  lemma LinkThen(r: Rules, env: Env, gap: string, name: string, href: string, w: string, lineStart: bool)
    requires name != "" && Fresh(name) && Linkable(r, Target(href))
    ensures Items(r, Escaped(gap, Start) + (Link(env, name, href) + w), Block, lineStart)
         == Chars(Shown(gap)) + LinkItems(r, env, name, href) + Items(r, w, Block, false)
  {
    hide Items, Token, Link, LinkItems, Escaped, Shown, Linkable, Chars;
    FreshLink(env, name, href, w);
    EscapedItems(r, gap, Start, Link(env, name, href) + w, lineStart);
    LinkReads(r, env, name, href, w, LineStartAfter(gap, lineStart));
  }

  lemma EndItems(r: Rules, w: string, lineStart: bool)
    requires w == "" || w == ELLIPSIS
    ensures Items(r, w, Block, lineStart) == Chars(w)
  {
    if w != "" {
      PlainItem(r, w, Block, lineStart);
      assert w[1..] == "";
      assert Items(r, "", Block, false) == [];
      assert Chars(w) == [Text([w[0]])];
    }
  }

  /** The whole preview of a caption: its text with mentions broken up, and its links. */
  lemma CaptionReads(r: Rules, env: Env, text: string, spans: seq<Span>, end: nat)
    requires Ordered(spans, 0, |text|) && end <= |text| && Detected(text, spans)
    requires forall s :: s in Kept(env, spans, end) ==> Linkable(r, Target(s.href))
    ensures var stop := Stop(spans, end);
            0 <= stop <= |text| && Ordered(Kept(env, spans, end), 0, stop) &&
            ParseMarkdown(r, Caption(env, text, spans, end))
            == Merge([], CaptionItems(r, env, text, Kept(env, spans, end), 0, stop)
                         + (if stop < |text| then [Text("\U{2026}")] else []))
  {
    KeptOrdered(env, spans, end, 0, |text|);
    KeptSubset(env, spans, end);
    var w := if Stop(spans, end) < |text| then ELLIPSIS else "";
    LinkedItems(r, env, text, Kept(env, spans, end), 0, Stop(spans, end), w, true);
    assert Chars(ELLIPSIS) == [Text(ELLIPSIS)];
    assert Chars("") == [];
  }

  lemma KeptSubset(env: Env, spans: seq<Span>, end: nat)
    ensures forall s :: s in Kept(env, spans, end) <==> s in spans && s.end <= end && env.media(s.href)
  {
    if spans != [] {
      KeptSubset(env, spans[1..], end);
    }
  }

  // ---------- Link targets ----------

  /** The links of a parsed text, in order, at whatever depth. */
  function Targets(nodes: seq<Node>): seq<string>
    decreases nodes
  {
    if nodes == [] then [] else LinksOf(nodes[0]) + Targets(nodes[1..])
  }

  function LinksOf(node: Node): seq<string>
    decreases node
  {
    match node
    case Styled(_, children) => Targets(children)
    case Anchor(target, children) => [target] + Targets(children)
    case _ => []
  }

  /** The links a caption is meant to have. */
  function Hrefs(links: seq<Span>): (r: seq<string>)
    ensures |r| == |links| && forall i :: 0 <= i < |r| ==> r[i] == Target(links[i].href)
  {
    if links == [] then [] else [Target(links[0].href)] + Hrefs(links[1..])
  }

  lemma TargetsConcat(a: seq<Node>, b: seq<Node>)
    ensures Targets(a + b) == Targets(a) + Targets(b)
  {
    if a == [] {
      assert a + b == b;
    } else {
      assert (a + b)[1..] == a[1..] + b;
    }
  }

  lemma OneTarget(node: Node)
    ensures Targets([node]) == LinksOf(node)
  {
    assert [node][1..] == [];
  }

  lemma PushTargets(out: seq<Node>, node: Node)
    ensures Targets(Push(out, node)) == Targets(out) + LinksOf(node)
  {
    TargetsConcat(out, [node]);
    OneTarget(node);
    if node.Text? && out != [] && out[|out| - 1].Text? {
      var front, last := out[..|out| - 1], out[|out| - 1];
      assert out == front + [last];
      TargetsConcat(front, [last]);
      TargetsConcat(front, [Text(last.text + node.text)]);
      OneTarget(last);
      OneTarget(Text(last.text + node.text));
    }
  }

  lemma {:induction false} TargetsMerged(out: seq<Node>, items: seq<Node>)
    ensures Targets(Merge(out, items)) == Targets(out) + Targets(items)
    decreases |items|
  {
    hide Push, LinksOf;
    if items != [] {
      TargetsMerged(Push(out, items[0]), items[1..]);
      PushTargets(out, items[0]);
    }
  }

  lemma ParseTargets(r: Rules, t: string, mode: Mode)
    ensures Targets(Parse(r, t, mode)) == Targets(Items(r, t, mode, true))
  {
    hide Targets, Items;
    TargetsMerged([], Items(r, t, mode, true));
    NoTargets();
  }

  lemma NoTargets()
    ensures Targets([]) == []
  {}

  lemma ItemsTargets(r: Rules, t: string, mode: Mode, lineStart: bool)
    requires t != ""
    ensures var hit := Token(r, t, mode, lineStart);
            Targets(Items(r, t, mode, lineStart))
            == LinksOf(hit.node) + Targets(Items(r, t[hit.size..], mode, t[hit.size - 1] == '\n'))
  {
    hide Token, LinksOf;
    var hit := Token(r, t, mode, lineStart);
    var rest := Items(r, t[hit.size..], mode, t[hit.size - 1] == '\n');
    assert ([hit.node] + rest)[1..] == rest;
  }

  /** What a token in a link name can be: text, an emoji, a timestamp, or a style around a shorter name. */
  lemma NameToken(r: Rules, t: string, lineStart: bool)
    requires t != ""
    ensures var node := Token(r, t, Name, lineStart).node;
            || node.Text? || node.Emoji? || node.Time?
            || (node.Styled? && exists inner: string :: |inner| < |t| && node.children == Parse(r, inner, Name))
  {
    hide Parse, LinkAt, BlockAt, Scheme;
    LeafShape(t, Name);
    if LeafAt(t, Name).None? && r.style(t).Some? {
      assert |r.style(t).value.inner| < |t|;
    }
  }

  lemma LeafShape(t: string, mode: Mode)
    ensures LeafAt(t, mode).Some? ==>
      var node := LeafAt(t, mode).value.node; node.Text? || node.Emoji? || node.Time?
  {
    hide Number, Run;
  }

  /** Names of links hold no links, at any depth. */
  lemma {:induction false} NamesHaveNoLinks(r: Rules, t: string, lineStart: bool)
    ensures Targets(Items(r, t, Name, lineStart)) == []
    decreases |t|
  {
    hide Token, Parse;
    if t != "" {
      var hit := Token(r, t, Name, lineStart);
      ItemsTargets(r, t, Name, lineStart);
      NamesHaveNoLinks(r, t[hit.size..], t[hit.size - 1] == '\n');
      NameToken(r, t, lineStart);
      if hit.node.Styled? {
        var inner: string :| |inner| < |t| && hit.node.children == Parse(r, inner, Name);
        NamesHaveNoLinks(r, inner, true);
        ParseTargets(r, inner, Name);
      }
    }
  }

  lemma NameHasNoLinks(r: Rules, name: string)
    ensures Targets(Parse(r, name, Name)) == []
  {
    NamesHaveNoLinks(r, name, true);
    ParseTargets(r, name, Name);
  }

  lemma CharsHaveNoTargets(t: string)
    ensures Targets(Chars(t)) == []
  {}

  lemma ArrowTargets(target: string)
    ensures Targets([Text(" "), Anchor(target, [Text(ARROW)])]) == [target]
  {
    var arrow := [Text(" "), Anchor(target, [Text(ARROW)])];
    OneTarget(Text(ARROW));
    OneTarget(Anchor(target, [Text(ARROW)]));
    assert arrow[1..] == [Anchor(target, [Text(ARROW)])];
  }

  lemma LinkTargets(r: Rules, env: Env, name: string, href: string)
    ensures Targets(LinkItems(r, env, name, href)) == [Target(href)]
  {
    hide Target, Chars, Shown, Unsafe, Parse, Targets;
    var target := Target(href);
    if name == target && HttpScheme(target) {
      OneTarget(Anchor(target, [Text(target)]));
      OneTarget(Text(target));
    } else if Unsafe(env, name) {
      CharsHaveNoTargets(Shown(name));
      TargetsConcat(Chars(Shown(name)), [Text(" "), Anchor(target, [Text(ARROW)])]);
      ArrowTargets(target);
    } else {
      OneTarget(Anchor(target, Parse(r, name, Name)));
      NameHasNoLinks(r, name);
    }
  }

  lemma {:induction false} CaptionTargets(r: Rules, env: Env, text: string, links: seq<Span>, last: nat, stop: nat)
    requires last <= stop <= |text| && Ordered(links, last, stop)
    ensures Targets(CaptionItems(r, env, text, links, last, stop)) == Hrefs(links)
    decreases |links|
  {
    hide LinkItems, Chars, Shown, Targets, Target;
    if links == [] {
      CharsHaveNoTargets(Shown(text[last..stop]));
    } else {
      var s := links[0];
      var gap, name := text[last..s.start], text[s.start..s.end];
      CaptionTargets(r, env, text, links[1..], s.end, stop);
      FirstTargets(r, env, gap, name, s.href, CaptionItems(r, env, text, links[1..], s.end, stop));
    }
  }

  lemma FirstTargets(r: Rules, env: Env, gap: string, name: string, href: string, rest: seq<Node>)
    ensures Targets(Chars(Shown(gap)) + LinkItems(r, env, name, href) + rest) == [Target(href)] + Targets(rest)
  {
    hide LinkItems, Chars, Shown, Targets, Target;
    CharsHaveNoTargets(Shown(gap));
    LinkTargets(r, env, name, href);
    TargetsConcat(Chars(Shown(gap)), LinkItems(r, env, name, href));
    TargetsConcat(Chars(Shown(gap)) + LinkItems(r, env, name, href), rest);
    assert [] + [Target(href)] == [Target(href)];
  }

  ghost predicate AllLinkable(r: Rules, targets: seq<string>) { forall u :: u in targets ==> Linkable(r, u) }

  /** The nodes of a link name. */
  ghost predicate Named(r: Rules, nodes: seq<Node>) { exists name: string :: nodes == Parse(r, name, Name) }

  lemma NamedChildren(r: Rules, nodes: seq<Node>, name: string)
    requires nodes == Parse(r, name, Name)
    ensures Named(r, nodes)
  {
    hide Parse;
  }

  lemma LinkShape(r: Rules, t: string)
    requires t != "" && LinkAt(r, t).Some?
    ensures var node := LinkAt(r, t).value.node; node.children == [Text(node.target)] || Named(r, node.children)
  {
    hide Parse, UrlAt, MaskedAt, LinkText, Named;
    var url := UrlAt(t).0;
    if url == "" || !r.http(url) {
      NamedChildren(r, LinkAt(r, t).value.node.children, MaskedAt(t).value.name);
    }
  }

  /** What a token can be, outside link names: a leaf, a link, or a style or heading around a
      shorter text. */
  lemma TokenShape(r: Rules, t: string, mode: Mode, lineStart: bool)
    requires t != "" && mode != Name
    ensures var node := Token(r, t, mode, lineStart).node;
            || node.Text? || node.Emoji? || node.Time?
            || (node.Styled? && exists inner: string :: |inner| < |t| && node.children == Parse(r, inner, Inline))
            || (node.Anchor? && Linkable(r, node.target)
                && (node.children == [Text(node.target)] || Named(r, node.children)))
  {
    hide Parse, LinkText, LinkAt, Named;
    LeafShape(t, mode);
    if LinkAt(r, t).Some? {
      LinkShape(r, t);
    }
    var heading := if mode == Block && lineStart then BlockAt(t) else None;
    if heading.Some? {
      assert |heading.value.inner| < |t|;
    } else if LeafAt(t, mode).None? && LinkAt(r, t).None? && r.style(t).Some? {
      assert |r.style(t).value.inner| < |t|;
    }
  }

  lemma BothLinkable(r: Rules, a: seq<string>, b: seq<string>)
    requires AllLinkable(r, a) && AllLinkable(r, b)
    ensures AllLinkable(r, a + b)
  {
    hide Linkable;
  }

  /** Every link the parser makes, from any input and at any depth, has a linkable target. */
  lemma {:induction false} TargetsLinkable(r: Rules, t: string, mode: Mode, lineStart: bool)
    ensures AllLinkable(r, Targets(Items(r, t, mode, lineStart)))
    decreases |t|
  {
    hide Token, Parse, Linkable, Named, Items, Targets, AllLinkable;
    if t == "" {
      NothingLinked(r, mode, lineStart);
    } else if mode == Name {
      NamesHaveNoLinks(r, t, lineStart);
      NothingLinked(r, Name, lineStart);
    } else {
      var hit := Token(r, t, mode, lineStart);
      ItemsTargets(r, t, mode, lineStart);
      TargetsLinkable(r, t[hit.size..], mode, t[hit.size - 1] == '\n');
      TokenShape(r, t, mode, lineStart);
      if hit.node.Styled? {
        var inner: string :| |inner| < |t| && hit.node.children == Parse(r, inner, Inline);
        TargetsLinkable(r, inner, Inline, true);
        ParseTargets(r, inner, Inline);
      } else if hit.node.Anchor? {
        AnchorLinkable(r, hit.node);
      } else {
        NothingLinked(r, mode, lineStart);
      }
      BothLinkable(r, LinksOf(hit.node), Targets(Items(r, t[hit.size..], mode, t[hit.size - 1] == '\n')));
    }
  }

  lemma NothingLinked(r: Rules, mode: Mode, lineStart: bool)
    ensures AllLinkable(r, []) && Targets(Items(r, "", mode, lineStart)) == []
  {}

  lemma AnchorLinkable(r: Rules, node: Node)
    requires node.Anchor? && Linkable(r, node.target)
    requires node.children == [Text(node.target)] || Named(r, node.children)
    ensures LinksOf(node) == [node.target] && AllLinkable(r, LinksOf(node))
  {
    hide Parse, Targets, Linkable;
    OneTarget(Text(node.target));
    if Named(r, node.children) {
      var name: string :| node.children == Parse(r, name, Name);
      NameHasNoLinks(r, name);
    }
  }

  lemma LinkableCaption(r: Rules, env: Env, text: string, spans: seq<Span>, end: nat)
    requires Ordered(spans, 0, |text|) && end <= |text| && Detected(text, spans)
    requires forall s :: s in Kept(env, spans, end) ==> Linkable(r, Target(s.href))
    ensures Targets(ParseMarkdown(r, Caption(env, text, spans, end))) == Hrefs(Kept(env, spans, end))
  {
    hide Targets, Hrefs, CaptionItems, ParseMarkdown, Caption, Kept, Stop, Detected, Linkable;
    var kept, stop := Kept(env, spans, end), Stop(spans, end);
    CaptionReads(r, env, text, spans, end);
    var items := CaptionItems(r, env, text, kept, 0, stop);
    var tail := if stop < |text| then [Text(ELLIPSIS)] else [];
    TargetsMerged([], items + tail);
    TargetsConcat(items, tail);
    CaptionTargets(r, env, text, kept, 0, stop);
    NoTargets();
    OneTarget(Text(ELLIPSIS));
  }

  lemma UnlinkableCaption(r: Rules, env: Env, text: string, spans: seq<Span>, end: nat, i: nat)
    requires Ordered(spans, 0, |text|) && end <= |text|
    requires i < |Kept(env, spans, end)| && !Linkable(r, Target(Kept(env, spans, end)[i].href))
    ensures Targets(ParseMarkdown(r, Caption(env, text, spans, end))) != Hrefs(Kept(env, spans, end))
  {
    hide Targets, Parse, Items, Caption, Kept, Linkable, Target;
    var caption := Caption(env, text, spans, end);
    ParseTargets(r, caption, Block);
    TargetsLinkable(r, caption, Block, true);
    var hrefs := Hrefs(Kept(env, spans, end));
    assert hrefs[i] in hrefs;
  }

  lemma HrefsLead(links: seq<Span>)
    ensures Lead(Hrefs(links), links)
  {
    hide Target, Decoded;
    forall i | 0 <= i < |links| ensures Decoded(Hrefs(links)[i]) == Decoded(links[i].href) {
      TargetMeans(links[i].href);
    }
  }

  /** The links read back from a caption, at whatever depth, are those of the spans it keeps, in
      order, exactly when each of their targets is linkable; then they lead where the spans do. */
  lemma CaptionLinks(r: Rules, env: Env, text: string, spans: seq<Span>, end: nat)
    requires Ordered(spans, 0, |text|) && end <= |text| && Detected(text, spans)
    ensures var targets, kept := Targets(ParseMarkdown(r, Caption(env, text, spans, end))), Kept(env, spans, end);
            && (targets == Hrefs(kept) <==> forall s :: s in kept ==> Linkable(r, Target(s.href)))
            && ((forall s :: s in kept ==> Linkable(r, Target(s.href))) ==> Lead(targets, kept))
  {
    hide Targets, Hrefs, ParseMarkdown, Caption, Kept, Detected, Linkable, Target, Lead;
    var kept := Kept(env, spans, end);
    if forall s :: s in kept ==> Linkable(r, Target(s.href)) {
      LinkableCaption(r, env, text, spans, end);
      HrefsLead(kept);
    } else {
      var i :| 0 <= i < |kept| && !Linkable(r, Target(kept[i].href));
      UnlinkableCaption(r, env, text, spans, end, i);
    }
  }

  /** An upper-case scheme, which link detection and the printer accept, is no link to the preview. */
  lemma UpperCaseSchemeIsLost(r: Rules, env: Env, text: string)
    requires "HTTPS://" < text && env.media(text)
    ensures var spans := [Span(0, |text|, text)];
            Targets(ParseMarkdown(r, Caption(env, text, spans, |text|))) != Hrefs(Kept(env, spans, |text|))
  {
    hide Caption, ParseMarkdown, Targets, Hrefs, LinkText, Target, Kept;
    var s := Span(0, |text|, text);
    assert text[0] == 'H' && text[0..|text|] == text;
    assert [s][1..] == [];
    NotLinkable(r, text);
    CaptionLinks(r, env, text, [s], |text|);
    KeptSubset(env, [s], |text|);
    assert s in [s];
  }

  lemma NotLinkable(r: Rules, text: string)
    requires text != "" && text[0] == 'H'
    ensures !Linkable(r, Target(text))
  {
    assert 'H' !in LINK_ESCAPES;
    assert Target(text)[0] == 'H';
  }

  lemma TargetGrows(n: nat)
    ensures |Target(seq(n, _ => '('))| == 3 * n
  {
    var t := seq(n, _ => '(');
    if n > 0 {
      TargetGrows(n - 1);
      assert t[1..] == seq(n - 1, _ => '(');
    }
  }

  /** A URL within the printer's limit of 2048 bytes can have a target beyond the preview's limit
      of 2048 characters: each parenthesis is written as three. */
  lemma LongTargetIsLost(r: Rules, env: Env)
    requires forall u :: r.http(u) ==> |u| <= 2048
    ensures var href := "https://a/" + seq(2038, _ => '(');
            |href| == 2048 && |Target(href)| > 2048 && !Linkable(r, Target(href))
  {
    var tail := seq(2038, _ => '(');
    TargetGrows(2038);
    TargetConcat("https://a/", tail);
  }

  lemma {:induction false} TargetConcat(a: string, b: string)
    ensures Target(a + b) == Target(a) + Target(b)
  {
    hide LINK_ESCAPES;
    if a == "" {
      assert a + b == b;
    } else {
      assert (a + b)[1..] == a[1..] + b;
      TargetConcat(a[1..], b);
      Assoc(if a[0] in LINK_ESCAPES then LINK_ESCAPES[a[0]] else [a[0]], Target(a[1..]), Target(b));
    }
  }
}
