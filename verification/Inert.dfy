/** Escaped text as Discord reads it: a backslash takes the meaning from the character after it. */
module Inert {
  import opened DiscordMarkdown

  datatype Glyph = Glyph(c: char, escaped: bool)

  function Glyphs(e: string): seq<Glyph> {
    if e == "" then []
    else if e[0] == '\\' && |e| > 1 then [Glyph(e[1], true)] + Glyphs(e[2..])
    else [Glyph(e[0], false)] + Glyphs(e[1..])
  }

  function Letters(gs: seq<Glyph>): string { if gs == [] then "" else [gs[0].c] + Letters(gs[1..]) }

  /** Characters that mean something wherever they stand. */
  predicate Active(c: char) {
    || c == '*' || c == '_' || c == '~' || c == '`' || c == '|'
    || c == '[' || c == ']' || c == '<' || c == '\\'
  }

  /** Characters that begin a heading, a quote or a list. */
  predicate Opens(c: char) { c == '#' || c == '>' || c == '-' || c == '+' }

  predicate Bare(gs: seq<Glyph>, i: nat, c: char) { i < |gs| && gs[i] == Glyph(c, false) }

  /** Nothing in the glyphs means anything: no markup, no heading, quote or list, no numbered list,
      no URL scheme, no mention. */
  predicate Dead(gs: seq<Glyph>, at: Place) {
    gs == [] ||
      var g := gs[0];
      && (!g.escaped ==> !Active(g.c))
      && (!g.escaped && at == Start ==> !Opens(g.c))
      && (!g.escaped && at == Digits ==> g.c != '.')
      && !(Bare(gs, 0, ':') && Bare(gs, 1, '/') && Bare(gs, 2, '/'))
      && (g.c == '@' ==> Bare(gs, 1, '\U{200B}'))
      && Dead(gs[1..], if g.c == '\n' then Start else if at != Mid && '0' <= g.c <= '9' then Digits else Mid)
  }

  lemma PlainGlyph(c: char, w: string)
    requires c != '\\'
    ensures Glyphs([c] + w) == [Glyph(c, false)] + Glyphs(w)
  {
    assert ([c] + w)[1..] == w;
  }

  lemma EscapedGlyph(c: char, w: string)
    ensures Glyphs(['\\', c] + w) == [Glyph(c, true)] + Glyphs(w)
  {
    assert (['\\', c] + w)[2..] == w;
  }

  /** The glyphs of one character of the text. */
  function PieceGlyphs(t: string, at: Place): seq<Glyph>
    requires t != ""
  {
    if Piece(t, at) == ['\\', t[0]] then [Glyph(t[0], true)]
    else if t[0] == '@' then [Glyph('@', false), Glyph(ZERO_WIDTH_SPACE, false)]
    else [Glyph(t[0], false)]
  }

  lemma GlyphsPiece(t: string, at: Place)
    requires t != ""
    ensures Glyphs(Escaped(t, at)) == PieceGlyphs(t, at) + Glyphs(Escaped(t[1..], Next(at, t[0])))
  {
    hide Glyphs, Escaped, Next;
    var rest := Escaped(t[1..], Next(at, t[0]));
    PieceFirst(t, at);
    if Piece(t, at) == ['\\', t[0]] {
      EscapedGlyph(t[0], rest);
    } else if t[0] == '@' {
      MentionGlyphs(rest);
    } else {
      PlainGlyph(t[0], rest);
    }
  }

  lemma PieceFirst(t: string, at: Place)
    requires t != ""
    ensures Escaped(t, at) == Piece(t, at) + Escaped(t[1..], Next(at, t[0]))
  {
    hide Piece, Next;
  }

  lemma MentionGlyphs(w: string)
    ensures Glyphs(['@', ZERO_WIDTH_SPACE] + w) == [Glyph('@', false), Glyph(ZERO_WIDTH_SPACE, false)] + Glyphs(w)
  {
    hide Glyphs;
    PlainGlyph('@', [ZERO_WIDTH_SPACE] + w);
    PlainGlyph(ZERO_WIDTH_SPACE, w);
    assert ['@', ZERO_WIDTH_SPACE] + w == ['@'] + ([ZERO_WIDTH_SPACE] + w);
  }

  lemma HeadGlyph(t: string, at: Place)
    ensures var gs := Glyphs(Escaped(t, at)); (t == "" <==> gs == []) && (t != "" ==> gs[0].c == t[0])
  {
    if t != "" {
      GlyphsPiece(t, at);
    }
  }

  lemma NoSchemeHere(t: string, at: Place)
    requires t != ""
    ensures var gs := Glyphs(Escaped(t, at)); !(Bare(gs, 0, ':') && Bare(gs, 1, '/') && Bare(gs, 2, '/'))
  {
    hide Glyphs, Escaped;
    GlyphsPiece(t, at);
    if t[0] == ':' && Piece(t, at) == [':'] {
      var u := t[1..];
      var at' := Next(at, ':');
      HeadGlyph(u, at');
      if u != "" && u[0] == '/' {
        GlyphsPiece(u, at');
        HeadGlyph(u[1..], Next(at', '/'));
      }
    }
  }

  /** The glyphs of escaped text are dead, and they are the text, every mention broken up. */
  lemma {:induction false} EscapedIsDead(t: string, at: Place)
    ensures Dead(Glyphs(Escaped(t, at)), at)
    ensures Letters(Glyphs(Escaped(t, at))) == Shown(t)
    decreases |t|
  {
    hide Glyphs, Escaped;
    if t == "" {
      NoGlyphs(at);
    } else {
      var rest := Glyphs(Escaped(t[1..], Next(at, t[0])));
      GlyphsPiece(t, at);
      EscapedIsDead(t[1..], Next(at, t[0]));
      NoSchemeHere(t, at);
      DeadFirst(t, at, rest);
    }
  }

  lemma NoGlyphs(at: Place)
    ensures Glyphs(Escaped("", at)) == []
  {}

  lemma DeadFirst(t: string, at: Place, rest: seq<Glyph>)
    requires t != "" && Dead(rest, Next(at, t[0]))
    requires var gs := PieceGlyphs(t, at) + rest; !(Bare(gs, 0, ':') && Bare(gs, 1, '/') && Bare(gs, 2, '/'))
    ensures Dead(PieceGlyphs(t, at) + rest, at)
    ensures Letters(PieceGlyphs(t, at) + rest)
         == (if t[0] == '@' then ['@', ZERO_WIDTH_SPACE] else [t[0]]) + Letters(rest)
  {
    if t[0] == '@' {
      MentionDead(at, rest);
    } else {
      var g := PieceGlyphs(t, at)[0];
      assert PieceGlyphs(t, at) == [g];
      assert ([g] + rest)[1..] == rest;
    }
  }

  lemma MentionDead(at: Place, rest: seq<Glyph>)
    requires Dead(rest, Mid)
    ensures var gs := [Glyph('@', false), Glyph(ZERO_WIDTH_SPACE, false)] + rest;
            Dead(gs, at) && Letters(gs) == ['@', ZERO_WIDTH_SPACE] + Letters(rest)
  {
    var zero := [Glyph(ZERO_WIDTH_SPACE, false)] + rest;
    assert zero[1..] == rest;
    assert Dead(zero, Mid) && Letters(zero) == [ZERO_WIDTH_SPACE] + Letters(rest);
    var gs := [Glyph('@', false), Glyph(ZERO_WIDTH_SPACE, false)] + rest;
    assert gs[1..] == zero;
  }
}
