/** What the escapes of a link target mean: percent-encoding, section 2.1 of RFC 3986. */
module Percent {
  import opened Prelude
  import opened DiscordMarkdown

  function Hex(c: char): (d: Option<nat>)
    ensures d.Some? ==> d.value < 16
  {
    if '0' <= c <= '9' then Some(c as int - '0' as int)
    else if 'A' <= c <= 'F' then Some(10 + c as int - 'A' as int)
    else if 'a' <= c <= 'f' then Some(10 + c as int - 'a' as int)
    else None
  }

  predicate HexPair(t: string) { |t| >= 2 && Hex(t[0]).Some? && Hex(t[1]).Some? }

  /** A "%" and two hexadecimal digits stand for the character of that number, anything else for
      itself. */
  function Decoded(t: string): string {
    if t == "" then ""
    else if t[0] == '%' && HexPair(t[1..]) then
      [(16 * Hex(t[1]).value + Hex(t[2]).value) as char] + Decoded(t[3..])
    else [t[0]] + Decoded(t[1..])
  }

  /** The characters that a link target in Markdown cannot hold as they are. */
  predicate Reserved(c: char) {
    c == '(' || c == ')' || c == '\\' || c == '[' || c == ']' || c == '<' || c == '>'
  }

  lemma Escapes(c: char)
    ensures c in LINK_ESCAPES <==> Reserved(c)
    ensures Reserved(c) ==> |LINK_ESCAPES[c]| == 3 && LINK_ESCAPES[c][0] == '%' && HexPair(LINK_ESCAPES[c][1..])
    ensures Reserved(c) ==> 16 * Hex(LINK_ESCAPES[c][1]).value + Hex(LINK_ESCAPES[c][2]).value == c as int
  {}

  lemma EscapeDecodes(c: char, w: string)
    requires Reserved(c)
    ensures c in LINK_ESCAPES && Decoded(LINK_ESCAPES[c] + w) == [c] + Decoded(w)
  {
    Escapes(c);
    hide LINK_ESCAPES, Hex;
    var e := LINK_ESCAPES[c];
    var t := e + w;
    assert t[0] == '%' && t[1] == e[1] && t[2] == e[2] && t[3..] == w;
    assert t[1..][0] == e[1] && t[1..][1] == e[2] && e[1..][0] == e[1] && e[1..][1] == e[2];
  }

  lemma TargetStep(href: string)
    requires href != ""
    ensures Target(href)
         == (if Reserved(href[0]) then LINK_ESCAPES[href[0]] else [href[0]]) + Target(href[1..])
  {
    Escapes(href[0]);
    hide LINK_ESCAPES;
  }

  lemma TargetHead(href: string)
    ensures href == "" <==> Target(href) == ""
    ensures href != "" ==> Target(href)[0] == if Reserved(href[0]) then '%' else href[0]
  {
    if href != "" {
      TargetStep(href);
      Escapes(href[0]);
      hide LINK_ESCAPES, Target;
    }
  }

  /** Escaping neither makes nor breaks a pair of hexadecimal digits. */
  lemma PairKept(href: string)
    ensures HexPair(Target(href)) <==> HexPair(href)
    ensures HexPair(href) ==>
      Target(href)[0] == href[0] && Target(href)[1] == href[1] && Target(href)[2..] == Target(href[2..])
  {
    TargetHead(href);
    if href != "" && Hex(href[0]).Some? {
      TargetStep(href);
      TargetHead(href[1..]);
      if |href| >= 2 && Hex(href[1]).Some? {
        TargetStep(href[1..]);
        assert href[1..][1..] == href[2..];
      }
    }
  }

  lemma DecodedStep(c: char, w: string)
    ensures c != '%' || !HexPair(w) ==> Decoded([c] + w) == [c] + Decoded(w)
    ensures c == '%' && HexPair(w) ==>
      Decoded([c] + w) == [(16 * Hex(w[0]).value + Hex(w[1]).value) as char] + Decoded(w[2..])
  {
    hide Hex;
    var t := [c] + w;
    assert t[1..] == w;
    if HexPair(w) {
      assert t[1] == w[0] && t[2] == w[1] && t[3..] == w[2..];
    }
  }

  /** An escaped target means what the address meant. */
  lemma {:induction false} TargetMeans(href: string)
    ensures Decoded(Target(href)) == Decoded(href)
    decreases |href|
  {
    if href != "" {
      var c, rest := href[0], href[1..];
      TargetStep(href);
      assert href == [c] + rest;
      hide Target, Decoded, LINK_ESCAPES, HexPair;
      DecodedStep(c, rest);
      TargetMeans(rest);
      if Reserved(c) {
        EscapeDecodes(c, Target(rest));
      } else {
        PairKept(rest);
        DecodedStep(c, Target(rest));
        if c == '%' && HexPair(rest) {
          PairLong(rest);
          TargetMeans(rest[2..]);
        }
      }
    }
  }

  lemma PairLong(t: string)
    requires HexPair(t)
    ensures |t| >= 2
  {}

  /** An address without a "%" means itself. */
  lemma PlainMeansItself(href: string)
    requires '%' !in href
    ensures Decoded(href) == href
  {
    if href != "" {
      assert href[0] in href && forall c :: c in href[1..] ==> c in href;
    }
  }

  /** The links lead where the spans do. */
  ghost predicate Lead(targets: seq<string>, spans: seq<Span>) {
    |targets| == |spans| && forall i :: 0 <= i < |spans| ==> Decoded(targets[i]) == Decoded(spans[i].href)
  }
}
