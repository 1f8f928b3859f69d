/** The footer of a Discord card (server/component_embed.go) and how the preview reads it. */
module Footer {
  import opened Prelude
  import opened DiscordMarkdown
  import opened Preview
  import opened RoundTrip
  import opened Decimals

  // ---------- Numbers ----------

  function Signed(n: int): string { if n < 0 then "-" + Decimal(-n) else Decimal(n) }

  predicate Digits(t: string) { forall c :: c in t ==> IsDigit(c) }

  lemma NumberNext(d: string, c: char)
    requires Digits(d) && IsDigit(c)
    ensures Digits(d + [c]) && Number(d + [c]) == 10 * Number(d) + (c as int - '0' as int)
  {
    assert (d + [c])[..|d + [c]| - 1] == d;
  }

  lemma LastDigit(n: nat)
    ensures var last := ('0' as int + n % 10) as char; IsDigit(last) && last as int - '0' as int == n % 10
    ensures Decimal(n) == (if n < 10 then "" else Decimal(n / 10)) + [('0' as int + n % 10) as char]
  {}

  lemma {:induction false} DecimalReads(n: nat)
    ensures Digits(Decimal(n)) && Number(Decimal(n)) == n
  {
    LastDigit(n);
    hide Decimal, IsDigit, Number;
    var last := ('0' as int + n % 10) as char;
    if n < 10 {
      NumberNext("", last);
      NoNumber();
    } else {
      DecimalReads(n / 10);
      NumberNext(Decimal(n / 10), last);
    }
  }

  lemma NoNumber()
    ensures Number("") == 0
  {}

  // ---------- The footer ----------

  /** `validDiscordEmojiID`. */
  predicate ValidEmojiID(id: string) { 17 <= |id| <= 20 && Digits(id) && 0 < Number(id) < 0x1_0000_0000_0000_0000 }

  /** `discordEmoji`. */
  function EmojiText(name: string, id: string): string {
    if ValidEmojiID(id) then "<:" + name + ":" + id + ">" else ""
  }

  const BRAND := "OGInstagram"

  /** `discordFooter`; `created` is the Unix time of the card, if it has one. */
  function FooterText(created: Option<int>, emojiID: string): string {
    var emoji := EmojiText(BRAND, emojiID);
    var brand := if emoji != "" then emoji + " " + BRAND else BRAND;
    match created
    case None => brand
    case Some(unix) => brand + " \U{B7} <t:" + Signed(unix) + ":s>"
  }

  // ---------- Reading it back ----------

  /** A character that begins no pattern and no scheme. */
  predicate Dull(c: char) {
    c != '\\' && c != '<' && c != '[' && c != '*' && c != '_' && c != '~' && c != 'h'
  }

  lemma {:induction false} DullItems(r: Rules, t: string, w: string, lineStart: bool)
    requires forall c :: c in t ==> Dull(c)
    ensures Items(r, t + w, Inline, lineStart) == Chars(t) + Items(r, w, Inline, LineStartAfter(t, lineStart))
    decreases |t|
  {
    hide Items;
    if t == "" {
      assert t + w == w && Chars(t) + Items(r, w, Inline, lineStart) == Items(r, w, Inline, lineStart);
    } else {
      var rest := t[1..] + w;
      assert (t + w)[0] == t[0] && (t + w)[1..] == rest && t[0] in t;
      PlainItem(r, t + w, Inline, lineStart);
      DullItems(r, t[1..], w, t[0] == '\n');
      CharsFirst(t);
      Assoc([Text([t[0]])], Chars(t[1..]), Items(r, w, Inline, LineStartAfter(t, lineStart)));
    }
  }

  lemma LeafItem(r: Rules, t: string, w: string, lineStart: bool, node: Node)
    requires t != "" && t[|t| - 1] != '\n' && t[0] == '<'
    requires EmojiAt(t + w) == Some(Hit(node, |t|)) || (EmojiAt(t + w).None? && TimeAt(t + w) == Some(Hit(node, |t|)))
    ensures Items(r, t + w, Inline, lineStart) == [node] + Items(r, w, Inline, false)
  {
    hide EmojiAt, TimeAt, Items;
    LeafToken(r, t + w, lineStart, Hit(node, |t|));
    ItemsStep(r, t + w, Inline, lineStart);
    Beyond(t, w);
  }

  lemma LeafToken(r: Rules, t: string, lineStart: bool, hit: Hit)
    requires t != "" && t[0] == '<'
    requires EmojiAt(t) == Some(hit) || (EmojiAt(t).None? && TimeAt(t) == Some(hit))
    ensures Token(r, t, Inline, lineStart) == hit
  {
    hide EmojiAt, TimeAt, LinkAt;
    assert EscapeAt(t).None?;
    assert LeafAt(t, Inline) == Some(hit);
  }

  /** An emoji is read with its name. */
  lemma EmojiReads(name: string, id: string, w: string)
    requires 2 <= |name| <= 32 && (forall c :: c in name ==> Word(c)) && 17 <= |id| <= 20 && Digits(id)
    ensures EmojiAt("<:" + name + ":" + id + ">" + w) == Some(Hit(Emoji(name), |name| + |id| + 4))
  {
    hide EmojiAt, Run, Word;
    var afterId := ">" + w;
    var afterName := ":" + (id + afterId);
    EmojiSlices(name, id, w);
    NameRuns(name, afterName);
    RunThen(IsDigit, id, afterId);
    EmojiParts("<:" + name + ":" + id + ">" + w, |name|, |id|);
  }

  /** The printer takes an emoji's id exactly if the preview can read it and it is a number from one up
      to the largest of 64 bits. */
  lemma EmojiIff(id: string)
    ensures ValidEmojiID(id) <==>
      && EmojiAt("<:" + BRAND + ":" + id + ">") == Some(Hit(Emoji(BRAND), |BRAND| + |id| + 4))
      && Digits(id) && 1 <= Number(id) <= 18446744073709551615
  {
    hide BRAND, Number, EmojiAt;
    BrandIs();
    var t := "<:" + BRAND + ":" + id + ">";
    assert t + "" == t;
    if ValidEmojiID(id) {
      EmojiReads(BRAND, id, "");
    } else if EmojiAt(t) == Some(Hit(Emoji(BRAND), |t|)) && Digits(id) {
      EmojiBack(BRAND, id);
    }
  }

  lemma EmojiBack(name: string, id: string)
    requires (forall c :: c in name ==> Word(c)) && Digits(id)
    requires EmojiAt("<:" + name + ":" + id + ">").Some?
    ensures 17 <= |id| <= 20
  {
    EmojiSlices(name, id, "");
    var t := "<:" + name + ":" + id + ">";
    assert t + "" == t && ">" + "" == ">";
    RunThen(Word, name, ":" + (id + ">"));
    RunThen(IsDigit, id, ">");
    hide Run;
    assert t[2..] == name + (":" + (id + ">"));
  }

  lemma EmojiSlices(name: string, id: string, w: string)
    ensures var t, n, d := "<:" + name + ":" + id + ">" + w, |name|, |id|;
            && t[0] == '<' && t[1] == ':' && t[2..] == name + (":" + (id + (">" + w))) && t[2..n + 2] == name
            && t[n + 2] == ':' && t[n + 3..] == id + (">" + w) && t[n + d + 3] == '>'
  {}

  lemma NameRuns(name: string, w: string)
    requires (forall c :: c in name ==> Word(c)) && w != "" && w[0] == ':'
    ensures Run(Word, name + w) == |name|
  {
    RunThen(Word, name, w);
  }

  lemma EmojiParts(t: string, n: nat, d: nat)
    requires 2 <= n <= 32 && 17 <= d <= 20 && n + d + 3 < |t|
    requires t[0] == '<' && t[1] == ':' && t[n + 2] == ':' && t[n + d + 3] == '>'
    requires Run(Word, t[2..]) == n && Run(IsDigit, t[n + 3..]) == d
    ensures EmojiAt(t) == Some(Hit(Emoji(t[2..n + 2]), n + d + 4))
  {
    hide Run;
  }

  /** A timestamp is read as its time exactly if it is within the range of a JavaScript date. */
  lemma TimeReads(unix: int, w: string)
    ensures var t := "<t:" + Signed(unix) + ":s>";
            TimeAt(t + w) == if -8640000000000 <= unix <= 8640000000000 then Some(Hit(Time(unix, 's'), |t|)) else None
  {
    var magnitude := if unix < 0 then -unix else unix;
    var d := Decimal(magnitude);
    DecimalReads(magnitude);
    DecimalLength(magnitude, 13);
    Tens();
    var from := if unix < 0 then 4 else 3;
    var t := "<t:" + Signed(unix) + ":s>" + w;
    TimeSlices(unix, d, w);
    assert d[0] in d;
    RunThen(IsDigit, d, ":s>" + w);
    TimeParts(t, from, d);
  }

  lemma TimeSlices(unix: int, d: string, w: string)
    requires d == Decimal(if unix < 0 then -unix else unix)
    ensures var t, from := "<t:" + Signed(unix) + ":s>" + w, if unix < 0 then 4 else 3;
            && "<t:" <= t && t[3] == (if unix < 0 then '-' else d[0])
            && t[from..] == d + (":s>" + w) && t[from..from + |d|] == d
            && t[from + |d|] == ':' && t[from + |d| + 1] == 's' && t[from + |d| + 2] == '>'
            && |t| == from + |d| + 3 + |w|
  {
    hide Decimal;
  }

  lemma TimeParts(t: string, from: nat, d: string)
    requires |t| > 3 && "<t:" <= t && from + |d| + 2 < |t| && from == (if t[3] == '-' then 4 else 3)
    requires Run(IsDigit, t[from..]) == |d| && t[from..from + |d|] == d && d != "" && Digits(d)
    requires t[from + |d|] == ':' && t[from + |d| + 1] == 's' && t[from + |d| + 2] == '>'
    ensures var unix: int := if from == 4 then -(Number(d) as int) else Number(d);
            TimeAt(t) == if |d| <= 13 && Number(d) <= 8640000000000 then Some(Hit(Time(unix, 's'), from + |d| + 3))
                         else None
  {
    hide Run, Number;
  }

  /** The nodes of a footer: the emoji if there is one, the brand, and the time if the card has one
      that a date can hold; any other is left as text. */
  function FooterNodes(created: Option<int>, emojiID: string): seq<Node> {
    var emoji := if ValidEmojiID(emojiID) then [Emoji(BRAND)] else [];
    var brand := if ValidEmojiID(emojiID) then " " + BRAND else BRAND;
    match created
    case None => emoji + [Text(brand)]
    case Some(unix) =>
      if -8640000000000 <= unix <= 8640000000000 then emoji + [Text(brand + " \U{B7} "), Time(unix, 's')]
      else emoji + [Text(brand + " \U{B7} " + ("<t:" + Signed(unix) + ":s>"))]
  }

  lemma SignedDull(unix: int)
    ensures forall c :: c in Signed(unix) ==> Dull(c) && c != '\n'
  {
    DecimalReads(if unix < 0 then -unix else unix);
  }

  lemma BrandIs()
    ensures |BRAND| == 11 && forall c :: c in BRAND ==> Word(c) && Dull(c) && c != '\n'
  {}

  lemma EmojiTextIs(emojiID: string)
    requires ValidEmojiID(emojiID)
    ensures var t := EmojiText(BRAND, emojiID);
            && t == "<:" + BRAND + ":" + emojiID + ">" && |t| == |BRAND| + |emojiID| + 4
            && t[0] == '<' && t[|t| - 1] == '>'
  {
    hide BRAND;
  }

  /** The items of the emoji and what follows it. */
  lemma EmojiItems(r: Rules, emojiID: string, w: string, lineStart: bool)
    requires ValidEmojiID(emojiID)
    ensures Items(r, EmojiText(BRAND, emojiID) + w, Inline, lineStart) == [Emoji(BRAND)] + Items(r, w, Inline, false)
  {
    hide Items, BRAND, EmojiText, EmojiAt, Word, Number;
    BrandIs();
    EmojiTextIs(emojiID);
    EmojiReads(BRAND, emojiID, w);
    var t := EmojiText(BRAND, emojiID);
    LeafItem(r, t, w, lineStart, Emoji(BRAND));
  }

  /** The items of the time: the time itself, or its letters. */
  lemma TimeItems(r: Rules, unix: int, lineStart: bool)
    ensures var t := "<t:" + Signed(unix) + ":s>";
            Items(r, t, Inline, lineStart)
            == if -8640000000000 <= unix <= 8640000000000 then [Time(unix, 's')] else Chars(t)
  {
    hide Items, Signed;
    var t := "<t:" + Signed(unix) + ":s>";
    assert t + "" == t && t[0] == '<' && t[1] == 't' && t[|t| - 1] == '>';
    TimeReads(unix, "");
    if -8640000000000 <= unix <= 8640000000000 {
      NoEmoji(t);
      LeafItem(r, t, "", lineStart, Time(unix, 's'));
      NoItems(r);
    } else {
      OutOfRange(r, unix, lineStart);
    }
  }

  lemma NoEmoji(t: string)
    requires |t| > 1 && t[0] == '<' && t[1] == 't'
    ensures EmojiAt(t).None?
  {}

  lemma NoItems(r: Rules)
    ensures Items(r, "", Inline, false) == []
  {}

  lemma OutOfRange(r: Rules, unix: int, lineStart: bool)
    requires TimeAt("<t:" + Signed(unix) + ":s>").None?
    ensures var t := "<t:" + Signed(unix) + ":s>"; Items(r, t, Inline, lineStart) == Chars(t)
  {
    hide Items, Signed, Chars, TimeAt;
    var rest := "t:" + Signed(unix) + ":s>";
    assert "<t:" + Signed(unix) + ":s>" == ['<'] + rest;
    SignedDull(unix);
    BracketItems(r, rest, lineStart);
  }

  lemma BracketItems(r: Rules, rest: string, lineStart: bool)
    requires rest != "" && rest[0] == 't' && (forall c :: c in rest ==> Dull(c)) && TimeAt(['<'] + rest).None?
    ensures Items(r, ['<'] + rest, Inline, lineStart) == Chars(['<'] + rest)
  {
    hide Items, Chars, TimeAt, Token;
    var t := ['<'] + rest;
    assert t[1..] == rest && t[1] == 't' && rest + "" == rest;
    TextToken(r, t, lineStart);
    ItemsStep(r, t, Inline, lineStart);
    DullItems(r, rest, "", false);
    NoItemsAfter(r, LineStartAfter(rest, false));
    assert Chars(rest) + [] == Chars(rest);
    CharsFirst(t);
  }

  lemma NoItemsAfter(r: Rules, lineStart: bool)
    ensures Items(r, "", Inline, lineStart) == []
  {}

  /** An opening bracket that begins nothing is text. */
  lemma TextToken(r: Rules, t: string, lineStart: bool)
    requires |t| > 1 && t[0] == '<' && t[1] == 't' && TimeAt(t).None?
    requires forall c :: c in t[1..] ==> c != 'h'
    ensures Token(r, t, Inline, lineStart) == Hit(Text(['<']), 1)
  {
    hide TimeAt;
    NoEmoji(t);
    assert t[1..][0] == 't';
    assert LeafAt(t, Inline).None?;
    assert UrlAt(t).0 == "";
    assert LinkAt(r, t).None?;
  }

  /** The text between emoji and time. */
  function Middle(created: Option<int>, emojiID: string): (m: string)
    ensures m != "" && m[0] != '\n'
  {
    (if ValidEmojiID(emojiID) then " " + BRAND else BRAND) + if created.Some? then " \U{B7} " else ""
  }

  function TimeText(created: Option<int>): string {
    if created.Some? then "<t:" + Signed(created.value) + ":s>" else ""
  }

  lemma FooterParts(created: Option<int>, emojiID: string)
    ensures FooterText(created, emojiID)
         == EmojiText(BRAND, emojiID) + (Middle(created, emojiID) + TimeText(created))
  {
    hide Signed, EmojiText, BRAND, ValidEmojiID;
    EmojiHead(emojiID);
    var emoji := EmojiText(BRAND, emojiID);
    var brand := if ValidEmojiID(emojiID) then " " + BRAND else BRAND;
    BrandAfter(emoji, brand);
    if created.Some? {
      TimeSplits(emoji + brand, Signed(created.value));
      Assoc(emoji + brand, " \U{B7} ", TimeText(created));
      Assoc(emoji, brand, " \U{B7} ");
      Assoc(emoji, brand + " \U{B7} ", TimeText(created));
    } else {
      assert brand + "" + "" == brand;
    }
  }

  lemma BrandAfter(emoji: string, brand: string)
    requires brand == if emoji != "" then " " + BRAND else BRAND
    ensures emoji + brand == if emoji != "" then emoji + " " + BRAND else BRAND
  {
    hide BRAND;
  }

  lemma TimeSplits(brand: string, number: string)
    ensures brand + " \U{B7} <t:" + number + ":s>" == brand + " \U{B7} " + ("<t:" + number + ":s>")
  {}

  lemma MiddleDull(created: Option<int>, emojiID: string)
    ensures forall c :: c in Middle(created, emojiID) ==> Dull(c) && c != '\n'
  {
    hide BRAND;
    BrandIs();
  }

  function TimeNodes(created: Option<int>): seq<Node> {
    match created
    case None => []
    case Some(unix) =>
      if -8640000000000 <= unix <= 8640000000000 then [Time(unix, 's')] else Chars("<t:" + Signed(unix) + ":s>")
  }

  function EmojiNodes(emojiID: string): seq<Node> { if ValidEmojiID(emojiID) then [Emoji(BRAND)] else [] }

  lemma MiddleItems(r: Rules, created: Option<int>, emojiID: string, lineStart: bool)
    ensures var t := Middle(created, emojiID) + TimeText(created);
            Items(r, t, Inline, lineStart) == Chars(Middle(created, emojiID)) + TimeNodes(created)
  {
    hide Items, Middle, Signed, Chars;
    var m := Middle(created, emojiID);
    MiddleDull(created, emojiID);
    DullItems(r, m, TimeText(created), lineStart);
    assert m[|m| - 1] in m;
    if created.Some? {
      TimeItems(r, created.value, false);
    } else {
      NoItems(r);
    }
  }

  lemma FooterItems(r: Rules, created: Option<int>, emojiID: string)
    ensures Items(r, FooterText(created, emojiID), Inline, true)
         == EmojiNodes(emojiID) + (Chars(Middle(created, emojiID)) + TimeNodes(created))
  {
    hide Items, Middle, TimeText, TimeNodes, Chars, FooterText;
    FooterParts(created, emojiID);
    var rest := Middle(created, emojiID) + TimeText(created);
    MiddleItems(r, created, emojiID, !ValidEmojiID(emojiID));
    if ValidEmojiID(emojiID) {
      EmojiItems(r, emojiID, rest, true);
    } else {
      assert "" + rest == rest;
    }
  }

  lemma MergeMiddle(front: seq<Node>, s: string, tail: seq<Node>)
    requires s != "" && (front == [] || (|front| == 1 && !front[0].Text?))
    ensures Merge([], front + (Chars(s) + tail)) == Merge(front + [Text(s)], tail)
  {
    hide Merge, Chars;
    var rest := Chars(s[1..]) + tail;
    CharsFirst(s);
    Assoc([Text([s[0]])], Chars(s[1..]), tail);
    if front == [] {
      assert front + (Chars(s) + tail) == Chars(s) + tail;
    } else {
      assert front == [front[0]] && [] + front == front;
      MergeFirst([], front[0], Chars(s) + tail);
      PushFirst(front[0]);
    }
    MergeFirst(front, Text([s[0]]), rest);
    assert Push(front, Text([s[0]])) == front + [Text([s[0]])];
    MergeChars(front, [s[0]], s[1..], tail);
    assert [s[0]] + s[1..] == s;
  }

  lemma MergeEnd(out: seq<Node>, s: string, u: string, node: Node)
    requires !node.Text?
    ensures Merge(out + [Text(s)], []) == out + [Text(s)]
    ensures Merge(out + [Text(s)], [node]) == out + [Text(s), node]
    ensures Merge(out + [Text(s)], Chars(u)) == out + [Text(s + u)]
  {
    hide Chars;
    MergeChars(out, s, u, []);
    assert Chars(u) + [] == Chars(u);
    assert [node][1..] == [] && out + [Text(s)] + [node] == out + [Text(s), node];
  }

  lemma FooterParses(r: Rules, created: Option<int>, emojiID: string)
    ensures Parse(r, FooterText(created, emojiID), Inline) == FooterNodes(created, emojiID)
  {
    hide Items, Merge, Chars, FooterText, Signed, ValidEmojiID, BRAND;
    FooterItems(r, created, emojiID);
    var front, m := EmojiNodes(emojiID), Middle(created, emojiID);
    MergeMiddle(front, m, TimeNodes(created));
    match created {
      case None =>
        assert BRAND + "" == BRAND && " " + BRAND + "" == " " + BRAND;
        MergeEnd(front, m, "", Emoji(""));
      case Some(unix) => MergeEnd(front, m, TimeText(created), Time(unix, 's'));
    }
  }

  lemma LineReads(r: Rules, line: string)
    requires line != "" && line[0] != ' ' && '\n' !in line
    ensures ParseMarkdown(r, "-# " + line) == [Styled(Sub, Parse(r, line, Inline))]
  {
    hide Items, Parse, Marker, BlockAt;
    var t := "-# " + line;
    LineIs(line);
    HeadingReads(Sub, " ", line, "");
    SubToken(r, t, line);
    ItemsStep(r, t, Block, true);
    LineMerges(r, t, Styled(Sub, Parse(r, line, Inline)));
  }

  lemma LineIs(line: string)
    ensures Marker(Sub) == "-#" && Marker(Sub) + " " + line + "" == "-# " + line
  {}

  lemma SubToken(r: Rules, t: string, line: string)
    requires t != "" && BlockAt(t) == Some(StyleHit(Sub, line, |t|))
    ensures Token(r, t, Block, true) == Hit(Styled(Sub, Parse(r, line, Inline)), |t|)
  {
    hide BlockAt, Parse, LeafAt, LinkAt;
  }

  lemma LineMerges(r: Rules, t: string, node: Node)
    requires t != "" && !node.Text?
    requires Items(r, t, Block, true) == [node] + Items(r, t[|t|..], Block, t[|t| - 1] == '\n')
    ensures Parse(r, t, Block) == [node]
  {
    assert t[|t|..] == "" && Items(r, "", Block, t[|t| - 1] == '\n') == [];
    assert Items(r, t, Block, true) == [node];
    assert [node] + [] == [node];
    MergeFirst([], node, []);
    PushFirst(node);
  }

  lemma FooterLine(created: Option<int>, emojiID: string)
    ensures var f := FooterText(created, emojiID); f != "" && f[0] != ' ' && '\n' !in f
  {
    hide Signed, ValidEmojiID, Middle;
    MiddleDull(created, emojiID);
    FooterParts(created, emojiID);
    EmojiHead(emojiID);
    if created.Some? {
      SignedDull(created.value);
    }
  }

  lemma EmojiHead(emojiID: string)
    ensures var e := EmojiText(BRAND, emojiID); '\n' !in e && (e != "" <==> ValidEmojiID(emojiID))
    ensures ValidEmojiID(emojiID) ==> EmojiText(BRAND, emojiID)[0] == '<'
    ensures !ValidEmojiID(emojiID) ==> forall created :: Middle(created, emojiID)[0] == 'O'
  {
    BrandIs();
  }

  /** The whole footer line: a small line whose content is the emoji, the brand and the time. */
  lemma FooterReads(r: Rules, created: Option<int>, emojiID: string)
    ensures ParseMarkdown(r, "-# " + FooterText(created, emojiID)) == [Styled(Sub, FooterNodes(created, emojiID))]
  {
    hide ParseMarkdown, Parse, FooterText, FooterNodes;
    FooterLine(created, emojiID);
    LineReads(r, FooterText(created, emojiID));
    FooterParses(r, created, emojiID);
  }
}
