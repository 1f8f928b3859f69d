/** The payload built by `componentEmbedScript` (server/component_embed.go) and the validator that
    reads it, `parseComponentEmbed` (web/src/component-embed.ts). Payloads are trees; the size of a
    payload's JSON text is a function of the tree. */
module Embed {
  import opened Prelude
  import opened DiscordMarkdown
  import opened Decimals

  const MAX_BYTES := 3000
  const MAX_COMPONENTS := 40
  const MAX_GALLERY := 10
  const SUPPORT_URL := "https://ko-fi.com/seirenkr"

  /** `discordComponent`: a zero field is absent from the JSON. */
  datatype Component = Component(
    kind: nat, content: string := "", components: seq<Component> := [], accessory: Option<Component> := None,
    media: Option<string> := None, items: seq<string> := [], accent: nat := 0, style: nat := 0,
    url: string := "", caption: string := "")

  // ---------- What the validator takes ----------

  predicate TextOK(c: Component) { c.kind == 10 && c.content != "" }

  predicate ButtonOK(http: string -> bool, c: Component) {
    && c.kind == 2 && c.style == 5 && http(c.url) && c.caption != ""
    // No key beyond those of a button.
    && c.content == "" && c.components == [] && c.accessory == None && c.media == None && c.items == [] && c.accent == 0
  }

  predicate AccessoryOK(http: string -> bool, a: Option<Component>) {
    && a.Some?
    && if a.value.kind == 11 then a.value.media.Some? && http(a.value.media.value) else ButtonOK(http, a.value)
  }

  predicate ChildOK(http: string -> bool, c: Component) {
    match c.kind
    case 10 => TextOK(c)
    case 9 =>
      1 <= |c.components| <= 3 && (forall t :: t in c.components ==> TextOK(t)) && AccessoryOK(http, c.accessory)
    case 12 => 1 <= |c.items| <= MAX_GALLERY && forall u :: u in c.items ==> http(u)
    case 14 => true
    case 1 => 1 <= |c.components| <= 5 && forall b :: b in c.components ==> ButtonOK(http, b)
    case _ => false
  }

  /** The components a child counts for. */
  function Weight(c: Component): nat {
    match c.kind
    case 9 => |c.components| + 2
    case 1 => |c.components| + 1
    case _ => 1
  }

  function GalleryItems(c: Component): nat { if c.kind == 12 then |c.items| else 0 }

  function Total(f: Component -> nat, cs: seq<Component>): nat {
    if cs == [] then 0 else Total(f, cs[..|cs| - 1]) + f(cs[|cs| - 1])
  }

  lemma TotalPrefix(f: Component -> nat, cs: seq<Component>, i: nat)
    requires i < |cs|
    ensures Total(f, cs[..i + 1]) == Total(f, cs[..i]) + f(cs[i])
    ensures Total(f, cs[..i + 1]) <= Total(f, cs)
    decreases |cs| - i
  {
    assert cs[..i + 1][..i] == cs[..i];
    if i + 1 < |cs| {
      TotalPrefix(f, cs, i + 1);
    } else {
      assert cs[..i + 1] == cs;
    }
  }

  lemma NoneYet(cs: seq<Component>)
    ensures Total(Weight, cs[..0]) == 0 && Total(GalleryItems, cs[..0]) == 0
  {}

  /** A payload of `bytes` bytes that a link preview may show. */
  predicate Accepts(http: string -> bool, payload: Component, bytes: nat) {
    && bytes <= MAX_BYTES && payload.kind == 17
    && 1 <= |payload.components| <= MAX_COMPONENTS
    && (forall c :: c in payload.components ==> ChildOK(http, c))
    && 1 + Total(Weight, payload.components) <= MAX_COMPONENTS
    && Total(GalleryItems, payload.components) <= MAX_GALLERY
  }

  /** The counters `parseComponentEmbed` keeps while it walks the payload; `false` stands for a
      thrown error. */
  class Validator {
    const http: string -> bool
    var components: nat
    var galleryItems: nat

    constructor (http: string -> bool)
      ensures this.http == http && components == 0 && galleryItems == 0
    {
      this.http := http;
      components, galleryItems := 0, 0;
    }

    method Count(c: Option<Component>, kind: nat) returns (ok: bool)
      modifies this`components
      ensures ok <==> c.Some? && c.value.kind == kind && old(components) < MAX_COMPONENTS
      ensures ok ==> components == old(components) + 1
    {
      if c.None? || c.value.kind != kind {
        return false;
      }
      components := components + 1;
      return components <= MAX_COMPONENTS;
    }

    method Text(c: Component) returns (ok: bool)
      modifies this`components
      ensures ok <==> TextOK(c) && old(components) < MAX_COMPONENTS
      ensures ok ==> components == old(components) + 1
    {
      ok := Count(Some(c), 10);
      ok := ok && c.content != "";
    }

    method Button(c: Option<Component>) returns (ok: bool)
      modifies this`components
      ensures ok <==> c.Some? && ButtonOK(http, c.value) && old(components) < MAX_COMPONENTS
      // A button has a style, an address and a label, and nothing else.
      ensures ok ==>
        && c.value == Component(2, style := 5, url := c.value.url, caption := c.value.caption)
        && http(c.value.url) && c.value.caption != ""
      ensures forall url, title :: c == Some(Component(2, style := 5, url := url, caption := title)) ==>
        (ok <==> http(url) && title != "" && old(components) < 40)
      ensures ok ==> components == old(components) + 1
    {
      ok := Count(c, 2);
      ok := ok && ButtonOK(http, c.value);
    }

    method Section(c: Component) returns (ok: bool)
      requires c.kind == 9
      modifies this`components
      ensures ok <==> ChildOK(http, c) && old(components) + Weight(c) <= MAX_COMPONENTS
      ensures ok ==> components == old(components) + Weight(c)
    {
      ok := Count(Some(c), 9);
      if !ok || !(1 <= |c.components| <= 3) {
        return false;
      }
      var i := 0;
      while i < |c.components|
        invariant ok && i <= |c.components| && components == old(components) + 1 + i <= MAX_COMPONENTS
        invariant forall j :: 0 <= j < i ==> TextOK(c.components[j])
      {
        ok := Text(c.components[i]);
        if !ok {
          assert c.components[i] in c.components;
          return;
        }
        i := i + 1;
      }
      if c.accessory.Some? && c.accessory.value.kind == 11 {
        ok := Count(c.accessory, 11);
        ok := ok && c.accessory.value.media.Some? && http(c.accessory.value.media.value);
      } else {
        ok := Button(c.accessory);
      }
    }

    method Row(c: Component) returns (ok: bool)
      requires c.kind == 1
      modifies this`components
      ensures ok <==> ChildOK(http, c) && old(components) + Weight(c) <= MAX_COMPONENTS
      ensures ok ==> components == old(components) + Weight(c)
    {
      ok := Count(Some(c), 1);
      if !ok || !(1 <= |c.components| <= 5) {
        return false;
      }
      var i := 0;
      while i < |c.components|
        invariant ok && i <= |c.components| && components == old(components) + 1 + i <= MAX_COMPONENTS
        invariant forall j :: 0 <= j < i ==> ButtonOK(http, c.components[j])
      {
        ok := Button(Some(c.components[i]));
        if !ok {
          return;
        }
        i := i + 1;
      }
    }

    method Gallery(c: Component) returns (ok: bool)
      requires c.kind == 12
      modifies this
      ensures ok <==>
        ChildOK(http, c) && old(components) < MAX_COMPONENTS && old(galleryItems) + |c.items| <= MAX_GALLERY
      ensures ok ==> components == old(components) + 1 && galleryItems == old(galleryItems) + |c.items|
    {
      ok := Count(Some(c), 12);
      if !ok || !(1 <= |c.items| <= MAX_GALLERY) {
        return false;
      }
      var i := 0;
      while i < |c.items|
        invariant i <= |c.items| && forall j :: 0 <= j < i ==> http(c.items[j])
      {
        if !http(c.items[i]) {
          return false;
        }
        i := i + 1;
      }
      galleryItems := galleryItems + |c.items|;
      ok := galleryItems <= MAX_GALLERY;
    }

    method Child(c: Component) returns (ok: bool)
      modifies this
      ensures ok <==> ChildOK(http, c) && old(components) + Weight(c) <= MAX_COMPONENTS
                      && (c.kind == 12 ==> old(galleryItems) + GalleryItems(c) <= MAX_GALLERY)
      ensures ok ==> components == old(components) + Weight(c) && galleryItems == old(galleryItems) + GalleryItems(c)
    {
      match c.kind {
        case 10 => ok := Text(c);
        case 9 => ok := Section(c);
        case 12 => ok := Gallery(c);
        case 14 => ok := Count(Some(c), 14);
        case 1 => ok := Row(c);
        case _ => ok := false;
      }
    }

    /** `parseComponentEmbed`: whether the payload is shown. */
    method Parse(payload: Component, bytes: nat) returns (ok: bool)
      requires components == 0 && galleryItems == 0
      modifies this
      ensures ok <==> Accepts(http, payload, bytes)
      ensures ok ==>
        bytes <= 3000 && 1 + Total(Weight, payload.components) <= 40 && Total(GalleryItems, payload.components) <= 10
    {
      hide ChildOK, Weight, Total;
      if bytes > MAX_BYTES {
        return false;
      }
      ok := Count(Some(payload), 17);
      var cs := payload.components;
      if !ok || !(1 <= |cs| <= MAX_COMPONENTS) {
        return false;
      }
      var i := 0;
      NoneYet(cs);
      while i < |cs|
        invariant ok && i <= |cs| && forall j :: 0 <= j < i ==> ChildOK(http, cs[j])
        invariant components == 1 + Total(Weight, cs[..i]) <= MAX_COMPONENTS
        invariant galleryItems == Total(GalleryItems, cs[..i]) <= MAX_GALLERY
      {
        TotalPrefix(Weight, cs, i);
        TotalPrefix(GalleryItems, cs, i);
        ok := Child(cs[i]);
        if !ok {
          assert cs[i] in cs;
          return;
        }
        i := i + 1;
      }
      assert cs[..i] == cs;
    }
  }

  // ---------- What the builder emits ----------

  /** `discordCard`, with the name already cut and defaulted and the counts of `stats` in bold. */
  datatype Card = Card(
    name: string, badge: string, handle: Option<(string, string)>, stats: string, avatar: string, origin: string,
    caption: string, spans: seq<Span>, footer: string, media: seq<string>, gallery: bool, support: bool)

  /** `size` is the length of a payload's JSON. */
  datatype Builder = Builder(env: Env, size: Component -> nat)

  function Author(card: Card): string {
    "**" + Escaped(card.name, Start) + "**"
    + (if card.badge != "" then " " + card.badge else "")
    + (match card.handle case None => "" case Some(h) => "\n[@" + h.0 + "](" + h.1 + ")")
    + (if !card.gallery && card.stats != "" then "\n\n" + card.stats else "")
  }

  function Header(env: Env, card: Card): Component {
    var text := Component(10, content := Author(card));
    if env.media(card.avatar) then
      Component(9, components := [text], accessory := Some(Component(11, media := Some(card.avatar))))
    else text
  }

  function Footer(card: Card): seq<Component> {
    var instagram := Component(2, style := 5, caption := "Instagram", url := card.origin);
    var brand := Component(10, content := "-# " + card.footer);
    if card.gallery then []
    else if card.support then
      var support := Component(2, style := 5, caption := "Support me", url := SUPPORT_URL);
      [brand, Component(14), Component(1, components := [instagram, support])]
    else [Component(9, components := [brand], accessory := Some(instagram))]
  }

  /** The payload `encode` writes. */
  function Payload(env: Env, card: Card, items: seq<string>, text: string): Component {
    Component(17, accent := 0xff0069, components :=
      [Header(env, card)]
      + (if !card.gallery && text != "" then [Component(10, content := text)] else [])
      + (if items != [] then [Component(12, items := items)] else [])
      + Footer(card))
  }

  lemma TotalConcat(f: Component -> nat, a: seq<Component>, b: seq<Component>)
    ensures Total(f, a + b) == Total(f, a) + Total(f, b)
  {
    if b == [] {
      assert a + b == a;
    } else {
      assert (a + b)[..|a + b| - 1] == a + b[..|b| - 1];
    }
  }

  lemma One(f: Component -> nat, c: Component)
    ensures Total(f, [c]) == f(c)
  {
    assert [c][..0] == [];
  }

  lemma Three(f: Component -> nat, a: Component, b: Component, c: Component)
    ensures Total(f, [a, b, c]) == f(a) + f(b) + f(c)
  {
    assert [a, b, c] == [a] + [b] + [c];
    TotalConcat(f, [a], [b]);
    TotalConcat(f, [a] + [b], [c]);
    One(f, a);
    One(f, b);
    One(f, c);
  }

  lemma FooterWeight(card: Card)
    ensures |Footer(card)| <= 3 && Total(Weight, Footer(card)) <= 5 && Total(GalleryItems, Footer(card)) == 0
  {
    var f := Footer(card);
    if !card.gallery {
      if card.support {
        Three(Weight, f[0], f[1], f[2]);
        Three(GalleryItems, f[0], f[1], f[2]);
      } else {
        One(Weight, f[0]);
        One(GalleryItems, f[0]);
      }
    }
  }

  lemma FooterOK(env: Env, card: Card)
    requires env.media(SUPPORT_URL)
    ensures (forall c :: c in Footer(card) ==> ChildOK(env.media, c)) <==> (card.gallery || env.media(card.origin))
  {
    var f := Footer(card);
    if !card.gallery {
      var last := f[|f| - 1];
      assert last in f;
      if card.support {
        assert last.components[0] in last.components;
        assert last.components[0].url == card.origin;
      }
    }
  }

  lemma HeaderOK(env: Env, card: Card)
    ensures ChildOK(env.media, Header(env, card))
    ensures Weight(Header(env, card)) <= 3 && GalleryItems(Header(env, card)) == 0
  {
    assert Author(card)[0] == '*';
  }

  /** Between the header and the footer: the caption and the gallery, where there are any. */
  function Middle(card: Card, items: seq<string>, text: string): seq<Component> {
    (if !card.gallery && text != "" then [Component(10, content := text)] else [])
    + (if items != [] then [Component(12, items := items)] else [])
  }

  lemma MiddleOK(http: string -> bool, card: Card, items: seq<string>, text: string)
    requires |items| <= MAX_GALLERY && (forall u :: u in items ==> http(u))
    ensures |Middle(card, items, text)| <= 2
    ensures forall c :: c in Middle(card, items, text) ==> ChildOK(http, c)
    ensures Total(Weight, Middle(card, items, text)) <= 2
    ensures Total(GalleryItems, Middle(card, items, text)) <= MAX_GALLERY
  {
    var a := if !card.gallery && text != "" then [Component(10, content := text)] else [];
    var b := if items != [] then [Component(12, items := items)] else [];
    TotalConcat(Weight, a, b);
    TotalConcat(GalleryItems, a, b);
    One(Weight, Component(10, content := text));
    One(GalleryItems, Component(10, content := text));
    One(Weight, Component(12, items := items));
    One(GalleryItems, Component(12, items := items));
  }

  // ---------- What a payload shows ----------

  /** The texts among components, in order. */
  function Contents(cs: seq<Component>): seq<string> {
    if cs == [] then [] else (if cs[0].kind == 10 then [cs[0].content] else []) + Contents(cs[1..])
  }

  /** Label and address of the link buttons among components, in order. */
  function Links(cs: seq<Component>): seq<(string, string)> {
    if cs == [] then [] else (if cs[0].kind == 2 then [(cs[0].caption, cs[0].url)] else []) + Links(cs[1..])
  }

  function Beside(c: Component): seq<Component> { if c.accessory.Some? then [c.accessory.value] else [] }

  /** The texts of the children of a payload and of their children. */
  function Texts(children: seq<Component>): seq<string> {
    if children == [] then []
    else Contents([children[0]]) + Contents(children[0].components) + Texts(children[1..])
  }

  function Buttons(children: seq<Component>): seq<(string, string)> {
    if children == [] then []
    else Links(children[0].components) + Links(Beside(children[0])) + Buttons(children[1..])
  }

  function Gallery(children: seq<Component>): seq<string> {
    if children == [] then []
    else (if children[0].kind == 12 then children[0].items else []) + Gallery(children[1..])
  }

  lemma ShownConcat(a: seq<Component>, b: seq<Component>)
    ensures Texts(a + b) == Texts(a) + Texts(b)
    ensures Buttons(a + b) == Buttons(a) + Buttons(b)
    ensures Gallery(a + b) == Gallery(a) + Gallery(b)
  {
    TextsConcat(a, b);
    ButtonsConcat(a, b);
    GalleryConcat(a, b);
  }

  lemma {:induction false} TextsConcat(a: seq<Component>, b: seq<Component>)
    ensures Texts(a + b) == Texts(a) + Texts(b)
  {
    hide Contents;
    if a == [] {
      assert a + b == b;
    } else {
      assert (a + b)[1..] == a[1..] + b;
      TextsConcat(a[1..], b);
    }
  }

  lemma {:induction false} ButtonsConcat(a: seq<Component>, b: seq<Component>)
    ensures Buttons(a + b) == Buttons(a) + Buttons(b)
  {
    hide Links, Beside;
    if a == [] {
      assert a + b == b;
    } else {
      assert (a + b)[1..] == a[1..] + b;
      ButtonsConcat(a[1..], b);
    }
  }

  lemma {:induction false} GalleryConcat(a: seq<Component>, b: seq<Component>)
    ensures Gallery(a + b) == Gallery(a) + Gallery(b)
  {
    if a == [] {
      assert a + b == b;
    } else {
      assert (a + b)[1..] == a[1..] + b;
      GalleryConcat(a[1..], b);
    }
  }

  lemma OneChild(c: Component)
    ensures Texts([c]) == Contents([c]) + Contents(c.components)
    ensures Buttons([c]) == Links(c.components) + Links(Beside(c))
    ensures Gallery([c]) == if c.kind == 12 then c.items else []
  {
    assert [c][1..] == [];
  }

  lemma OneText(text: string)
    ensures Contents([Component(10, content := text)]) == [text] && Links([Component(10, content := text)]) == []
  {
    assert [Component(10, content := text)][1..] == [];
  }

  lemma NoText(c: Component)
    requires c.kind != 10
    ensures Contents([c]) == []
  {
    assert [c][1..] == [];
  }

  lemma OneLink(title: string, url: string)
    ensures Links([Component(2, style := 5, caption := title, url := url)]) == [(title, url)]
  {
    assert [Component(2, style := 5, caption := title, url := url)][1..] == [];
  }

  lemma HeaderShows(env: Env, card: Card)
    ensures Texts([Header(env, card)]) == [Author(card)]
    ensures Buttons([Header(env, card)]) == [] && Gallery([Header(env, card)]) == []
  {
    hide Author, Texts, Buttons, Gallery, Contents, Links;
    var header := Header(env, card);
    OneChild(header);
    OneText(Author(card));
    NothingShows();
    if env.media(card.avatar) {
      NoText(header);
      NoLink(header.accessory.value);
    }
  }

  lemma NoLink(c: Component)
    requires c.kind != 2
    ensures Links([c]) == []
  {
    assert [c][1..] == [];
  }

  lemma NothingShows()
    ensures Texts([]) == [] && Buttons([]) == [] && Gallery([]) == [] && Contents([]) == [] && Links([]) == []
  {}

  lemma MiddleShows(card: Card, items: seq<string>, text: string)
    ensures Texts(Middle(card, items, text)) == if !card.gallery && text != "" then [text] else []
    ensures Buttons(Middle(card, items, text)) == [] && Gallery(Middle(card, items, text)) == items
  {
    hide Texts, Buttons, Gallery, Contents, Links;
    var line, gallery := Component(10, content := text), Component(12, items := items);
    ShownConcat(if !card.gallery && text != "" then [line] else [], if items != [] then [gallery] else []);
    NothingShows();
    OneChild(line);
    OneText(text);
    OneChild(gallery);
    NoText(gallery);
  }

  lemma FooterShows(card: Card)
    ensures Texts(Footer(card)) == if card.gallery then [] else ["-# " + card.footer]
    ensures Buttons(Footer(card))
         == if card.gallery then []
            else [("Instagram", card.origin)] + if card.support then [("Support me", SUPPORT_URL)] else []
    ensures Gallery(Footer(card)) == []
  {
    hide SUPPORT_URL, Texts, Buttons, Gallery, Contents, Links;
    NothingShows();
    var brand := Component(10, content := "-# " + card.footer);
    var instagram := Component(2, style := 5, caption := "Instagram", url := card.origin);
    OneText("-# " + card.footer);
    OneLink("Instagram", card.origin);
    if card.support {
      var support := Component(2, style := 5, caption := "Support me", url := SUPPORT_URL);
      SupportShows(brand, instagram, support);
      OneLink("Support me", SUPPORT_URL);
    } else {
      var section := Component(9, components := [brand], accessory := Some(instagram));
      OneChild(section);
      NoText(section);
    }
  }

  lemma Pair(a: Component, b: Component)
    ensures Links([a, b]) == Links([a]) + Links([b])
    ensures a.kind != 10 && b.kind != 10 ==> Contents([a, b]) == []
    ensures Links([]) == [] && Contents([]) == []
  {
    assert [a, b][1..] == [b] && [a][1..] == [] && [b][1..] == [];
  }

  lemma SupportShows(brand: Component, a: Component, b: Component)
    requires brand.kind == 10 && brand.components == [] && brand.accessory.None? && a.kind == b.kind == 2
    ensures var cs := [brand, Component(14), Component(1, components := [a, b])];
            && Texts(cs) == Contents([brand]) && Buttons(cs) == Links([a]) + Links([b]) && Gallery(cs) == []
  {
    hide Texts, Buttons, Gallery, Contents, Links;
    var line, row := Component(14), Component(1, components := [a, b]);
    assert [brand, line, row] == [brand] + [line] + [row];
    ShownConcat([brand], [line]);
    ShownConcat([brand] + [line], [row]);
    OneChild(brand);
    OneChild(line);
    OneChild(row);
    NoText(line);
    NoText(row);
    Pair(a, b);
  }

  /** What a payload shows: the author, the caption and the footer line, in that order; the media; the
      link to the post and, if it is asked for, the one to support. */
  lemma PayloadShows(env: Env, card: Card, items: seq<string>, text: string)
    ensures var children := Payload(env, card, items, text).components;
            && Gallery(children) == items
            && "**" + Escaped(card.name, Start) + "**" <= Author(card)
            && Texts(children) == [Author(card)] + (if card.gallery || text == "" then [] else [text])
                                  + (if card.gallery then [] else ["-# " + card.footer])
            && Buttons(children) == if card.gallery then []
                                    else [("Instagram", card.origin)]
                                         + if card.support then [("Support me", "https://ko-fi.com/seirenkr")] else []
  {
    hide Payload, Header, Middle, Footer, Author, Texts, Buttons, Gallery, SUPPORT_URL;
    var header, middle, footer := Header(env, card), Middle(card, items, text), Footer(card);
    SupportIs();
    NameFirst(card);
    PayloadParts(env, card, items, text);
    ShownConcat([header], middle);
    ShownConcat([header] + middle, footer);
    HeaderShows(env, card);
    MiddleShows(card, items, text);
    FooterShows(card);
  }

  /** The author's text begins with the name, escaped and in bold. */
  lemma NameFirst(card: Card)
    ensures "**" + Escaped(card.name, Start) + "**" <= Author(card)
  {
    hide Escaped;
  }

  lemma SupportIs()
    ensures SUPPORT_URL == "https://ko-fi.com/seirenkr"
  {}

  // ---------- What is accepted ----------

  lemma Sandwich(f: Component -> nat, a: Component, b: seq<Component>, c: seq<Component>)
    ensures Total(f, [a] + b + c) == f(a) + Total(f, b) + Total(f, c)
  {
    One(f, a);
    TotalConcat(f, [a], b);
    TotalConcat(f, [a] + b, c);
  }

  /** Every payload weighs at most 11 components and the preview accepts it exactly when its
      button, if it has one, leads to an http(s) URL. */
  lemma PayloadAccepted(env: Env, card: Card, items: seq<string>, text: string, bytes: nat)
    requires |items| <= 10 && (forall u :: u in items ==> env.media(u)) && env.media(SUPPORT_URL)
    requires bytes <= 3000
    ensures 1 + Total(Weight, Payload(env, card, items, text).components) <= 11
    ensures Accepts(env.media, Payload(env, card, items, text), bytes) <==> (card.gallery || env.media(card.origin))
  {
    hide ChildOK, Weight, Total, GalleryItems, Payload, Header, Middle, Footer;
    var header, middle, footer := Header(env, card), Middle(card, items, text), Footer(card);
    PayloadParts(env, card, items, text);
    HeaderOK(env, card);
    MiddleOK(env.media, card, items, text);
    FooterWeight(card);
    FooterOK(env, card);
    Acceptable(env.media, header, middle, footer);
    Weighed(header, middle, footer);
  }

  /** The builder itself does not look at the address of its button: were a card to have one that is
      no http(s) URL, here, its payload would be refused. */
  lemma OriginIsNotChecked()
    ensures var env := Env(_ => false, u => u == SUPPORT_URL);
            var card := Card("Name", "", None, "", "", "instagram:post", "", [], "Footer", [], false, false);
            !Accepts(env.media, Payload(env, card, [], ""), 0)
  {
    hide Payload, Accepts;
    var env := Env(_ => false, u => u == SUPPORT_URL);
    var card := Card("Name", "", None, "", "", "instagram:post", "", [], "Footer", [], false, false);
    assert |card.origin| != |SUPPORT_URL|;
    PayloadAccepted(env, card, [], "", 0);
  }

  // ---------- The pages cards come from ----------

  const ORIGIN := "https://www.instagram.com/"

  /** What a card is about. */
  datatype Page =
    | PostPage(reel: bool, shortcode: string, index: Option<nat>)
    | ProfilePage(username: string)
    | StoryPage(username: string, id: string)

  predicate Letter(c: char) { 'A' <= c <= 'Z' || 'a' <= c <= 'z' }

  /** Characters of valid names; escaping a path segment leaves them as they are. */
  predicate NameChar(c: char) { Letter(c) || IsDigit(c) || c == '_' || c == '-' || c == '.' }

  /** `validShortcode`, `validUsername` and `validStoryID`, and an index within a machine word. */
  predicate ValidPage(page: Page) {
    match page
    case PostPage(_, shortcode, index) =>
      && 1 <= |shortcode| <= 24 && (forall c :: c in shortcode ==> NameChar(c) && c != '.')
      && (index.Some? ==> index.value < 0x8000_0000_0000_0000)
    case ProfilePage(username) => ValidUsername(username)
    case StoryPage(username, id) => ValidUsername(username) && 1 <= |id| <= 32 && forall c :: c in id ==> IsDigit(c)
  }

  predicate ValidUsername(username: string) {
    1 <= |username| <= 30 && forall c :: c in username ==> NameChar(c) && c != '-'
  }

  function Query(index: Option<nat>): string {
    match index case None => "" case Some(i) => "?img_index=" + Decimal(i + 1)
  }

  /** `instagramPostURL`, `profileURL` and `storyOriginURL`. */
  function Address(page: Page): string {
    match page
    case PostPage(reel, shortcode, index) =>
      ORIGIN + (if reel then "reel" else "p") + "/" + shortcode + "/" + Query(index)
    case ProfilePage(username) => ORIGIN + username + "/"
    case StoryPage(username, id) => ORIGIN + "stories/" + username + "/" + id + "/"
  }

  predicate AddressChar(c: char) { NameChar(c) || c == '/' || c == '?' || c == '=' }

  /** Addresses on Instagram within the limit of a URL, made of characters no URL parser minds. */
  predicate OnInstagram(u: string) {
    "https://www.instagram.com/" <= u && |u| <= 2048 && forall c :: c in u[26..] ==> AddressChar(c)
  }

  lemma AddressOnInstagram(page: Page)
    requires ValidPage(page)
    ensures OnInstagram(Address(page))
  {
    hide ORIGIN, Query, OnInstagram;
    match page
    case ProfilePage(username) =>
      assert Address(page) == ORIGIN + (username + "/");
      PathOnInstagram(username + "/");
    case StoryPage(username, id) => StoryOnInstagram(username, id);
    case PostPage(reel, shortcode, index) => PostOnInstagram(reel, shortcode, index);
  }

  lemma StoryOnInstagram(username: string, id: string)
    requires ValidPage(StoryPage(username, id))
    ensures OnInstagram(Address(StoryPage(username, id)))
  {
    hide ORIGIN, OnInstagram;
    var path := "stories/" + username + "/" + id + "/";
    assert Address(StoryPage(username, id)) == ORIGIN + path;
    PathOnInstagram(path);
  }

  lemma PostOnInstagram(reel: bool, shortcode: string, index: Option<nat>)
    requires ValidPage(PostPage(reel, shortcode, index))
    ensures OnInstagram(Address(PostPage(reel, shortcode, index)))
  {
    hide ORIGIN, Query, OnInstagram;
    var path := (if reel then "reel" else "p") + "/" + shortcode + "/" + Query(index);
    QueryChars(index);
    assert Address(PostPage(reel, shortcode, index)) == ORIGIN + path;
    PathOnInstagram(path);
  }

  lemma QueryChars(index: Option<nat>)
    requires index.Some? ==> index.value < 0x8000_0000_0000_0000
    ensures |Query(index)| <= 30 && forall c :: c in Query(index) ==> AddressChar(c)
  {
    hide Ten, Decimal;
    if index.Some? {
      Tens();
      DecimalLength(index.value + 1, 19);
    }
  }

  lemma OriginLength()
    ensures ORIGIN == "https://www.instagram.com/" && |ORIGIN| == 26
  {}

  lemma PathOnInstagram(path: string)
    requires |path| <= 2000 && forall c :: c in path ==> AddressChar(c)
    ensures OnInstagram(ORIGIN + path)
  {
    OriginLength();
    assert (ORIGIN + path)[|ORIGIN|..] == path;
  }

  /** Every payload built for a post, a profile or a story is accepted, by a validator that takes
      addresses on Instagram for http(s) URLs. */
  lemma PageAccepted(env: Env, card: Card, page: Page, items: seq<string>, text: string, bytes: nat)
    requires ValidPage(page) && card.origin == Address(page)
    requires env.media(SUPPORT_URL) && forall u :: OnInstagram(u) ==> env.media(u)
    requires |items| <= MAX_GALLERY && (forall u :: u in items ==> env.media(u)) && bytes <= MAX_BYTES
    ensures Accepts(env.media, Payload(env, card, items, text), bytes)
  {
    hide Address, ValidPage, OnInstagram, Payload, Accepts;
    AddressOnInstagram(page);
    PayloadAccepted(env, card, items, text, bytes);
  }

  lemma PayloadParts(env: Env, card: Card, items: seq<string>, text: string)
    ensures var payload := Payload(env, card, items, text);
            payload.kind == 17 && payload.components == [Header(env, card)] + Middle(card, items, text) + Footer(card)
  {
    hide Header, Footer;
  }

  lemma Weighed(header: Component, middle: seq<Component>, footer: seq<Component>)
    ensures var cs := [header] + middle + footer;
            && Total(Weight, cs) == Weight(header) + Total(Weight, middle) + Total(Weight, footer)
            && Total(GalleryItems, cs)
               == GalleryItems(header) + Total(GalleryItems, middle) + Total(GalleryItems, footer)
  {
    Sandwich(Weight, header, middle, footer);
    Sandwich(GalleryItems, header, middle, footer);
  }

  lemma Acceptable(http: string -> bool, header: Component, middle: seq<Component>, footer: seq<Component>)
    requires ChildOK(http, header) && forall c :: c in middle ==> ChildOK(http, c)
    ensures (forall c :: c in [header] + middle + footer ==> ChildOK(http, c))
       <==> (forall c :: c in footer ==> ChildOK(http, c))
  {
    var cs := [header] + middle + footer;
    if forall c :: c in cs ==> ChildOK(http, c) {
      forall c | c in footer ensures ChildOK(http, c) {
        assert c in cs;
      }
    }
  }

  predicate Fits(b: Builder, card: Card, items: seq<string>, text: string) {
    b.size(Payload(b.env, card, items, text)) <= MAX_BYTES
  }

  /** The media a card can show: the first ten. */
  function FirstTen(card: Card): seq<string> { card.media[..Min(|card.media|, MAX_GALLERY)] }

  /** The caption as shown when cut after `n` characters. */
  function CutCaption(env: Env, card: Card, n: nat): string
    requires Ordered(card.spans, 0, |card.caption|) && n <= |card.caption|
  {
    Caption(env, card.caption, card.spans, n)
  }

  /** Where the search for a caption that fits begins. */
  function LongestCut(card: Card): int { Min(|card.caption| - 1, 4000) }

  /** The first loops of the builder: `items` are the first ten media if all can be described. */
  method DescribeMedia(env: Env, card: Card) returns (items: Option<seq<string>>)
    ensures items == if forall u :: u in FirstTen(card) ==> env.media(u) then Some(FirstTen(card)) else None
  {
    var described: seq<string> := [];
    var i := 0;
    while i < |card.media|
      invariant i <= |card.media| && i <= MAX_GALLERY && described == card.media[..i]
      invariant forall u :: u in described ==> env.media(u)
    {
      if i == MAX_GALLERY {
        break;
      }
      if !env.media(card.media[i]) {
        assert FirstTen(card)[i] == card.media[i];
        return None;
      }
      described := described + [card.media[i]];
      i := i + 1;
    }
    assert described == FirstTen(card);
    items := Some(described);
  }

  /** Drops media from the end until the card fits without a caption. */
  method FitMedia(b: Builder, card: Card, ten: seq<string>) returns (kept: nat)
    ensures Min(1, |ten|) <= kept <= |ten|
    ensures forall k :: kept < k <= |ten| ==> !Fits(b, card, ten[..k], "")
    ensures kept > 1 ==> Fits(b, card, ten[..kept], "")
  {
    var items := ten;
    while !Fits(b, card, items, "") && |items| > 1
      invariant Min(1, |ten|) <= |items| <= |ten| && items == ten[..|items|]
      invariant forall k :: |items| < k <= |ten| ==> !Fits(b, card, ten[..k], "")
      decreases |items|
    {
      items := items[..|items| - 1];
    }
    kept := |items|;
  }

  /** A cut of the caption that fits and, short of the longest, cannot be moved by one. No order
      among the sizes is assumed. */
  ghost predicate TightCut(b: Builder, card: Card, items: seq<string>, cut: nat)
    requires Ordered(card.spans, 0, |card.caption|)
  {
    && cut <= LongestCut(card)
    && (cut == 0 || Fits(b, card, items, CutCaption(b.env, card, cut)))
    && (cut == LongestCut(card) || !Fits(b, card, items, CutCaption(b.env, card, cut + 1)))
  }

  /** The binary search for the caption cut; the payload for cut 0 has no caption at all. */
  method FitCaption(b: Builder, card: Card, items: seq<string>) returns (text: string, cut: nat)
    requires Ordered(card.spans, 0, |card.caption|) && card.caption != "" && Fits(b, card, items, "")
    ensures TightCut(b, card, items, cut)
    ensures text == if cut == 0 then "" else CutCaption(b.env, card, cut)
    ensures Fits(b, card, items, text)
  {
    hide Caption, Payload;
    text := "";
    var lo: nat, hi: nat := 0, Min(|card.caption| - 1, 4000);
    while lo < hi
      invariant lo <= hi <= LongestCut(card)
      invariant text == if lo == 0 then "" else CutCaption(b.env, card, lo)
      invariant Fits(b, card, items, text)
      invariant hi == LongestCut(card) || !Fits(b, card, items, CutCaption(b.env, card, hi + 1))
    {
      var mid := lo + (hi - lo + 1) / 2;
      var candidate := DiscordCaption(b.env, card.caption, card.spans, mid);
      if Fits(b, card, items, candidate) {
        lo, text := mid, candidate;
      } else {
        hi := mid - 1;
      }
    }
    cut := lo;
  }

  /** The payload shows the first `kept` media and the first `cut` characters of the caption. */
  ghost predicate Shows(b: Builder, card: Card, payload: Component, kept: nat, cut: nat)
    requires Ordered(card.spans, 0, |card.caption|)
  {
    var ten := FirstTen(card);
    // As much media as fits without a caption, never none of it.
    && Min(1, |ten|) <= kept <= |ten|
    && Fits(b, card, ten[..kept], "")
    && (forall k :: kept < k <= |ten| ==> !Fits(b, card, ten[..k], ""))
    // The whole caption if it fits, else a tight cut of it.
    && if card.gallery then payload == Payload(b.env, card, ten[..kept], "")
       else
         && cut <= |card.caption|
         && payload == Payload(b.env, card, ten[..kept], if cut == 0 then "" else CutCaption(b.env, card, cut))
         && if Fits(b, card, ten[..kept], CutCaption(b.env, card, |card.caption|)) then cut == |card.caption|
            else TightCut(b, card, ten[..kept], cut)
  }

  /** `componentEmbedScript`: the payload, or nothing when the card falls back to Open Graph. */
  method ComponentEmbedScript(b: Builder, card: Card)
    returns (out: Option<Component>, ghost kept: nat, ghost cut: nat)
    requires Ordered(card.spans, 0, |card.caption|) && b.env.media(SUPPORT_URL)
    // A payload is built exactly when the media can be described and some of it fits.
    ensures out.Some? <==>
      && (forall u :: u in FirstTen(card) ==> b.env.media(u))
      && exists k :: Min(1, |FirstTen(card)|) <= k <= |FirstTen(card)| && Fits(b, card, FirstTen(card)[..k], "")
    ensures out.Some? ==> b.size(out.value) <= 3000 && 1 + Total(Weight, out.value.components) <= 11
    ensures out.Some? ==>
      (Accepts(b.env.media, out.value, b.size(out.value)) <==> card.gallery || b.env.media(card.origin))
    ensures out.Some? ==> Shows(b, card, out.value, kept, cut)
  {
    hide Payload, Accepts, Caption;
    kept, cut := 0, 0;
    var described := DescribeMedia(b.env, card);
    if described.None? {
      return None, 0, 0;
    }
    var ten := described.value;
    var n := FitMedia(b, card, ten);
    var items := ten[..n];
    if !Fits(b, card, items, "") {
      return None, 0, 0;
    }
    kept := n;
    var text := "";
    if !card.gallery {
      var whole := DiscordCaption(b.env, card.caption, card.spans, |card.caption|);
      EmptyCaption(b.env, card);
      if Fits(b, card, items, whole) {
        text, cut := whole, |card.caption|;
      } else {
        text, cut := FitCaption(b, card, items);
      }
    }
    assert forall u :: u in items ==> u in ten;
    PayloadAccepted(b.env, card, items, text, b.size(Payload(b.env, card, items, text)));
    out := Some(Payload(b.env, card, items, text));
  }

  lemma EmptyCaption(env: Env, card: Card)
    requires Ordered(card.spans, 0, |card.caption|)
    ensures card.caption == "" ==> CutCaption(env, card, 0) == ""
  {}
}
