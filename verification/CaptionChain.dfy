/** A caption on both its ways out: detected links, printed and read by the preview, and as HTML. */
module CaptionChain {
  import opened Prelude
  import opened DiscordMarkdown
  import opened RoundTrip
  import opened Links
  import opened Percent
  import opened Selection
  import Preview
  import CaptionHtml

  /** `discordCaption` and the preview's `parseMarkdown` in a row: whatever the caption, the links
      found in it and the cut, the preview shows exactly the links kept if it can link to each. */
  method PreviewCaption(
      f: Finder, r: Preview.Rules, env: Env, text: string,
      urls: seq<Match>, handles: seq<Match>, tags: seq<Match>, cut: nat)
    returns (nodes: seq<Preview.Node>, spans: seq<Span>)
    requires Pattern(text, urls) && Pattern(text, handles) && Pattern(text, tags) && cut <= |text|
    ensures Detection(f, text, urls, handles, tags, spans) && Selected(f, text, urls, handles, tags, spans)
    ensures Targets(nodes) == Hrefs(Kept(env, spans, cut))
       <==> forall s :: s in Kept(env, spans, cut) ==> Linkable(r, Target(s.href))
    ensures (forall s :: s in Kept(env, spans, cut) ==> Linkable(r, Target(s.href))) ==>
      Lead(Targets(nodes), Kept(env, spans, cut))
  {
    hide Pattern, Targets, Hrefs, Kept, Linkable, Caption, Detected, Ordered;
    hide Standing, Greedy, Candidates, SameSpans, Selected, Lead;
    var occupied;
    spans, occupied := DetectLinks(f, text, urls, handles, tags);
    DetectionSelects(f, text, urls, handles, tags, spans);
    var printed := DiscordCaption(env, text, spans, cut);
    nodes := Preview.ParseLoop(r, printed, Preview.Block);
    CaptionLinks(r, env, text, spans, cut);
  }

  /** `captionHTML`: undoing it gives the caption back. */
  method UndoCaption(f: Finder, text: string, urls: seq<Match>, handles: seq<Match>, tags: seq<Match>)
    returns (html: string, spans: seq<Span>)
    requires Pattern(text, urls) && Pattern(text, handles) && Pattern(text, tags)
    ensures Detection(f, text, urls, handles, tags, spans) && Selected(f, text, urls, handles, tags, spans)
    ensures CaptionHtml.Plain(CaptionHtml.Tokens(html)) == text
    ensures CaptionHtml.Linked(CaptionHtml.Tokens(html), 0, None) == spans
  {
    hide Pattern, Ordered, Detected, Standing, Greedy, Candidates, SameSpans, Selected;
    hide CaptionHtml.Plain, CaptionHtml.Tokens, CaptionHtml.Linked;
    var occupied;
    spans, occupied := DetectLinks(f, text, urls, handles, tags);
    DetectionSelects(f, text, urls, handles, tags, spans);
    html := CaptionHtml.CaptionHTML(text, spans);
    CaptionHtml.CaptionUndone(text, spans);
  }
}
