/** What link detection (server/linkify.go) selects, without the order in which it does so. */
module Selection {
  import opened Prelude
  import opened DiscordMarkdown
  import opened Links

  // ---------- What the spans are ----------

  /** A URL: the longest prefix of its match that ends well, linked to itself. */
  ghost predicate UrlSpan(text: string, m: Match, s: Span) {
    m.start == s.start < s.end <= m.end <= |text| && s.href == text[s.start..s.end]
    && Tight(text, s.start, s.end, m.end)
  }

  /** A handle: a whole match whose name is valid and has no two dots in a row, linked to the profile
      of that name. */
  ghost predicate HandleSpan(f: Finder, text: string, m: Match, s: Span) {
    && m.start == s.start < s.end == m.end <= |text|
    && var name := text[s.start + 1..s.end];
       s.href == f.profile(name) && f.username(name) && forall i :: 0 <= i <= |name| ==> !(".." <= name[i..])
  }

  /** A tag: a whole match, linked to the search for what follows the sigil. */
  ghost predicate TagSpan(f: Finder, text: string, m: Match, s: Span) {
    m.start == s.start < s.end == m.end <= |text| && s.href == f.search(text[s.start + 1..s.end])
  }

  lemma OneEnd(text: string, m: Match, s: Span, t: Span)
    requires UrlSpan(text, m, s) && UrlSpan(text, m, t)
    ensures s == t
  {
    hide EndsWell;
  }

  lemma UrlsAre(text: string, ms: seq<Match>, s: Span)
    requires Pattern(text, ms) && s in Urls(text, ms)
    ensures exists m :: m in ms && UrlSpan(text, m, s)
  {
    hide Trimmed, Tight, Head, CleanEnd, UrlSpan;
    var i :| 0 <= i < |Urls(text, ms)| && Urls(text, ms)[i] == s;
    UrlsCount(text, ms);
    UrlAt(text, ms, i);
    UrlIs(text, ms[i], s);
  }

  lemma UrlsCount(text: string, ms: seq<Match>)
    requires Pattern(text, ms)
    ensures |Urls(text, ms)| == |ms|
  {}

  lemma UrlIs(text: string, m: Match, s: Span)
    requires m.start < m.end <= |text| && Head(text[m.start])
    requires var url := Trimmed(text[m.start..m.end]); url != "" && s == Span(m.start, m.start + |url|, url)
    ensures UrlSpan(text, m, s)
  {
    hide Trimmed, Tight, CleanEnd;
    TrimmedIs(text, m.start, m.end);
    HeadStays(text, m);
    PrefixSlice(text, m.start, m.end, Trimmed(text[m.start..m.end]));
  }

  lemma MentionsAre(f: Finder, text: string, ms: seq<Match>, s: Span)
    requires Pattern(text, ms)
    ensures s in Mentions(f, text, ms) <==> exists m :: m in ms && HandleSpan(f, text, m, s)
    decreases |ms|
  {
    if ms != [] {
      MentionsAre(f, text, ms[1..], s);
      FirstMention(f, text, ms, s);
    }
  }

  lemma FirstMention(f: Finder, text: string, ms: seq<Match>, s: Span)
    requires Pattern(text, ms) && ms != []
    ensures s in Mentions(f, text, ms) <==> HandleSpan(f, text, ms[0], s) || s in Mentions(f, text, ms[1..])
  {
    HandleIs(f, text, ms[0], s);
    hide HandleSpan, Handle, Head;
    var m, rest := ms[0], Mentions(f, text, ms[1..]);
    var name := text[m.start + 1..m.end];
    var first := if Handle(f, name) then [Span(m.start, m.end, f.profile(name))] else [];
    assert Mentions(f, text, ms) == first + rest;
    hide Mentions;
    assert s in first + rest <==> s in first || s in rest;
  }

  lemma HandleIs(f: Finder, text: string, m: Match, s: Span)
    requires m.start < m.end <= |text|
    ensures var name := text[m.start + 1..m.end];
            HandleSpan(f, text, m, s) <==> Handle(f, name) && s == Span(m.start, m.end, f.profile(name))
  {}

  lemma TagsAre(f: Finder, text: string, ms: seq<Match>, s: Span)
    requires Pattern(text, ms)
    ensures s in Tags(f, text, ms) <==> exists m :: m in ms && TagSpan(f, text, m, s)
    decreases |ms|
  {
    if ms != [] {
      TagsAre(f, text, ms[1..], s);
      FirstTag(f, text, ms, s);
    }
  }

  lemma FirstTag(f: Finder, text: string, ms: seq<Match>, s: Span)
    requires Pattern(text, ms) && ms != []
    ensures s in Tags(f, text, ms) <==> TagSpan(f, text, ms[0], s) || s in Tags(f, text, ms[1..])
  {}

  // ---------- What is selected ----------

  /** A handle, or a tag, whose match counts. */
  ghost predicate Mentioned(f: Finder, text: string, handles: seq<Match>, s: Span) {
    exists i :: 0 <= i < |handles| && Counts(f.word, text, handles, i) && HandleSpan(f, text, handles[i], s)
  }

  ghost predicate Tagged(f: Finder, text: string, tags: seq<Match>, s: Span) {
    exists i :: 0 <= i < |tags| && Counts(f.word, text, tags, i) && TagSpan(f, text, tags[i], s)
  }

  ghost predicate Addressed(text: string, urls: seq<Match>, s: Span) { exists m :: m in urls && UrlSpan(text, m, s) }

  /** Every URL is selected; every handle that does not overlap a URL; every tag that does not
      overlap anything selected; and nothing else. */
  ghost predicate Selected(
      f: Finder, text: string, urls: seq<Match>, handles: seq<Match>, tags: seq<Match>, spans: seq<Span>)
  {
    && (forall s :: s in spans ==>
          Addressed(text, urls, s) || Mentioned(f, text, handles, s) || Tagged(f, text, tags, s))
    && (forall s :: Addressed(text, urls, s) ==> s in spans)
    && (forall s :: Mentioned(f, text, handles, s) ==>
          s in spans || exists u :: Addressed(text, urls, u) && Overlaps(u, s))
    && (forall s :: Tagged(f, text, tags, s) ==> s in spans || exists t :: t in spans && Overlaps(t, s))
  }

  lemma StandingMentions(f: Finder, text: string, ms: seq<Match>, out: seq<Match>, s: Span)
    requires Pattern(text, ms) && Standing(f, text, ms, out)
    ensures s in Mentions(f, text, out) <==> Mentioned(f, text, ms, s)
  {
    hide HandleSpan, Counts, Pattern;
    MentionsAre(f, text, out, s);
  }

  lemma StandingTags(f: Finder, text: string, ms: seq<Match>, out: seq<Match>, s: Span)
    requires Pattern(text, ms) && Standing(f, text, ms, out)
    ensures s in Tags(f, text, out) <==> Tagged(f, text, ms, s)
  {
    hide TagSpan, Counts, Pattern;
    TagsAre(f, text, out, s);
  }

  lemma AddressedUrls(text: string, ms: seq<Match>, s: Span)
    requires Pattern(text, ms)
    ensures s in Urls(text, ms) <==> Addressed(text, ms, s)
  {
    hide UrlSpan, Trimmed, Head;
    if s in Urls(text, ms) {
      UrlsAre(text, ms, s);
    }
    if Addressed(text, ms, s) {
      var m :| m in ms && UrlSpan(text, m, s);
      var i :| 0 <= i < |ms| && ms[i] == m;
      UrlAt(text, ms, i);
      var url := Urls(text, ms)[i];
      UrlIs(text, m, url);
      OneEnd(text, m, s, url);
    }
  }

  lemma {:induction false} GreedyConcat(text: string, spans: seq<Span>, a: seq<Span>, b: seq<Span>)
    ensures Greedy(text, spans, a + b) == Greedy(text, Greedy(text, spans, a), b)
    decreases |a|
  {
    if a == [] {
      assert a + b == b;
    } else {
      var c := a[0];
      assert (a + b)[1..] == a[1..] + b;
      GreedyConcat(text, if Inside(text, c) && Free(spans, c) then spans + [c] else spans, a[1..], b);
    }
  }

  /** Two handles of one text are the same or apart. */
  lemma MentionsApart(f: Finder, text: string, ms: seq<Match>, s: Span, t: Span)
    requires Pattern(text, ms) && s in Mentions(f, text, ms) && t in Mentions(f, text, ms) && Overlaps(s, t)
    ensures s == t
  {
    hide Mentions, Head;
    MentionsAre(f, text, ms, s);
    MentionsAre(f, text, ms, t);
    hide HandleSpan, Found, Overlaps;
    var m :| m in ms && HandleSpan(f, text, m, s);
    var n :| n in ms && HandleSpan(f, text, n, t);
    OneMatch(text, ms, m, n, f, s, t);
  }

  lemma OneMatch(text: string, ms: seq<Match>, m: Match, n: Match, f: Finder, s: Span, t: Span)
    requires Found(text, ms) && m in ms && n in ms && HandleSpan(f, text, m, s) && HandleSpan(f, text, n, t)
    requires Overlaps(s, t)
    ensures s == t
  {
    hide Contains;
    var i :| 0 <= i < |ms| && ms[i] == m;
    var j :| 0 <= j < |ms| && ms[j] == n;
    assert i == j;
  }

  lemma InsideCandidates(f: Finder, text: string, urls: seq<Match>, ats: seq<Match>, hashes: seq<Match>, s: Span)
    requires Pattern(text, urls) && Pattern(text, ats) && Pattern(text, hashes)
    requires s in Urls(text, urls) || s in Mentions(f, text, ats) || s in Tags(f, text, hashes)
    ensures Inside(text, s)
  {
    hide Urls, Mentions, Tags, Pattern, Tight, EndsWell;
    if s in Urls(text, urls) {
      UrlsAre(text, urls, s);
    } else if s in Mentions(f, text, ats) {
      MentionsAre(f, text, ats, s);
    } else {
      TagsAre(f, text, hashes, s);
    }
  }

  /** Handles give way to URLs alone. */
  lemma HandlesTaken(f: Finder, text: string, urls: seq<Match>, ats: seq<Match>, s: Span)
    requires Pattern(text, urls) && Pattern(text, ats) && s in Mentions(f, text, ats)
    ensures s in Greedy(text, Urls(text, urls), Mentions(f, text, ats))
         || exists u :: u in Urls(text, urls) && Overlaps(u, s)
  {
    hide Urls, Mentions, Pattern, Greedy, Inside, Overlaps, Apart;
    var first, all := Urls(text, urls), Greedy(text, Urls(text, urls), Mentions(f, text, ats));
    UrlsApart(text, urls);
    GreedyChoice(text, first, Mentions(f, text, ats));
    NoMatches(text);
    InsideCandidates(f, text, urls, ats, [], s);
    if s !in all {
      var t :| t in all && Overlaps(s, t);
      Symmetric(s, t);
      if t in Mentions(f, text, ats) {
        MentionsApart(f, text, ats, s, t);
      }
    }
  }

  lemma NoMatches(text: string)
    ensures Pattern(text, [])
  {}

  /** The greedy choice among the candidates of a text, by what is in it. */
  ghost predicate Picked(
      f: Finder, text: string, urls: seq<Match>, ats: seq<Match>, hashes: seq<Match>, all: seq<Span>)
    requires Pattern(text, urls) && Pattern(text, ats) && Pattern(text, hashes)
  {
    && (forall s :: s in all ==> s in Urls(text, urls) || s in Mentions(f, text, ats) || s in Tags(f, text, hashes))
    && (forall s :: s in Urls(text, urls) ==> s in all)
    && (forall s :: s in Mentions(f, text, ats) ==> s in all || exists u :: u in Urls(text, urls) && Overlaps(u, s))
    && (forall s :: s in Tags(f, text, hashes) ==> s in all || exists t :: t in all && Overlaps(t, s))
  }

  lemma GreedyPicks(f: Finder, text: string, urls: seq<Match>, ats: seq<Match>, hashes: seq<Match>)
    requires Pattern(text, urls) && Pattern(text, ats) && Pattern(text, hashes)
    ensures Picked(f, text, urls, ats, hashes, Greedy(text, [], Candidates(f, text, urls, ats, hashes)))
  {
    hide Urls, Mentions, Tags, Pattern, Greedy, Overlaps, Apart, Inside;
    var first, names, marks := Urls(text, urls), Mentions(f, text, ats), Tags(f, text, hashes);
    var some := Greedy(text, first, names);
    var all := Greedy(text, some, marks);
    UrlsApart(text, urls);
    assert [] + first == first;
    FirstComeAll(text, [], first, names + marks);
    GreedyConcat(text, first, names, marks);
    GreedyChoice(text, first, names);
    GreedyChoice(text, some, marks);
    forall s | s in names ensures s in all || exists u :: u in first && Overlaps(u, s) {
      HandlesTaken(f, text, urls, ats, s);
    }
    forall s | s in marks ensures s in all || exists t :: t in all && Overlaps(t, s) {
      InsideCandidates(f, text, urls, ats, hashes, s);
      if s !in all {
        var t :| t in all && Overlaps(s, t);
        Symmetric(s, t);
      }
    }
  }

  lemma PickedSelected(
      f: Finder, text: string, urls: seq<Match>, handles: seq<Match>, tags: seq<Match>,
      ats: seq<Match>, hashes: seq<Match>, spans: seq<Span>)
    requires Pattern(text, urls) && Pattern(text, handles) && Pattern(text, tags)
    requires Standing(f, text, handles, ats) && Standing(f, text, tags, hashes)
    requires Picked(f, text, urls, ats, hashes, spans)
    ensures Selected(f, text, urls, handles, tags, spans)
  {
    forall s ensures s in Urls(text, urls) <==> Addressed(text, urls, s) {
      AddressedUrls(text, urls, s);
    }
    forall s ensures s in Mentions(f, text, ats) <==> Mentioned(f, text, handles, s) {
      StandingMentions(f, text, handles, ats, s);
    }
    forall s ensures s in Tags(f, text, hashes) <==> Tagged(f, text, tags, s) {
      StandingTags(f, text, tags, hashes, s);
    }
    hide Urls, Mentions, Tags, Pattern, Standing, Addressed, Mentioned, Tagged, Overlaps;
  }

  /** What `DetectLinks` returns is that selection. */
  lemma DetectionSelects(
      f: Finder, text: string, urls: seq<Match>, handles: seq<Match>, tags: seq<Match>, spans: seq<Span>)
    requires Pattern(text, urls) && Pattern(text, handles) && Pattern(text, tags)
    requires Detection(f, text, urls, handles, tags, spans)
    ensures Selected(f, text, urls, handles, tags, spans)
  {
    hide Pattern, Counts, Greedy, Candidates, Selected, Ordered;
    var ats, hashes :| Standing(f, text, handles, ats) && Standing(f, text, tags, hashes)
      && SameSpans(spans, Greedy(text, [], Candidates(f, text, urls, ats, hashes)));
    GreedyPicks(f, text, urls, ats, hashes);
    PickedSelected(f, text, urls, handles, tags, ats, hashes, spans);
  }
}
