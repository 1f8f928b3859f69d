/** Link detection, server/linkify.go. Text is a sequence of Unicode scalar values. */
module Links {
  import opened Prelude
  import opened DiscordMarkdown
  import opened RoundTrip

  // ---------- The end of a URL ----------

  predicate Trailing(c: char) { c in ".,;:!?'\"\U{201D}\U{2019}\U{BB}\U{2026}" }

  predicate Closer(c: char) { c == ')' || c == ']' || c == '}' }

  function Opener(c: char): char { if c == ')' then '(' else if c == ']' then '[' else '{' }

  /** How often `c` occurs. */
  function Occurs(t: string, c: char): (n: nat)
    ensures n <= |t|
  {
    if t == "" then 0 else Occurs(t[..|t| - 1], c) + (if t[|t| - 1] == c then 1 else 0)
  }

  /** Where a URL may end: not at punctuation, nor at a bracket closed more often than opened. */
  predicate CleanEnd(t: string) {
    t == "" ||
      var c := t[|t| - 1];
      !Trailing(c) && (Closer(c) ==> Occurs(t, Opener(c)) >= Occurs(t, c))
  }

  /** The same, spelled out. */
  predicate EndsWell(t: string) {
    t == "" ||
      var c := t[|t| - 1];
      && c !in {'.', ',', ';', ':', '!', '?', '\'', '"', '\U{201D}', '\U{2019}', '\U{BB}', '\U{2026}'}
      && (c == ')' ==> Occurs(t, '(') >= Occurs(t, ')'))
      && (c == ']' ==> Occurs(t, '[') >= Occurs(t, ']'))
      && (c == '}' ==> Occurs(t, '{') >= Occurs(t, '}'))
  }

  lemma EndsWellIs(t: string)
    ensures EndsWell(t) <==> CleanEnd(t)
  {
    hide Occurs;
  }

  /** The last place up to `stop` where a URL from `start` may end. */
  ghost predicate Tight(text: string, start: nat, end: nat, stop: nat) {
    && start <= end <= stop <= |text| && EndsWell(text[start..end])
    && forall k :: end < k <= stop ==> !EndsWell(text[start..k])
  }

  /** The longest prefix with a clean end, by counting anew for every prefix. */
  function Trimmed(t: string): (r: string)
    ensures r <= t && CleanEnd(r)
  {
    if CleanEnd(t) then t else Trimmed(t[..|t| - 1])
  }

  lemma TrimmedIsLongest(t: string, n: nat)
    requires n <= |t| && CleanEnd(t[..n])
    ensures n <= |Trimmed(t)|
  {
    if CleanEnd(t) {
    } else {
      assert n < |t| by {
        assert t[..|t|] == t;
      }
      assert t[..|t| - 1][..n] == t[..n];
      TrimmedIsLongest(t[..|t| - 1], n);
    }
  }

  lemma NextOccurs(text: string, start: nat, i: nat, c: char)
    requires start <= i < |text|
    ensures Occurs(text[start..i + 1], c) == Occurs(text[start..i], c) + (if text[i] == c then 1 else 0)
  {
    var t := text[start..i + 1];
    assert t[..|t| - 1] == text[start..i] && t[|t| - 1] == text[i];
  }

  /** The counts a trim looks at are those of `t`. */
  ghost predicate Counted(count: seq<int>, t: string) {
    |count| == 256 && forall c: char :: c in "()[]{}" ==> count[c as int] == Occurs(t, c)
  }

  function Bump(count: seq<int>, c: char, delta: int): (r: seq<int>)
    requires |count| == 256
    ensures |r| == 256
  {
    if c < 256 as char then count[c as int := count[c as int] + delta] else count
  }

  lemma CountedUp(count: seq<int>, text: string, start: nat, i: nat)
    requires start <= i < |text| && Counted(count, text[start..i])
    ensures Counted(Bump(count, text[i], 1), text[start..i + 1])
  {
    hide Occurs;
    forall c: char | c in "()[]{}" ensures Bump(count, text[i], 1)[c as int] == Occurs(text[start..i + 1], c) {
      NextOccurs(text, start, i, c);
    }
  }

  lemma CountedDown(count: seq<int>, text: string, start: nat, end: nat)
    requires start < end <= |text| && Counted(count, text[start..end])
    ensures Counted(Bump(count, text[end - 1], -1), text[start..end - 1])
    ensures Trailing(text[end - 1]) ==> Counted(count, text[start..end - 1])
  {
    hide Occurs;
    forall c: char | c in "()[]{}" ensures Bump(count, text[end - 1], -1)[c as int] == Occurs(text[start..end - 1], c) {
      NextOccurs(text, start, end - 1, c);
    }
    if Trailing(text[end - 1]) {
      NoBracket(text[end - 1]);
      forall c: char | c in "()[]{}" ensures count[c as int] == Occurs(text[start..end - 1], c) {
        NextOccurs(text, start, end - 1, c);
      }
    }
  }

  lemma NoBracket(c: char)
    requires Trailing(c)
    ensures c !in "()[]{}"
  {}

  lemma Brackets(c: char)
    requires Closer(c)
    ensures c in "()[]{}" && Opener(c) in "()[]{}"
  {
    assert "()[]{}"[1] == ')' && "()[]{}"[3] == ']' && "()[]{}"[5] == '}';
    assert "()[]{}"[0] == '(' && "()[]{}"[2] == '[' && "()[]{}"[4] == '{';
  }

  lemma BracketCounts(count: seq<int>, t: string, c: char)
    requires Closer(c) && Counted(count, t)
    ensures c < 256 as char && Opener(c) < 256 as char && |count| == 256
    ensures count[c as int] == Occurs(t, c) && count[Opener(c) as int] == Occurs(t, Opener(c))
  {
    hide Occurs;
    Brackets(c);
  }

  lemma Bumped(count: seq<int>, c: char, delta: int)
    requires |count| == 256 && c < 256 as char
    ensures Bump(count, c, delta) == count[c as int := count[c as int] + delta]
  {}

  lemma NotBumped(count: seq<int>, c: char, delta: int)
    requires |count| == 256 && c >= 256 as char
    ensures Bump(count, c, delta) == count
  {}

  lemma TrimStep(text: string, start: nat, end: nat)
    requires start < end <= |text|
    ensures var t, c := text[start..end], text[end - 1];
            Trimmed(t) == if Trailing(c) || (Closer(c) && Occurs(t, Opener(c)) < Occurs(t, c))
                          then Trimmed(text[start..end - 1]) else t
  {
    hide Trailing, Closer, Opener, Occurs;
    var t := text[start..end];
    assert t[|t| - 1] == text[end - 1] && t[..|t| - 1] == text[start..end - 1];
  }

  /** `trimURLEnd`: counts once. */
  method TrimUrlEnd(text: string, start: nat, stop: nat) returns (end: nat)
    requires start <= stop <= |text|
    ensures start <= end <= stop && text[start..end] == Trimmed(text[start..stop])
    ensures Tight(text, start, end, stop)
  {
    hide Trailing, Occurs, Trimmed, CleanEnd, Counted, Bump, Tight;
    var count := new int[256](_ => 0);
    NoneCounted(count[..]);
    assert text[start..start] == "";
    for i := start to stop
      invariant Counted(count[..], text[start..i])
    {
      CountedUp(count[..], text, start, i);
      var c := text[i];
      if c < 256 as char {
        Bumped(count[..], c, 1);
        ghost var after := Bump(count[..], c, 1);
        count[c as int] := count[c as int] + 1;
        assert count[..] == after;
      } else {
        NotBumped(count[..], c, 1);
      }
    }
    end := stop;
    while end > start
      invariant start <= end <= stop && Counted(count[..], text[start..end])
      invariant Trimmed(text[start..end]) == Trimmed(text[start..stop])
    {
      var c := text[end - 1];
      CountedDown(count[..], text, start, end);
      TrimStep(text, start, end);
      if Trailing(c) {
        end := end - 1;
      } else if Closer(c) {
        BracketCounts(count[..], text[start..end], c);
        if count[Opener(c) as int] >= count[c as int] {
          break;
        }
        Bumped(count[..], c, -1);
        ghost var after := Bump(count[..], c, -1);
        count[c as int] := count[c as int] - 1;
        assert count[..] == after;
        end := end - 1;
      } else {
        break;
      }
    }
    TrimmedNothing();
    assert text[start..end] == Trimmed(text[start..stop]);
    TrimmedIs(text, start, stop);
  }

  lemma PrefixSlice(text: string, start: nat, stop: nat, p: string)
    requires start <= stop <= |text| && p <= text[start..stop]
    ensures text[start..start + |p|] == p
  {}

  lemma TrimmedIs(text: string, start: nat, stop: nat)
    requires start <= stop <= |text|
    ensures Tight(text, start, start + |Trimmed(text[start..stop])|, stop)
  {
    hide EndsWell, CleanEnd, Trimmed;
    var t := text[start..stop];
    EndsWellIs(Trimmed(t));
    PrefixSlice(text, start, stop, Trimmed(t));
    forall k | start + |Trimmed(t)| < k <= stop ensures !EndsWell(text[start..k]) {
      assert t[..k - start] == text[start..k];
      EndsWellIs(text[start..k]);
      if CleanEnd(t[..k - start]) {
        TrimmedIsLongest(t, k - start);
      }
    }
  }

  lemma TrimmedNothing()
    ensures Trimmed("") == ""
  {}

  lemma NoneCounted(count: seq<int>)
    requires |count| == 256 && forall i :: 0 <= i < 256 ==> count[i] == 0
    ensures Counted(count, "")
  {}

  // ---------- Sigils ----------

  datatype Match = Match(start: nat, end: nat)

  /** What a regular expression finds: matches in order, none empty, none overlapping. */
  ghost predicate Found(text: string, ms: seq<Match>) {
    && (forall i :: 0 <= i < |ms| ==> ms[i].start < ms[i].end <= |text|)
    && forall i, j :: 0 <= i < j < |ms| ==> ms[i].end <= ms[j].start
  }

  /** `boundaryOK`; `word` is `isWordRune`. */
  predicate BoundaryOK(word: char -> bool, text: string, start: nat) {
    start == 0 || start > |text| || (!word(text[start - 1]) && text[start - 1] != '@' && text[start - 1] != '#')
  }

  predicate Adjacent(ms: seq<Match>, i: int) { 0 < i < |ms| && ms[i - 1].end == ms[i].start }

  /** The matches `j` to `i` follow one another without a gap. */
  ghost predicate Chained(ms: seq<Match>, j: nat, i: nat) {
    j <= i < |ms| && forall k :: j < k <= i ==> Adjacent(ms, k)
  }

  /** A match counts when a chain of matches leads to it from one that stands at a boundary. */
  ghost predicate Counts(word: char -> bool, text: string, ms: seq<Match>, i: nat) {
    exists j: nat :: Chained(ms, j, i) && BoundaryOK(word, text, ms[j].start)
  }

  lemma BoundaryIs(word: char -> bool, text: string, start: nat)
    ensures start == 0 ==> BoundaryOK(word, text, start)
    ensures 0 < start <= |text| ==>
      var c := text[start - 1]; BoundaryOK(word, text, start) == (!word(c) && c != '@' && c != '#')
  {}

  /** A match counts at the beginning of the text, after a character that is neither part of a word nor
      a sigil, or directly after a match that counts. */
  lemma CountsNext(word: char -> bool, text: string, ms: seq<Match>, i: nat)
    requires i < |ms|
    ensures Counts(word, text, ms, i) <==>
      BoundaryOK(word, text, ms[i].start) || (Adjacent(ms, i) && Counts(word, text, ms, i - 1))
    ensures 0 < ms[i].start <= |text| ==>
      var c := text[ms[i].start - 1];
      BoundaryOK(word, text, ms[i].start) == (!word(c) && c != '@' && c != '#')
    ensures ms[i].start == 0 ==> BoundaryOK(word, text, ms[i].start)
  {
    BoundaryIs(word, text, ms[i].start);
    hide BoundaryOK, Adjacent;
    if BoundaryOK(word, text, ms[i].start) {
      assert Chained(ms, i, i);
    } else if i > 0 && Adjacent(ms, i) && Counts(word, text, ms, i - 1) {
      var j: nat :| Chained(ms, j, i - 1) && BoundaryOK(word, text, ms[j].start);
      assert Chained(ms, j, i);
    }
    if Counts(word, text, ms, i) {
      var j: nat :| Chained(ms, j, i) && BoundaryOK(word, text, ms[j].start);
      if j < i {
        assert Chained(ms, j, i - 1);
      }
    }
  }

  /** `scanSigil`, without the targets: the matches that count, in order. */
  method ScanSigil(word: char -> bool, text: string, ms: seq<Match>) returns (out: seq<Match>)
    requires Found(text, ms)
    ensures forall m :: m in out <==> exists i :: 0 <= i < |ms| && ms[i] == m && Counts(word, text, ms, i)
    ensures Found(text, out)
  {
    hide Counts, BoundaryOK;
    out := [];
    var lastEnd: int := -1;
    ghost var last := -1;
    for i := 0 to |ms|
      invariant forall m :: m in out <==> exists j :: 0 <= j < i && ms[j] == m && Counts(word, text, ms, j)
      invariant Found(text, out) && (forall m :: m in out ==> m.end <= lastEnd)
      invariant -1 <= last < i && lastEnd == (if last == -1 then -1 else ms[last].end)
      invariant last != -1 ==> Counts(word, text, ms, last)
      invariant forall k :: last < k < i ==> !Counts(word, text, ms, k)
    {
      var m := ms[i];
      CountsNext(word, text, ms, i);
      if m.start == lastEnd || BoundaryOK(word, text, m.start) {
        FoundOneMore(text, out, m);
        out, lastEnd, last := out + [m], m.end, i;
      }
    }
  }

  lemma FoundOneMore(text: string, ms: seq<Match>, m: Match)
    requires Found(text, ms) && m.start < m.end <= |text| && forall n :: n in ms ==> n.end <= m.start
    ensures Found(text, ms + [m])
  {}

  // ---------- Spans ----------

  predicate Overlaps(s: Span, t: Span) { s.start < t.end && t.start < s.end }

  predicate Inside(text: string, s: Span) { s.start < s.end <= |text| }

  predicate Free(spans: seq<Span>, s: Span) { forall t :: t in spans ==> !Overlaps(s, t) }

  /** The candidates taken in order, each unless it overlaps one taken before. */
  function Greedy(text: string, spans: seq<Span>, candidates: seq<Span>): seq<Span>
    decreases |candidates|
  {
    if candidates == [] then spans
    else
      var c := candidates[0];
      Greedy(text, if Inside(text, c) && Free(spans, c) then spans + [c] else spans, candidates[1..])
  }

  ghost predicate Apart(text: string, spans: seq<Span>) {
    && (forall i :: 0 <= i < |spans| ==> Inside(text, spans[i]))
    && forall i, j :: 0 <= i < j < |spans| ==> !Overlaps(spans[i], spans[j])
  }

  lemma OneMoreApart(text: string, spans: seq<Span>, s: Span)
    requires Apart(text, spans) && Inside(text, s) && Free(spans, s)
    ensures Apart(text, spans + [s])
  {
    assert forall i :: 0 <= i < |spans| ==> spans[i] in spans;
  }

  /** What greedy choice comes to: spans that do not overlap, among them every candidate that does
      not overlap one of the others. */
  lemma {:induction false} GreedyChoice(text: string, spans: seq<Span>, candidates: seq<Span>)
    requires Apart(text, spans)
    ensures var all := Greedy(text, spans, candidates);
            && Apart(text, all) && spans <= all && (forall s :: s in all ==> s in spans || s in candidates)
            && forall c :: c in candidates && Inside(text, c) ==> c in all || !Free(all, c)
    decreases |candidates|
  {
    hide Apart, Inside, Overlaps;
    if candidates != [] {
      var c := candidates[0];
      var next := if Inside(text, c) && Free(spans, c) then spans + [c] else spans;
      if Inside(text, c) && Free(spans, c) {
        OneMoreApart(text, spans, c);
      }
      GreedyChoice(text, next, candidates[1..]);
      var all := Greedy(text, spans, candidates);
      assert all == Greedy(text, next, candidates[1..]);
      assert forall s :: s in next ==> s in all;
    }
  }

  /** Candidates that come first and do not overlap each other are all taken. */
  lemma {:induction false} FirstComeAll(text: string, spans: seq<Span>, first: seq<Span>, rest: seq<Span>)
    requires Apart(text, spans + first)
    ensures Greedy(text, spans, first + rest) == Greedy(text, spans + first, rest)
    decreases |first|
  {
    if first == [] {
      assert first + rest == rest && spans + first == spans;
    } else {
      var c := first[0];
      assert (first + rest)[1..] == first[1..] + rest;
      assert (spans + first)[|spans|] == c;
      forall t | t in spans ensures !Overlaps(c, t) {
        var i :| 0 <= i < |spans| && spans[i] == t;
        assert (spans + first)[i] == t;
      }
      assert (spans + [c]) + first[1..] == spans + first;
      FirstComeAll(text, spans + [c], first[1..], rest);
    }
  }

  ghost predicate Covered(spans: seq<Span>, i: int) { exists s :: s in spans && s.start <= i < s.end }

  /** `occupied` marks exactly the positions in spans. */
  ghost predicate Marks(occupied: seq<bool>, spans: seq<Span>) {
    forall i :: 0 <= i < |occupied| ==> occupied[i] == Covered(spans, i)
  }

  /** The closure `add` of `detectLinks`. */
  method Add(text: string, occupied: array<bool>, spans: seq<Span>, s: Span) returns (out: seq<Span>)
    requires occupied.Length == |text| && Marks(occupied[..], spans) && forall t :: t in spans ==> Inside(text, t)
    modifies occupied
    ensures out == (if Inside(text, s) && Free(spans, s) then spans + [s] else spans) && Marks(occupied[..], out)
  {
    out := spans;
    if s.end > |text| || s.start >= s.end {
      return;
    }
    for i := s.start to s.end
      invariant forall j :: s.start <= j < i ==> !Covered(spans, j)
    {
      if occupied[i] {
        assert Covered(spans, i);
        return;
      }
    }
    NotCovered(spans, s);
    for i := s.start to s.end
      invariant forall j :: 0 <= j < |text| ==> occupied[j] == (old(occupied[j]) || s.start <= j < i)
    {
      occupied[i] := true;
    }
    out := spans + [s];
    forall i | 0 <= i < |text| ensures occupied[i] == Covered(out, i) {
      if Covered(spans, i) {
        var t :| t in spans && t.start <= i < t.end;
        assert t in out;
      }
      assert s in out;
    }
  }

  lemma NotCovered(spans: seq<Span>, s: Span)
    requires forall j :: s.start <= j < s.end ==> !Covered(spans, j)
    requires s.start < s.end
    ensures forall t :: t in spans && t.start < t.end ==> !Overlaps(s, t)
  {
    forall t | t in spans && t.start < t.end && Overlaps(s, t) ensures false {
      assert Covered(spans, Max(s.start, t.start));
    }
  }

  // ---------- Detection ----------

  /** What detection asks of libraries: `word` is `isWordRune`, `username` is `validUsername`,
      `profile` and `search` make the targets of a handle and a tag. */
  datatype Finder = Finder(
    word: char -> bool, username: string -> bool, profile: string -> string, search: string -> string)

  predicate Head(c: char) { c == 'h' || c == 'H' || c == 'm' || c == 'M' || c == '@' || c == '#' }

  /** Matches of the three patterns: each begins with a letter of a scheme or with its sigil. */
  ghost predicate Pattern(text: string, ms: seq<Match>) {
    Found(text, ms) && forall i :: 0 <= i < |ms| ==> Head(text[ms[i].start])
  }

  /** URLs, ended where their punctuation begins. */
  ghost function Urls(text: string, ms: seq<Match>): seq<Span>
    requires Pattern(text, ms)
  {
    if ms == [] then []
    else
      var url := Trimmed(text[ms[0].start..ms[0].end]);
      [Span(ms[0].start, ms[0].start + |url|, url)] + Urls(text, ms[1..])
  }

  predicate Handle(f: Finder, name: string) { f.username(name) && !Contains(name, "..") }

  ghost function Mentions(f: Finder, text: string, ms: seq<Match>): seq<Span>
    requires Pattern(text, ms)
  {
    if ms == [] then []
    else
      var name := text[ms[0].start + 1..ms[0].end];
      (if Handle(f, name) then [Span(ms[0].start, ms[0].end, f.profile(name))] else []) + Mentions(f, text, ms[1..])
  }

  ghost function Tags(f: Finder, text: string, ms: seq<Match>): seq<Span>
    requires Pattern(text, ms)
  {
    if ms == [] then []
    else
      [Span(ms[0].start, ms[0].end, f.search(text[ms[0].start + 1..ms[0].end]))] + Tags(f, text, ms[1..])
  }

  /** Every candidate, in order of precedence. */
  ghost function Candidates(f: Finder, text: string, urls: seq<Match>, handles: seq<Match>, tags: seq<Match>): seq<Span>
    requires Pattern(text, urls) && Pattern(text, handles) && Pattern(text, tags)
  {
    Urls(text, urls) + (Mentions(f, text, handles) + Tags(f, text, tags))
  }

  /** Every candidate begins with the head of its match. */
  lemma CandidateHeads(f: Finder, text: string, urls: seq<Match>, handles: seq<Match>, tags: seq<Match>, s: Span)
    requires Pattern(text, urls) && Pattern(text, handles) && Pattern(text, tags)
    requires s in Candidates(f, text, urls, handles, tags)
    ensures s.start < |text| && Head(text[s.start])
  {
    if s in Urls(text, urls) {
      UrlHead(text, urls, s);
    } else if s in Mentions(f, text, handles) {
      MentionHead(f, text, handles, s);
    } else {
      TagHead(f, text, tags, s);
    }
  }

  lemma UrlHead(text: string, ms: seq<Match>, s: Span)
    requires Pattern(text, ms) && s in Urls(text, ms)
    ensures s.start < |text| && Head(text[s.start])
  {}

  lemma MentionHead(f: Finder, text: string, ms: seq<Match>, s: Span)
    requires Pattern(text, ms) && s in Mentions(f, text, ms)
    ensures s.start < |text| && Head(text[s.start])
  {}

  lemma TagHead(f: Finder, text: string, ms: seq<Match>, s: Span)
    requires Pattern(text, ms) && s in Tags(f, text, ms)
    ensures s.start < |text| && Head(text[s.start])
  {}

  lemma GreedyStep(text: string, spans: seq<Span>, all: seq<Span>, c: Span, rest: seq<Span>)
    requires all == [c] + rest
    ensures Greedy(text, spans, all)
         == Greedy(text, if Inside(text, c) && Free(spans, c) then spans + [c] else spans, rest)
  {
    assert all[1..] == rest;
  }

  ghost predicate ByStart(spans: seq<Span>) { forall i, j :: 0 <= i < j < |spans| ==> spans[i].start <= spans[j].start }

  /** Sorted spans that do not overlap are in order in the sense of the caption printer. */
  lemma {:induction false} InOrder(text: string, spans: seq<Span>, from: nat)
    requires ByStart(spans) && Apart(text, spans) && (spans != [] ==> from <= spans[0].start)
    ensures Ordered(spans, from, |text|)
    decreases |spans|
  {
    if spans != [] {
      assert |spans| > 1 ==> !Overlaps(spans[0], spans[1]) && Inside(text, spans[1]);
      InOrder(text, spans[1..], spans[0].end);
    }
  }

  ghost predicate SameSpans(a: seq<Span>, b: seq<Span>) { |a| == |b| && forall s :: s in a <==> s in b }

  /** `sort.Slice` by start. */
  method SortByStart(text: string, spans: seq<Span>) returns (sorted: seq<Span>)
    requires Apart(text, spans)
    ensures SameSpans(sorted, spans) && Apart(text, sorted) && Ordered(sorted, 0, |text|)
  {
    sorted := [];
    for i := 0 to |spans|
      invariant ByStart(sorted) && Apart(text, sorted) && SameSpans(sorted, spans[..i])
    {
      var s, k := spans[i], |sorted|;
      while k > 0 && sorted[k - 1].start > s.start
        invariant 0 <= k <= |sorted| && forall j :: k <= j < |sorted| ==> sorted[j].start > s.start
      {
        k := k - 1;
      }
      assert Free(sorted, s) by {
        forall t | t in sorted ensures !Overlaps(s, t) {
          assert t in spans[..i];
        }
      }
      Inserted(text, sorted, k, s);
      sorted := sorted[..k] + [s] + sorted[k..];
      assert spans[..i + 1] == spans[..i] + [s];
    }
    assert spans[..|spans|] == spans;
    InOrder(text, sorted, 0);
  }

  ghost predicate Insertion(sorted: seq<Span>, k: nat, s: Span, out: seq<Span>) {
    && |out| == |sorted| + 1 && k <= |sorted| && out[k] == s
    && (forall i :: 0 <= i < k ==> out[i] == sorted[i])
    && forall i {:trigger out[i]} :: k < i < |out| ==> out[i] == sorted[i - 1]
  }

  lemma Inserted(text: string, sorted: seq<Span>, k: nat, s: Span)
    requires ByStart(sorted) && Apart(text, sorted) && k <= |sorted| && Inside(text, s) && Free(sorted, s)
    requires (forall j :: k <= j < |sorted| ==> sorted[j].start > s.start) && (k > 0 ==> sorted[k - 1].start <= s.start)
    ensures var out := sorted[..k] + [s] + sorted[k..];
            ByStart(out) && Apart(text, out) && forall t :: t in out <==> t in sorted || t == s
  {
    hide Apart, Inside, Free;
    var out := sorted[..k] + [s] + sorted[k..];
    assert Insertion(sorted, k, s, out);
    InsertedApart(text, sorted, k, s, out);
    InsertedMembers(sorted, k, s, out);
  }

  lemma InsertedApart(text: string, sorted: seq<Span>, k: nat, s: Span, out: seq<Span>)
    requires Insertion(sorted, k, s, out) && Apart(text, sorted) && Inside(text, s) && Free(sorted, s)
    ensures Apart(text, out)
  {
    hide Overlaps, Inside;
    forall i | 0 <= i < |sorted| ensures !Overlaps(s, sorted[i]) && !Overlaps(sorted[i], s) {
      assert sorted[i] in sorted;
      Symmetric(s, sorted[i]);
    }
  }

  lemma Symmetric(s: Span, t: Span)
    ensures Overlaps(s, t) == Overlaps(t, s)
  {}

  lemma InsertedMembers(sorted: seq<Span>, k: nat, s: Span, out: seq<Span>)
    requires Insertion(sorted, k, s, out)
    ensures forall t :: t in out <==> t in sorted || t == s
  {
    forall t | t in sorted ensures t in out {
      var i :| 0 <= i < |sorted| && sorted[i] == t;
      assert out[if i < k then i else i + 1] == t;
    }
  }

  lemma NextUrl(text: string, ms: seq<Match>, i: nat, spans: seq<Span>, rest: seq<Span>)
    requires Pattern(text, ms) && i < |ms|
    ensures Pattern(text, ms[i..]) && Pattern(text, ms[i + 1..])
    ensures var url := Trimmed(text[ms[i].start..ms[i].end]);
            var s := Span(ms[i].start, ms[i].start + |url|, url);
            Greedy(text, spans, Urls(text, ms[i..]) + rest)
            == Greedy(text, if Inside(text, s) && Free(spans, s) then spans + [s] else spans,
                      Urls(text, ms[i + 1..]) + rest)
  {
    hide Trimmed, Greedy, Inside, Free, Head;
    var left := ms[i..];
    assert left[1..] == ms[i + 1..] && left[0] == ms[i];
    var url := Trimmed(text[ms[i].start..ms[i].end]);
    var s := Span(ms[i].start, ms[i].start + |url|, url);
    assert Urls(text, left) == [s] + Urls(text, ms[i + 1..]);
    hide Urls, Found, Pattern;
    Assoc([s], Urls(text, ms[i + 1..]), rest);
    GreedyStep(text, spans, Urls(text, left) + rest, s, Urls(text, ms[i + 1..]) + rest);
  }

  method AddUrls(text: string, ms: seq<Match>, occupied: array<bool>, ghost rest: seq<Span>) returns (spans: seq<Span>)
    requires Pattern(text, ms) && occupied.Length == |text| && Marks(occupied[..], [])
    modifies occupied
    ensures Marks(occupied[..], spans) && (forall t :: t in spans ==> Inside(text, t))
    ensures Greedy(text, [], Urls(text, ms) + rest) == Greedy(text, spans, rest)
  {
    hide Trimmed, Urls, Greedy, Covered, Overlaps;
    spans := [];
    assert ms[0..] == ms;
    for i := 0 to |ms|
      invariant Marks(occupied[..], spans) && (forall t :: t in spans ==> Inside(text, t)) && Pattern(text, ms[i..])
      invariant Greedy(text, [], Urls(text, ms) + rest) == Greedy(text, spans, Urls(text, ms[i..]) + rest)
    {
      var m := ms[i];
      NextUrl(text, ms, i, spans, rest);
      var end := TrimUrlEnd(text, m.start, m.end);
      assert |Trimmed(text[m.start..m.end])| == end - m.start;
      spans := Add(text, occupied, spans, Span(m.start, end, text[m.start..end]));
    }
    assert ms[|ms|..] == [];
    NoUrls(text, rest);
  }

  lemma NoUrls(text: string, rest: seq<Span>)
    ensures Pattern(text, []) && Urls(text, []) + rest == rest
  {}

  lemma NextMention(f: Finder, text: string, ms: seq<Match>, i: nat, spans: seq<Span>, rest: seq<Span>)
    requires Pattern(text, ms) && i < |ms|
    ensures Pattern(text, ms[i..]) && Pattern(text, ms[i + 1..])
    ensures var name := text[ms[i].start + 1..ms[i].end];
            var s := Span(ms[i].start, ms[i].end, f.profile(name));
            Greedy(text, spans, Mentions(f, text, ms[i..]) + rest)
            == Greedy(text, if Handle(f, name) && Inside(text, s) && Free(spans, s) then spans + [s] else spans,
                      Mentions(f, text, ms[i + 1..]) + rest)
  {
    hide Greedy, Inside, Free, Handle;
    var left := ms[i..];
    assert left[1..] == ms[i + 1..] && left[0] == ms[i];
    var name := text[ms[i].start + 1..ms[i].end];
    var s := Span(ms[i].start, ms[i].end, f.profile(name));
    var next := Mentions(f, text, ms[i + 1..]);
    if Handle(f, name) {
      assert Mentions(f, text, left) + rest == [s] + (next + rest);
      GreedyStep(text, spans, Mentions(f, text, left) + rest, s, next + rest);
    } else {
      assert Mentions(f, text, left) == [] + next == next;
    }
  }

  method AddMentions(
      f: Finder, text: string, ms: seq<Match>, occupied: array<bool>, found: seq<Span>, ghost rest: seq<Span>)
    returns (spans: seq<Span>)
    requires Pattern(text, ms) && occupied.Length == |text| && Marks(occupied[..], found)
    requires forall t :: t in found ==> Inside(text, t)
    modifies occupied
    ensures Marks(occupied[..], spans) && (forall t :: t in spans ==> Inside(text, t))
    ensures Greedy(text, found, Mentions(f, text, ms) + rest) == Greedy(text, spans, rest)
  {
    hide Mentions, Greedy, Covered, Overlaps, Contains;
    spans := found;
    assert ms[0..] == ms;
    for i := 0 to |ms|
      invariant Marks(occupied[..], spans) && (forall t :: t in spans ==> Inside(text, t)) && Pattern(text, ms[i..])
      invariant Greedy(text, found, Mentions(f, text, ms) + rest)
             == Greedy(text, spans, Mentions(f, text, ms[i..]) + rest)
    {
      var m := ms[i];
      NextMention(f, text, ms, i, spans, rest);
      var name := text[m.start + 1..m.end];
      if f.username(name) && !Contains(name, "..") {
        spans := Add(text, occupied, spans, Span(m.start, m.end, f.profile(name)));
      }
    }
    assert ms[|ms|..] == [];
    NoMentions(f, text, rest);
  }

  lemma NoMentions(f: Finder, text: string, rest: seq<Span>)
    ensures Pattern(text, []) && Mentions(f, text, []) + rest == rest
  {}

  lemma NextTag(f: Finder, text: string, ms: seq<Match>, i: nat, spans: seq<Span>)
    requires Pattern(text, ms) && i < |ms|
    ensures Pattern(text, ms[i..]) && Pattern(text, ms[i + 1..])
    ensures var s := Span(ms[i].start, ms[i].end, f.search(text[ms[i].start + 1..ms[i].end]));
            Greedy(text, spans, Tags(f, text, ms[i..]))
            == Greedy(text, if Inside(text, s) && Free(spans, s) then spans + [s] else spans,
                      Tags(f, text, ms[i + 1..]))
  {
    hide Greedy, Inside, Free;
    var left := ms[i..];
    assert left[1..] == ms[i + 1..] && left[0] == ms[i];
    var s := Span(ms[i].start, ms[i].end, f.search(text[ms[i].start + 1..ms[i].end]));
    GreedyStep(text, spans, Tags(f, text, left), s, Tags(f, text, ms[i + 1..]));
  }

  method AddTags(f: Finder, text: string, ms: seq<Match>, occupied: array<bool>, found: seq<Span>)
    returns (spans: seq<Span>)
    requires Pattern(text, ms) && occupied.Length == |text| && Marks(occupied[..], found)
    requires forall t :: t in found ==> Inside(text, t)
    modifies occupied
    ensures Marks(occupied[..], spans) && spans == Greedy(text, found, Tags(f, text, ms))
  {
    hide Tags, Greedy, Covered, Overlaps;
    spans := found;
    assert ms[0..] == ms;
    for i := 0 to |ms|
      invariant Marks(occupied[..], spans) && (forall t :: t in spans ==> Inside(text, t)) && Pattern(text, ms[i..])
      invariant Greedy(text, found, Tags(f, text, ms)) == Greedy(text, spans, Tags(f, text, ms[i..]))
    {
      var m := ms[i];
      NextTag(f, text, ms, i, spans);
      spans := Add(text, occupied, spans, Span(m.start, m.end, f.search(text[m.start + 1..m.end])));
    }
    assert ms[|ms|..] == [];
    NoTags(f, text, spans);
  }

  lemma NoTags(f: Finder, text: string, spans: seq<Span>)
    ensures Pattern(text, []) && Greedy(text, spans, Tags(f, text, [])) == spans
  {}

  /** `out` are the matches of a sigil that count. */
  ghost predicate Standing(f: Finder, text: string, ms: seq<Match>, out: seq<Match>) {
    && Pattern(text, out)
    && forall m :: m in out <==> exists i :: 0 <= i < |ms| && ms[i] == m && Counts(f.word, text, ms, i)
  }

  /** `spans` are the links of a text: of the URLs, the handles that count and the tags that count
      the greedy choice, in order. */
  ghost predicate Detection(
      f: Finder, text: string, urls: seq<Match>, handles: seq<Match>, tags: seq<Match>, spans: seq<Span>)
  {
    && Ordered(spans, 0, |text|) && Pattern(text, urls)
    && exists ats, hashes :: Standing(f, text, handles, ats) && Standing(f, text, tags, hashes)
                             && SameSpans(spans, Greedy(text, [], Candidates(f, text, urls, ats, hashes)))
  }

  /** `detectLinks`. */
  method DetectLinks(f: Finder, text: string, urls: seq<Match>, handles: seq<Match>, tags: seq<Match>)
    returns (spans: seq<Span>, occupied: array<bool>)
    requires Pattern(text, urls) && Pattern(text, handles) && Pattern(text, tags)
    ensures Detection(f, text, urls, handles, tags, spans) && Detected(text, spans)
    ensures occupied.Length == |text| && Marks(occupied[..], spans)
  {
    hide Found, Counts, Urls, Mentions, Tags, Covered, Overlaps, Greedy, Head, Apart;
    var ats := ScanSigil(f.word, text, handles);
    var hashes := ScanSigil(f.word, text, tags);
    Scanned(f.word, text, handles, ats);
    Scanned(f.word, text, tags, hashes);
    assert Standing(f, text, handles, ats) && Standing(f, text, tags, hashes);
    occupied := new bool[|text|](_ => false);
    NoneTaken(occupied[..]);
    var found := AddUrls(text, urls, occupied, Mentions(f, text, ats) + Tags(f, text, hashes));
    found := AddMentions(f, text, ats, occupied, found, Tags(f, text, hashes));
    found := AddTags(f, text, hashes, occupied, found);
    Chosen(f, text, urls, ats, hashes);
    spans := SortByStart(text, found);
    SameMarks(text, occupied[..], found, spans);
  }

  lemma NoneTaken(occupied: seq<bool>)
    requires forall i :: 0 <= i < |occupied| ==> !occupied[i]
    ensures Marks(occupied, [])
  {}

  lemma Scanned(word: char -> bool, text: string, ms: seq<Match>, out: seq<Match>)
    requires Pattern(text, ms) && Found(text, out)
    requires forall m :: m in out <==> exists i :: 0 <= i < |ms| && ms[i] == m && Counts(word, text, ms, i)
    ensures Pattern(text, out)
  {
    hide Counts;
    forall i | 0 <= i < |out| ensures Head(text[out[i].start]) {
      assert out[i] in out;
    }
  }

  lemma Chosen(f: Finder, text: string, urls: seq<Match>, ats: seq<Match>, hashes: seq<Match>)
    requires Pattern(text, urls) && Pattern(text, ats) && Pattern(text, hashes)
    ensures var found := Greedy(text, [], Candidates(f, text, urls, ats, hashes));
            Apart(text, found) && forall s :: s in found ==> Inside(text, s) && Head(text[s.start])
  {
    hide Candidates, Head, Pattern, Overlaps;
    var all := Candidates(f, text, urls, ats, hashes);
    GreedyChoice(text, [], all);
    var found := Greedy(text, [], all);
    forall s | s in found ensures Inside(text, s) && Head(text[s.start]) {
      CandidateHeads(f, text, urls, ats, hashes, s);
      var i :| 0 <= i < |found| && found[i] == s;
    }
  }

  lemma SameMarks(text: string, occupied: seq<bool>, found: seq<Span>, spans: seq<Span>)
    requires SameSpans(spans, found) && Marks(occupied, found)
    requires forall s :: s in found ==> Inside(text, s) && Head(text[s.start])
    ensures Marks(occupied, spans) && Detected(text, spans)
  {
    forall i ensures Covered(found, i) == Covered(spans, i) {
      if s :| s in found && s.start <= i < s.end {
        assert s in spans;
      }
    }
    forall s | s in spans ensures Fresh(text[s.start..s.end]) {
      assert text[s.start..s.end][0] == text[s.start];
    }
  }

  // ---------- URLs come first ----------

  lemma UrlAt(text: string, ms: seq<Match>, i: nat)
    requires Pattern(text, ms) && i < |ms|
    ensures |Urls(text, ms)| == |ms|
    ensures var url := Trimmed(text[ms[i].start..ms[i].end]);
            url != "" && Urls(text, ms)[i] == Span(ms[i].start, ms[i].start + |url|, url)
    decreases |ms|
  {
    hide Trimmed, Head, CleanEnd;
    HeadStays(text, ms[0]);
    if i > 0 {
      UrlAt(text, ms[1..], i - 1);
    } else if |ms| > 1 {
      UrlAt(text, ms[1..], 0);
    }
  }

  /** Trimming never reaches the head of a URL. */
  lemma HeadStays(text: string, m: Match)
    requires m.start < m.end <= |text| && Head(text[m.start])
    ensures Trimmed(text[m.start..m.end]) != "" && |Trimmed(text[m.start..m.end])| <= m.end - m.start
  {
    hide Trimmed, Occurs;
    var t := text[m.start..m.end];
    assert t[..1] == [text[m.start]];
    assert CleanEnd(t[..1]);
    TrimmedIsLongest(t, 1);
  }

  lemma UrlWithin(text: string, ms: seq<Match>, j: nat)
    requires Pattern(text, ms) && j < |ms|
    ensures |Urls(text, ms)| == |ms|
    ensures var url := Urls(text, ms)[j]; Inside(text, url) && url.start == ms[j].start && url.end <= ms[j].end
  {
    hide Trimmed, Head, Urls, CleanEnd;
    UrlAt(text, ms, j);
    HeadStays(text, ms[j]);
  }

  lemma UrlsApart(text: string, ms: seq<Match>)
    requires Pattern(text, ms)
    ensures |Urls(text, ms)| == |ms| && Apart(text, Urls(text, ms))
  {
    hide Urls, Inside, Head, Apart, Found;
    if ms == [] {
      NoUrls(text, []);
      assert Urls(text, ms) + [] == Urls(text, ms);
    } else {
      UrlWithin(text, ms, 0);
    }
    forall j: nat | j < |ms|
      ensures var url := Urls(text, ms)[j]; Inside(text, url) && url.start == ms[j].start && url.end <= ms[j].end
    {
      UrlWithin(text, ms, j);
    }
    WithinApart(text, ms, Urls(text, ms));
  }

  lemma WithinApart(text: string, ms: seq<Match>, spans: seq<Span>)
    requires Found(text, ms) && |spans| == |ms|
    requires forall j :: 0 <= j < |ms| ==>
      Inside(text, spans[j]) && spans[j].start == ms[j].start && spans[j].end <= ms[j].end
    ensures Apart(text, spans)
  {
    hide Inside;
  }

  /** No URL gives way to a handle or a tag. */
  lemma UrlsAllTaken(f: Finder, text: string, urls: seq<Match>, ats: seq<Match>, hashes: seq<Match>, i: nat)
    requires Pattern(text, urls) && Pattern(text, ats) && Pattern(text, hashes) && i < |urls|
    ensures |Urls(text, urls)| == |urls|
    ensures Urls(text, urls)[i] in Greedy(text, [], Candidates(f, text, urls, ats, hashes))
  {
    hide Pattern, Urls, Greedy, Apart, Mentions, Tags;
    var first := Urls(text, urls);
    var rest := Mentions(f, text, ats) + Tags(f, text, hashes);
    UrlsApart(text, urls);
    assert [] + first == first;
    FirstComeAll(text, [], first, rest);
    GreedyChoice(text, first, rest);
    var all := Greedy(text, first, rest);
    assert all[i] == first[i];
  }
}
