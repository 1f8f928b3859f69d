/** The post verdict machine of server/app.go: `hiddenPost` and the part of `fetchPost` around it.

    `select` is a nondeterministic choice among what may have arrived, so a contract below holds for
    every order of arrival. */
module Verdict {
  import opened Prelude
  import opened Errors
  import Flight

  /** A post: whether it is only part of one, and how long its URLs allow caching it. */
  datatype Post = Post(id: string, partial: bool, ttl: int)

  datatype Answer = Found(post: Post) | Failed(error: AppError)

  /** oEmbed's JSON; `post` is what `parseOembedPost` makes of it. */
  datatype OembedBody = OembedBody(post: Option<Post>, failed: bool, message: string, title: string, gating: int)
  datatype Oembed = Oembed(ok: bool, status: int, body: Option<OembedBody>)

  /** `oembedVerdict`: a card, or the error `base` refined by Instagram's own reason. */
  function OembedVerdict(o: Oembed, base: AppError): (Option<Post>, AppError) {
    if !o.ok || o.body.None? then (None, base)
    else
      var b := o.body.value;
      if 200 <= o.status < 300 && b.post.Some? then (b.post, base)
      else if !b.failed then (None, base)
      else
        var geo := b.message == "geoblock_required";
        var e := if !geo then base
                 else if b.gating == 2 then base.(code := GeoBlocked, status := 451, ephemeral := false, final := false)
                 else base.(code := Restricted, status := 403, ephemeral := false, final := false);
        (None, if b.message != "" && b.title != "" then e.(card := b.title) else e)
  }

  /** `helperAsked`: the helper reached Instagram and found no post. */
  predicate HelperAsked(e: AppError) { !e.ephemeral && !e.code.Connection? && !e.code.RateLimited? }

  const BASE := AppError(502, GraphQL)
  const MISSING := AppError(404, MediaNotFound)

  datatype Outcome = Outcome(answer: Answer, ttl: int, persist: bool)

  /** The world as `hiddenPost` may find it: what each source would answer. */
  datatype Sources = Sources(
    oembed: Oembed, og: Option<Post>, dc: Option<Post>, missing: bool, helper: Answer,
    v6: bool, registered: bool)

  function Card(s: Sources): Option<Post> { OembedVerdict(s.oembed, BASE).0 }

  function Gate(s: Sources): Option<AppError> {
    var (card, e) := OembedVerdict(s.oembed, BASE);
    if card.None? && e.card != "" then Some(e) else None
  }

  /** The gating type, which decides the follow-ups of a gate. */
  function Gating(s: Sources): int {
    if s.oembed.body.Some? then s.oembed.body.value.gating else 0
  }

  predicate AsksOG(s: Sources) { Gate(s).Some? && (Gating(s) == 2 || Gating(s) == 3) }
  predicate AsksDC(s: Sources) { s.v6 && (Card(s).Some? || (Gate(s).Some? && Gating(s) == 2)) }
  predicate AsksRuling(s: Sources) { Card(s).None? && Gate(s).None? && s.oembed.ok && s.oembed.status == 404 }

  /** `gateOrRetry`; `asked` tells that the helper finished and reached Instagram. */
  function GateOrRetry(e: AppError, registered: bool, asked: bool): AppError {
    if registered && !asked && (e.code.Restricted? || e.code.GeoBlocked?) then e.(code := Upstream) else e
  }

  /** `answer`: what is said when no source has a whole post. */
  function Verdict(
      partial: Option<Post>, gate: Option<AppError>, status: int, helperErr: AppError,
      registered: bool, asked: bool): Outcome
  {
    if partial.Some? then
      var ttl := Min(partial.value.ttl, PERMANENT_SECONDS);
      var short := (partial.value.partial && !HelperAsked(helperErr)) || status == 200;
      Outcome(Found(partial.value), if short then Min(ttl, TRANSIENT_SECONDS) else ttl, false)
    else if gate.Some? then Outcome(Failed(GateOrRetry(gate.value, registered, asked)), 0, false)
    else if status == 404 && helperErr.status == 404 then Outcome(Failed(MISSING), 0, false)
    else Outcome(Failed(BASE), 0, false)
  }

  /** How `hiddenPost` came to its outcome. */
  datatype Ending = HelperPost | DcPost | RuledMissing | AllAnswered | CutShort

  /** What the loop holds; `awaited*` are answers still to come. */
  datatype Board = Board(
    partial: Option<Post>, gate: Option<AppError>, status: int, helperErr: Option<AppError>,
    awaitedOembed: bool, awaitedOG: bool, awaitedDC: bool, awaitedRuling: bool, pending: int)

  const OPENING := Board(None, None, 0, None, true, false, false, false, 1)

  function Count(b: bool): int { if b then 1 else 0 }

  /** What the board says at every turn of the loop. */
  ghost predicate Accurate(s: Sources, b: Board) {
    && b.pending == Count(b.awaitedOembed) + Count(b.awaitedOG) + Count(b.awaitedDC) + Count(b.awaitedRuling)
    && (b.helperErr.Some? ==> s.helper == Failed(b.helperErr.value))
    && (if b.awaitedOembed then
          b.partial.None? && b.gate.None? && b.status == 0 && !b.awaitedOG && !b.awaitedDC && !b.awaitedRuling
        else
          && b.status == s.oembed.status && b.gate == Gate(s)
          && (b.awaitedOG ==> AsksOG(s)) && (b.awaitedDC ==> AsksDC(s)) && (b.awaitedRuling ==> AsksRuling(s))
          && (AsksDC(s) && !b.awaitedDC ==> s.dc.None?) && (AsksRuling(s) && !b.awaitedRuling ==> !s.missing)
          && b.partial == if AsksOG(s) then (if b.awaitedOG then None else s.og) else Card(s))
  }

  /** How often goroutines were started that send on the og, dc and ruling channels. */
  ghost predicate SentOnce(s: Sources, b: Board, sends: seq<int>) {
    sends == if b.awaitedOembed then [0, 0, 0] else [Count(AsksOG(s)), Count(AsksDC(s)), Count(AsksRuling(s))]
  }

  lemma GateCode(s: Sources)
    ensures Gate(s).Some? ==> Gate(s).value.code != MediaNotFound
  {}

  lemma AsksApart(s: Sources)
    ensures AsksOG(s) ==> Gate(s).Some? && Card(s).None?
    ensures AsksRuling(s) ==> Gate(s).None? && Card(s).None? && !AsksOG(s) && !AsksDC(s) && s.oembed.status == 404
  {}

  // ---------- One turn of the loop ----------

  datatype Arrival = ByHelper | ByOembed | ByOG | ByDC | ByRuling

  predicate Awaits(b: Board, a: Arrival) {
    match a
    case ByHelper => b.helperErr.None?
    case ByOembed => b.awaitedOembed
    case ByOG => b.awaitedOG
    case ByDC => b.awaitedDC
    case ByRuling => b.awaitedRuling
  }

  /** Nothing is left to wait for. */
  predicate Over(b: Board) { b.helperErr.Some? && b.pending == 0 }

  datatype Turned = Going(board: Board) | Ended(outcome: Outcome, ending: Ending)

  /** A post as its source gave it, kept as long as its URLs allow. */
  function Whole(post: Post): Outcome { Outcome(Found(post), post.ttl, true) }

  const GONE := Outcome(Failed(MISSING), 0, false)

  function HeardOembed(s: Sources, b: Board): Board {
    Board(Card(s), Gate(s), s.oembed.status, b.helperErr, false, AsksOG(s), AsksDC(s), AsksRuling(s),
          b.pending - 1 + Count(AsksOG(s)) + Count(AsksDC(s)) + Count(AsksRuling(s)))
  }

  /** One case of the loop's `select`. */
  function Hear(s: Sources, b: Board, a: Arrival): Turned {
    match a
    case ByHelper =>
      if s.helper.Found? then Ended(Whole(s.helper.post), HelperPost)
      else Going(b.(helperErr := Some(s.helper.error)))
    case ByOembed => Going(HeardOembed(s, b))
    case ByOG =>
      Going(b.(pending := b.pending - 1, awaitedOG := false, partial := if s.og.Some? then s.og else b.partial))
    case ByDC =>
      if s.dc.Some? then Ended(Whole(s.dc.value), DcPost)
      else Going(b.(pending := b.pending - 1, awaitedDC := false))
    case ByRuling =>
      if s.missing then Ended(GONE, RuledMissing) else Going(b.(pending := b.pending - 1, awaitedRuling := false))
  }

  lemma HearAccurate(s: Sources, b: Board, a: Arrival)
    requires Accurate(s, b) && Awaits(b, a) && Hear(s, b, a).Going?
    ensures Accurate(s, Hear(s, b, a).board)
  {
    hide OembedVerdict, Gating, Card, Gate, AsksOG, AsksDC, AsksRuling;
    AsksApart(s);
  }

  // ---------- Orders of arrival ----------

  /** The board after answers arrived in this order, if the loop is then still going. */
  function After(s: Sources, order: seq<Arrival>): Option<Board> {
    if order == [] then Some(OPENING)
    else
      match After(s, order[..|order| - 1])
      case None => None
      case Some(b) =>
        var a := order[|order| - 1];
        if Over(b) || !Awaits(b, a) then None
        else match Hear(s, b, a) case Going(c) => Some(c) case Ended(_, _) => None
  }

  /** What a board on which nothing is awaited any more comes to. */
  function Answered(s: Sources, b: Board): Outcome
    requires b.helperErr.Some?
  {
    Verdict(b.partial, b.gate, b.status, b.helperErr.value, s.registered, HelperAsked(b.helperErr.value))
  }

  /** The outcome of an order of arrival that ends the loop before its context does. */
  function Final(s: Sources, order: seq<Arrival>): Option<Outcome> {
    match After(s, order)
    case Some(b) => if Over(b) then Some(Answered(s, b)) else None
    case None =>
      assert order != [];
      match After(s, order[..|order| - 1])
      case None => None
      case Some(b) =>
        var a := order[|order| - 1];
        if Over(b) || !Awaits(b, a) then None
        else match Hear(s, b, a) case Going(_) => None case Ended(outcome, _) => Some(outcome)
  }

  lemma {:induction false} AfterAccurate(s: Sources, order: seq<Arrival>)
    ensures After(s, order).Some? ==> Accurate(s, After(s, order).value)
    decreases |order|
  {
    hide Accurate, Hear;
    if order == [] {
      OpeningAccurate(s);
    } else {
      var front, a := order[..|order| - 1], order[|order| - 1];
      AfterAccurate(s, front);
      if After(s, order).Some? {
        HearAccurate(s, After(s, front).value, a);
      }
    }
  }

  lemma OpeningAccurate(s: Sources)
    ensures Accurate(s, OPENING) && SentOnce(s, OPENING, [0, 0, 0])
  {}

  lemma Arrives(s: Sources, order: seq<Arrival>, b: Board, a: Arrival)
    requires After(s, order) == Some(b) && !Over(b) && Awaits(b, a)
    ensures After(s, order + [a]) == if Hear(s, b, a).Going? then Some(Hear(s, b, a).board) else None
    ensures Hear(s, b, a).Ended? ==> Final(s, order + [a]) == Some(Hear(s, b, a).outcome)
  {
    hide Hear;
    assert (order + [a])[..|order|] == order;
  }

  predicate HelperPossible(s: Sources, o: Outcome) { s.helper.Found? && o == Whole(s.helper.post) }

  predicate DcPossible(s: Sources, o: Outcome) { AsksDC(s) && s.dc.Some? && o == Whole(s.dc.value) }

  predicate GonePossible(s: Sources, o: Outcome) { AsksRuling(s) && s.missing && o == GONE }

  /** What is said when every source has answered and none with a whole post. */
  predicate AnsweredPossible(s: Sources, o: Outcome) {
    && s.helper.Failed? && (AsksDC(s) ==> s.dc.None?) && (AsksRuling(s) ==> !s.missing)
    && o == Verdict(if AsksOG(s) then s.og else Card(s), Gate(s), s.oembed.status, s.helper.error,
                    s.registered, HelperAsked(s.helper.error))
  }

  predicate Possible(s: Sources, o: Outcome) {
    HelperPossible(s, o) || DcPossible(s, o) || GonePossible(s, o) || AnsweredPossible(s, o)
  }

  lemma EndsPossible(s: Sources, b: Board, a: Arrival)
    requires Accurate(s, b) && Awaits(b, a) && Hear(s, b, a).Ended?
    ensures Possible(s, Hear(s, b, a).outcome)
  {
    hide OembedVerdict, Gating, Card, Gate, AsksOG, AsksDC, AsksRuling;
  }

  lemma OverPossible(s: Sources, b: Board)
    requires Accurate(s, b) && Over(b)
    ensures AnsweredPossible(s, Answered(s, b))
  {
    hide OembedVerdict, Gating, Card, Gate, AsksOG, AsksDC, AsksRuling, Verdict;
  }

  /** Every order of arrival ends in a possible outcome. */
  lemma FinalPossible(s: Sources, order: seq<Arrival>)
    requires Final(s, order).Some?
    ensures Possible(s, Final(s, order).value)
  {
    hide Accurate, Hear, Possible, AnsweredPossible, Answered;
    AfterAccurate(s, order);
    match After(s, order)
    case Some(b) =>
      OverPossible(s, b);
      AnsweredIsPossible(s, Answered(s, b));
    case None =>
      var front := order[..|order| - 1];
      AfterAccurate(s, front);
      EndsPossible(s, After(s, front).value, order[|order| - 1]);
  }

  lemma AnsweredIsPossible(s: Sources, o: Outcome)
    requires AnsweredPossible(s, o)
    ensures Possible(s, o)
  {}

  /** The answer `a`, if it is awaited, after those of `order`. */
  lemma HearIfAwaited(s: Sources, order: seq<Arrival>, b: Board, a: Arrival) returns (longer: seq<Arrival>, c: Board)
    requires After(s, order) == Some(b) && !Over(b) && Accurate(s, b) && (Awaits(b, a) ==> Hear(s, b, a).Going?)
    ensures After(s, longer) == Some(c) && Accurate(s, c)
    ensures c == if Awaits(b, a) then Hear(s, b, a).board else b
  {
    hide Accurate, Hear;
    longer, c := order, b;
    if Awaits(b, a) {
      Arrives(s, order, b, a);
      HearAccurate(s, b, a);
      longer, c := order + [a], Hear(s, b, a).board;
    }
  }

  /** Every possible outcome is that of some order of arrival. */
  lemma PossibleArises(s: Sources, o: Outcome) returns (order: seq<Arrival>)
    requires Possible(s, o)
    ensures Final(s, order) == Some(o)
  {
    hide OembedVerdict, Gating, Card, Gate, AsksOG, AsksDC, AsksRuling, Verdict, Final;
    if HelperPossible(s, o) {
      Arrives(s, [], OPENING, ByHelper);
      order := [] + [ByHelper];
    } else {
      OpeningAccurate(s);
      var heard, b := HearIfAwaited(s, [], OPENING, ByOembed);
      if DcPossible(s, o) {
        Arrives(s, heard, b, ByDC);
        order := heard + [ByDC];
      } else if GonePossible(s, o) {
        Arrives(s, heard, b, ByRuling);
        order := heard + [ByRuling];
      } else {
        order := AllArrive(s, o, heard, b);
      }
    }
  }

  lemma AllArrive(s: Sources, o: Outcome, heard: seq<Arrival>, b: Board) returns (order: seq<Arrival>)
    requires AnsweredPossible(s, o) && After(s, heard) == Some(b) && Accurate(s, b)
    requires !b.awaitedOembed && b.helperErr.None?
    ensures Final(s, order) == Some(o)
  {
    hide OembedVerdict, Gating, Card, Gate, AsksOG, AsksDC, AsksRuling, Verdict, After;
    var c, d, e, f;
    order, c := HearIfAwaited(s, heard, b, ByOG);
    order, d := HearIfAwaited(s, order, c, ByDC);
    order, e := HearIfAwaited(s, order, d, ByRuling);
    order, f := HearIfAwaited(s, order, e, ByHelper);
    OverPossible(s, f);
  }

  /** Two sources that each settle the matter, and differently. */
  predicate Compete(s: Sources) {
    s.helper.Found? && ((AsksDC(s) && s.dc.Some? && s.dc.value != s.helper.post) || (AsksRuling(s) && s.missing))
  }

  /** Short of the deadline the order of arrival decides exactly when the helper has a post and the
      dc proxy has another, or the ruling says there is none. */
  lemma OrderMattersIff(s: Sources)
    ensures (exists order, other ::
               Final(s, order).Some? && Final(s, other).Some? && Final(s, order) != Final(s, other))
       <==> Compete(s)
  {
    hide Final, OembedVerdict, Gating, Card, Gate, AsksOG, AsksDC, AsksRuling, Verdict;
    AsksApart(s);
    if Compete(s) {
      var order := PossibleArises(s, Whole(s.helper.post));
      var other := PossibleArises(s, if AsksDC(s) && s.dc.Some? then Whole(s.dc.value) else GONE);
      assert Final(s, order) != Final(s, other);
    }
    if order, other :| Final(s, order).Some? && Final(s, other).Some? && Final(s, order) != Final(s, other) {
      FinalPossible(s, order);
      FinalPossible(s, other);
    }
  }

  // ---------- What the answers mean ----------

  /** Instagram's card: oEmbed came through with a post in it. */
  predicate HasCard(s: Sources, p: Post) {
    s.oembed.ok && s.oembed.body.Some? && 200 <= s.oembed.status < 300 && s.oembed.body.value.post == Some(p)
  }

  /** oEmbed came through without a card and calls itself failed. */
  predicate Refused(o: Oembed) {
    o.ok && o.body.Some? && o.body.value.failed && !(200 <= o.status < 300 && o.body.value.post.Some?)
  }

  /** Instagram shows a notice instead of the post. */
  predicate Gated(o: Oembed) { Refused(o) && o.body.value.message != "" && o.body.value.title != "" }

  predicate Geoblocked(o: Oembed) { Refused(o) && o.body.value.message == "geoblock_required" }

  /** `e` is `base` with Instagram's own reason, if it gives one, and the title of its notice. */
  predicate Refined(o: Oembed, base: AppError, e: AppError) {
    && (Geoblocked(o) && o.body.value.gating == 2 ==> e.status == 451 && e.code == GeoBlocked)
    && (Geoblocked(o) && o.body.value.gating != 2 ==> e.status == 403 && e.code == Restricted)
    && (Geoblocked(o) ==> !e.ephemeral && !e.final)
    && (!Geoblocked(o) ==> e.(card := base.card) == base)
    && e.card == if Gated(o) then o.body.value.title else base.card
  }

  lemma OembedSays(o: Oembed, base: AppError)
    ensures var (card, e) := OembedVerdict(o, base);
            && (card.Some? <==> o.ok && o.body.Some? && 200 <= o.status < 300 && o.body.value.post.Some?)
            && (card.Some? ==> card == o.body.value.post)
            && (card.None? ==> Refined(o, base, e))
  {}

  /** Which answers the loop asks for once oEmbed has been heard. */
  lemma FollowUps(s: Sources)
    ensures Card(s).Some? ==> HasCard(s, Card(s).value)
    ensures forall p :: HasCard(s, p) ==> Card(s) == Some(p)
    ensures Gate(s).Some? <==> Gated(s.oembed)
    ensures Gated(s.oembed) ==> Refined(s.oembed, AppError(502, GraphQL), Gate(s).value)
    ensures AsksOG(s) <==> Gated(s.oembed) && s.oembed.body.value.gating in {2, 3}
    ensures AsksDC(s) <==> s.v6 && (Card(s).Some? || (Gated(s.oembed) && s.oembed.body.value.gating == 2))
    ensures AsksRuling(s) <==> s.oembed.ok && s.oembed.status == 404 && !Gated(s.oembed)
  {
    OembedSays(s.oembed, BASE);
    hide OembedVerdict;
  }

  /** The partial post there is when everyone has answered: Instagram's page if it was asked for. */
  predicate Holds(s: Sources, p: Post) {
    if Gated(s.oembed) && s.oembed.body.value.gating in {2, 3} then s.og == Some(p) else HasCard(s, p)
  }

  predicate Reached(helper: Answer) {
    helper.Failed? && !helper.error.ephemeral && helper.error.code != Connection && helper.error.code != RateLimited
  }

  /** A notice as it is passed on: nothing to be kept for an hour unless the helper has tried. */
  ghost predicate PassedOn(o: Oembed, base: AppError, registered: bool, asked: bool, e: AppError) {
    exists notice ::
      && Refined(o, base, notice) && e.(code := notice.code) == notice
      && e.code == if registered && !asked && notice.code in {Restricted, GeoBlocked} then Upstream else notice.code
  }

  /** What is said when every source has answered and none with a whole post: the partial post, for a
      minute if oEmbed answered in full or a part of a post could not be put to the helper and for an
      hour at most otherwise; without one, Instagram's notice; without that, that the post is gone if
      oEmbed and the helper both answer 404, and else that it could not be loaded. */
  ghost predicate Said(s: Sources, out: Outcome)
    requires s.helper.Failed?
  {
    var gone := Outcome(Failed(AppError(404, MediaNotFound)), 0, false);
    && (forall p :: Holds(s, p) ==>
          && out.answer == Found(p) && !out.persist
          && out.ttl == Min(p.ttl, if s.oembed.status == 200 || (p.partial && !Reached(s.helper)) then 60 else 3600))
    && (out.answer.Found? ==> Holds(s, out.answer.post))
    && (out.answer.Failed? && Gated(s.oembed) ==>
          && out.ttl == 0 && !out.persist
          && PassedOn(s.oembed, AppError(502, GraphQL), s.registered, Reached(s.helper), out.answer.error))
    && (out == gone <==> s.oembed.status == 404 && s.helper.error.status == 404 && !Gated(s.oembed)
                         && forall p :: !Holds(s, p))
    && (out.answer.Failed? && !Gated(s.oembed) && out != gone ==>
          out == Outcome(Failed(AppError(502, GraphQL)), 0, false))
  }

  lemma AnsweredSays(s: Sources, out: Outcome)
    requires AnsweredPossible(s, out)
    ensures Said(s, out)
  {
    FollowUps(s);
    GateCode(s);
    hide OembedVerdict, Gating, Card, Gate, AsksOG, AsksDC, AsksRuling, Refined, Gated, HasCard;
    var held := if AsksOG(s) then s.og else Card(s);
    HeldIs(s, held);
    assert Reached(s.helper) <==> HelperAsked(s.helper.error);
    if held.None? && Gate(s).Some? {
      PassesOn(s, Gate(s).value, HelperAsked(s.helper.error));
    }
  }

  /** What is said when the time is up: a partial post that has come, for a minute or, if it is a whole
      one and oEmbed did not answer in full, an hour at most; else the notice that has come; else
      that it could not be loaded. Nothing is declared gone. */
  ghost predicate SaidEarly(s: Sources, b: Board, asked: bool, out: Outcome) {
    match b.partial
    case Some(p) =>
      out == Outcome(Found(p), Min(p.ttl, if p.partial || b.status == 200 then 60 else 3600), false)
    case None =>
      if b.gate.Some? then
        && out.answer.Failed? && out.ttl == 0 && !out.persist
        && PassedOn(s.oembed, AppError(502, GraphQL), s.registered, asked, out.answer.error)
      else out == Outcome(Failed(AppError(502, GraphQL)), 0, false)
  }

  lemma CutSays(s: Sources, deadline: bool, b: Board, asked: bool, out: Outcome)
    requires b.gate.Some? ==> b.gate == Gate(s)
    requires out == Verdict(b.partial, b.gate, b.status, ContextError(deadline), s.registered, asked)
    ensures SaidEarly(s, b, asked, out)
  {
    hide OembedVerdict, Gate;
    if b.partial.None? && b.gate.Some? {
      PassesOn(s, b.gate.value, asked);
    }
  }

  lemma HeldIs(s: Sources, held: Option<Post>)
    requires held == if AsksOG(s) then s.og else Card(s)
    ensures forall p :: Holds(s, p) <==> held == Some(p)
  {
    FollowUps(s);
    hide OembedVerdict, Gating, Card, Gate, AsksOG, AsksDC, AsksRuling, Gated, HasCard;
  }

  lemma PassesOn(s: Sources, notice: AppError, asked: bool)
    requires Gate(s) == Some(notice)
    ensures PassedOn(s.oembed, AppError(502, GraphQL), s.registered, asked, GateOrRetry(notice, s.registered, asked))
  {
    FollowUps(s);
    hide OembedVerdict, Gate;
    RetryPassesOn(s.oembed, AppError(502, GraphQL), notice, s.registered, asked);
  }

  lemma RetryPassesOn(o: Oembed, base: AppError, notice: AppError, registered: bool, asked: bool)
    requires Refined(o, base, notice)
    ensures PassedOn(o, base, registered, asked, GateOrRetry(notice, registered, asked))
  {
    hide Refined;
    var e := GateOrRetry(notice, registered, asked);
    assert Refined(o, base, notice) && e.(code := notice.code) == notice;
  }

  // ---------- The loop ----------

  /** What each way out of the loop returns; `over` is whether the helper has finished, seen by the
      loop or not. */
  ghost predicate Returned(s: Sources, deadline: bool, out: Outcome, ending: Ending, b: Board, over: bool) {
    && (b.helperErr.Some? ==> over)
    && match ending
       case HelperPost => over && HelperPossible(s, out)
       case DcPost => DcPossible(s, out)
       case RuledMissing => !b.awaitedOembed && GonePossible(s, out)
       case AllAnswered => Over(b) && out == Answered(s, b)
       case CutShort =>
         var asked := over && s.helper.Failed? && HelperAsked(s.helper.error);
         out == Verdict(b.partial, b.gate, b.status, ContextError(deadline), s.registered, asked)
  }

  /** What `hiddenPost` owes its caller. */
  ghost predicate Justified(s: Sources, out: Outcome, ending: Ending, b: Board, over: bool) {
    && Warranted(s, out, ending, b, over)
    // When all have answered, and when the time is up, what is said follows from what they said.
    && (ending.AllAnswered? ==> s.helper.Failed? && Said(s, out))
    && (ending.CutShort? ==> SaidEarly(s, b, over && Reached(s.helper), out))
    // Short of the deadline the outcome is one of those the sources allow.
    && (!ending.CutShort? ==> Possible(s, out))
  }

  ghost predicate Warranted(s: Sources, out: Outcome, ending: Ending, b: Board, over: bool) {
    // Only whole posts, from the helper or the dc proxy, are persisted.
    && (out.persist <==> ending.HelperPost? || ending.DcPost?)
    && (out.persist ==> out.answer.Found? && out.ttl == out.answer.post.ttl
                        && (s.helper == out.answer || s.dc == Some(out.answer.post)))
    && (ending.HelperPost? ==> s.helper.Found? && out == Outcome(s.helper, s.helper.post.ttl, true))
    && (ending.DcPost? ==> s.dc.Some? && out == Outcome(Found(s.dc.value), s.dc.value.ttl, true))
    && (ending.RuledMissing? ==>
          s.missing && s.oembed.status == 404 && out == Outcome(Failed(AppError(404, MediaNotFound)), 0, false))
    // A partial post is Instagram's card or its page, never persisted, and kept briefly unless the
    // helper has had its say and oEmbed did not answer in full.
    && (out.answer.Found? && !out.persist ==>
          && b.partial == Some(out.answer.post) && (Card(s) == b.partial || s.og == b.partial)
          && out.ttl <= Min(b.partial.value.ttl, 3600)
          && (out.ttl > 60 ==>
                b.status != 200
                && (b.partial.value.partial ==>
                      ending.AllAnswered? && Reached(s.helper))))
    // A post is declared gone only on oEmbed's 404 confirmed by the ruling or the helper.
    && (out.answer.Failed? && out.answer.error.code == MediaNotFound ==>
          && s.oembed.status == 404 && !b.awaitedOembed && b.partial.None? && b.gate.None?
          && (ending == RuledMissing ==> s.missing && AsksRuling(s))
          && (ending != RuledMissing ==> ending == AllAnswered && s.helper.Failed? && s.helper.error.status == 404))
    // A gate notice that will be cached for long has been put to the helper.
    && (out.answer.Failed? && (out.answer.error.code == Restricted || out.answer.error.code == GeoBlocked) ==>
          s.registered ==> over && Reached(s.helper))
  }

  lemma Warrant(s: Sources, deadline: bool, out: Outcome, ending: Ending, b: Board, over: bool)
    requires Accurate(s, b) && Returned(s, deadline, out, ending, b, over)
    ensures Warranted(s, out, ending, b, over)
  {
    hide OembedVerdict, Gating, Card, Gate, AsksOG, AsksDC, AsksRuling;
    GateCode(s);
    AsksApart(s);
    AskedReached(s);
  }

  lemma AskedReached(s: Sources)
    ensures s.helper.Failed? ==> (Reached(s.helper) <==> HelperAsked(s.helper.error))
  {}

  lemma Justify(s: Sources, deadline: bool, out: Outcome, ending: Ending, b: Board, over: bool)
    requires Accurate(s, b) && Returned(s, deadline, out, ending, b, over)
    ensures Justified(s, out, ending, b, over)
  {
    Warrant(s, deadline, out, ending, b, over);
    AskedReached(s);
    hide OembedVerdict, Gating, Card, Gate, AsksOG, AsksDC, AsksRuling, Said, SaidEarly, Warranted, Reached, Verdict;
    hide AnsweredPossible;
    if ending.AllAnswered? {
      OverPossible(s, b);
      AnsweredSays(s, out);
    } else if ending.CutShort? {
      CutSays(s, deadline, b, over && Reached(s.helper), out);
    }
  }

  /** `hiddenPost` for every arrival order; `deadline` is how its context would end. `order` is what
      arrived, and `sends` counts the goroutines that send on the og, dc and ruling channels. */
  method HiddenPost(s: Sources, deadline: bool)
    returns (out: Outcome, ending: Ending, b: Board, over: bool, ghost sends: seq<int>, ghost order: seq<Arrival>)
    ensures Accurate(s, b) && SentOnce(s, b, sends)
    ensures Justified(s, out, ending, b, over)
    ensures !ending.CutShort? ==> Final(s, order) == Some(out)
  {
    hide OembedVerdict, Gating, Card, Gate, AsksOG, AsksDC, AsksRuling, Verdict, Justified;
    hide Accurate, SentOnce, After, Final;
    b, over, sends, order := OPENING, false, [0, 0, 0], [];
    OpeningAccurate(s);
    NothingArrived(s);
    while true
      invariant Accurate(s, b) && SentOnce(s, b, sends) && After(s, order) == Some(b) && (b.helperErr.Some? ==> over)
      decreases Count(b.helperErr.None?) + (if b.awaitedOembed then 4 else b.pending)
    {
      PendingBounds(s, b);
      if b.helperErr.Some? && b.pending == 0 {
        var helperErr := b.helperErr.value;
        out := Verdict(b.partial, b.gate, b.status, helperErr, s.registered, HelperAsked(helperErr));
        ending := AllAnswered;
        FinallyOver(s, order, b);
        break;
      }
      // The helper may finish at any time, seen by this loop or not.
      var finishes: bool := *;
      over := over || finishes;
      if {
        case b.helperErr.None? =>
          over := true;
          Arrived(s, order, b, ByHelper, sends);
          order := order + [ByHelper];
          if s.helper.Found? {
            out, ending := Outcome(s.helper, s.helper.post.ttl, true), HelperPost;
            break;
          }
          b := b.(helperErr := Some(s.helper.error));
        case b.awaitedOembed =>
          Arrived(s, order, b, ByOembed, sends);
          order := order + [ByOembed];
          b, sends := HearOembed(s, b, sends);
        case b.awaitedOG =>
          Arrived(s, order, b, ByOG, sends);
          order := order + [ByOG];
          b := b.(pending := b.pending - 1, awaitedOG := false, partial := if s.og.Some? then s.og else b.partial);
        case b.awaitedDC =>
          Arrived(s, order, b, ByDC, sends);
          order := order + [ByDC];
          if s.dc.Some? {
            out, ending := Outcome(Found(s.dc.value), s.dc.value.ttl, true), DcPost;
            break;
          }
          b := b.(pending := b.pending - 1, awaitedDC := false);
        case b.awaitedRuling =>
          Arrived(s, order, b, ByRuling, sends);
          order := order + [ByRuling];
          if s.missing {
            out, ending := Outcome(Failed(MISSING), 0, false), RuledMissing;
            break;
          }
          b := b.(pending := b.pending - 1, awaitedRuling := false);
        case true =>
          var asked := over && s.helper.Failed? && HelperAsked(s.helper.error);
          out := Verdict(b.partial, b.gate, b.status, ContextError(deadline), s.registered, asked);
          ending := CutShort;
          break;
      }
    }
    Justify(s, deadline, out, ending, b, over);
  }

  lemma NothingArrived(s: Sources)
    ensures After(s, []) == Some(OPENING)
  {}

  lemma PendingBounds(s: Sources, b: Board)
    requires Accurate(s, b)
    ensures b.awaitedOembed ==> b.pending == 1
    ensures b.awaitedOG || b.awaitedDC || b.awaitedRuling ==> !b.awaitedOembed && b.pending >= 1
    ensures b.pending >= 0
  {}

  lemma FinallyOver(s: Sources, order: seq<Arrival>, b: Board)
    requires After(s, order) == Some(b) && Over(b)
    ensures Final(s, order) == Some(Answered(s, b))
  {
    hide After;
  }

  /** What an arrival does to all the loop keeps track of. */
  lemma Arrived(s: Sources, order: seq<Arrival>, b: Board, a: Arrival, sends: seq<int>)
    requires After(s, order) == Some(b) && !Over(b) && Awaits(b, a) && Accurate(s, b) && SentOnce(s, b, sends)
    ensures var turned := Hear(s, b, a);
            if turned.Going? then
              && After(s, order + [a]) == Some(turned.board) && Accurate(s, turned.board)
              && (a != ByOembed ==> SentOnce(s, turned.board, sends))
            else Final(s, order + [a]) == Some(turned.outcome) && Possible(s, turned.outcome)
    ensures a == ByRuling ==> !b.awaitedOembed && AsksRuling(s)
    ensures a == ByDC ==> AsksDC(s)
  {
    hide OembedVerdict, Gating, Card, Gate, AsksOG, AsksDC, AsksRuling, Possible, Final, After;
    Arrives(s, order, b, a);
    if Hear(s, b, a).Going? {
      HearAccurate(s, b, a);
    } else {
      EndsPossible(s, b, a);
    }
  }

  /** The oEmbed case of the loop: its verdict picks the follow-ups, each of which is one more answer
      to wait for and one more sender. */
  method HearOembed(s: Sources, before: Board, ghost sent: seq<int>) returns (b: Board, ghost sends: seq<int>)
    requires Accurate(s, before) && before.awaitedOembed && SentOnce(s, before, sent)
    ensures b == HeardOembed(s, before) && b.pending <= 2
    ensures SentOnce(s, b, sends)
  {
    b, sends := before.(pending := before.pending - 1, awaitedOembed := false, status := s.oembed.status), sent;
    var (card, cardErr) := OembedVerdict(s.oembed, BASE);
    if card.Some? {
      b := b.(partial := card);
      if s.v6 {
        b := b.(pending := b.pending + 1, awaitedDC := true);
        sends := sends[1 := sends[1] + 1];
      }
    } else if cardErr.card != "" {
      b := b.(gate := Some(cardErr));
      var gating := s.oembed.body.value.gating;
      if gating == 3 {
        b := b.(pending := b.pending + 1, awaitedOG := true);
        sends := sends[0 := sends[0] + 1];
      } else if gating == 2 {
        b := b.(pending := b.pending + 1, awaitedOG := true);
        sends := sends[0 := sends[0] + 1];
        if s.v6 {
          b := b.(pending := b.pending + 1, awaitedDC := true);
          sends := sends[1 := sends[1] + 1];
        }
      }
    } else if s.oembed.ok && s.oembed.status == 404 {
      b := b.(pending := b.pending + 1, awaitedRuling := true);
      sends := sends[2 := sends[2] + 1];
    }
  }

  /** The part of `fetchPost` after the staged race: `raced` is its answer, `hidden` whether GraphQL
      reported the post as hidden. `over` is whether the helper had finished, `asked` what the helper
      says of itself. */
  method FetchPost(s: Sources, raced: Answer, hidden: bool, deadline: bool)
    returns (out: Outcome, over: bool, asked: bool)
    ensures asked <==> over && Reached(s.helper)
    ensures raced.Found? ==> out == Outcome(raced, raced.post.ttl, true)
    ensures raced.Failed? && hidden ==> exists ending, b :: Accurate(s, b) && Justified(s, out, ending, b, over)
    // What only oEmbed could say about a post that is not hidden is not kept for long.
    ensures raced.Failed? && !hidden ==>
      && (forall p :: HasCard(s, p) ==> out == Outcome(Found(p), Min(p.ttl, 60), false))
      && ((forall p :: !HasCard(s, p)) ==>
            && out.answer.Failed? && out.ttl == 0 && !out.persist
            && PassedOn(s.oembed, raced.error, s.registered, asked, out.answer.error))
    // With a helper registered, a gate verdict is given only if the helper finished and reached Instagram.
    ensures s.registered && out.answer.Failed?
            && (out.answer.error.code == Restricted || out.answer.error.code == GeoBlocked)
            ==> asked
  {
    hide OembedVerdict, Refined, Justified, Accurate, Warranted;
    over := *;
    asked := over && s.helper.Failed? && HelperAsked(s.helper.error);
    AskedReached(s);
    if raced.Found? {
      return Outcome(raced, raced.post.ttl, true), over, asked;
    }
    if hidden {
      var ending, board;
      ghost var sends, order;
      out, ending, board, over, sends, order := HiddenPost(s, deadline);
      asked := over && s.helper.Failed? && HelperAsked(s.helper.error);
      GateAsked(s, out, ending, board, over);
      return;
    }
    var (card, cardErr) := OembedVerdict(s.oembed, raced.error);
    OembedSays(s.oembed, raced.error);
    if card.Some? {
      return Outcome(Found(card.value), Min(card.value.ttl, TRANSIENT_SECONDS), false), over, asked;
    }
    out := Outcome(Failed(GateOrRetry(cardErr, s.registered, asked)), 0, false);
    RetryPassesOn(s.oembed, raced.error, cardErr, s.registered, asked);
  }

  lemma GateAsked(s: Sources, out: Outcome, ending: Ending, b: Board, over: bool)
    requires Justified(s, out, ending, b, over)
    ensures s.registered && out.answer.Failed?
            && (out.answer.error.code == Restricted || out.answer.error.code == GeoBlocked)
            ==> over && Reached(s.helper)
  {
    hide Said, SaidEarly, Possible, Reached;
  }

  /** `fetchPost` in its flight: the verdict everyone who waited is given, and for how long it is
      cached, if it is. */
  method SettlePost(s: Sources, raced: Answer, hidden: bool, deadline: bool, late: bool, valid: bool)
    returns (verdict: Flight.Verdict, ttl: Option<int>, over: bool, out: Outcome)
    // What the fetch came to, as `FetchPost` has it.
    ensures raced.Found? ==> out == Outcome(raced, raced.post.ttl, true)
    ensures raced.Failed? && hidden ==> exists ending, b :: Accurate(s, b) && Justified(s, out, ending, b, over)
    // A valid post is the verdict, cached for exactly as long as its fetch allows.
    ensures out.answer.Found? && valid ==>
      verdict == Flight.Good(out.answer.post.id) && ttl == if out.ttl > 0 then Some(out.ttl) else None
    ensures out.answer.Found? && !valid ==>
      verdict == Flight.Bad(AppError(502, Upstream, ephemeral := true)) && ttl.None?
    // An error is the verdict, unless it came too late; it is cached for an hour only if it is
    // permanent, for a minute otherwise, and not at all if it is of our own making.
    ensures out.answer.Failed? ==>
      verdict == Flight.Bad(if late then AppError(504, Connection, ephemeral := true) else out.answer.error)
    ensures verdict.Bad? ==>
      ttl == if verdict.error.ephemeral || verdict.error.status == 499 then None
             else Some(if verdict.error.code in {NotFound, MediaNotFound, GeoBlocked, Restricted} then 3600 else 60)
    // A gate verdict in the cache for an hour means that the helper, if there is one, finished and
    // reached Instagram.
    ensures s.registered && ttl == Some(3600) && verdict.Bad?
            && (verdict.error.code == Restricted || verdict.error.code == GeoBlocked)
            ==> over && Reached(s.helper)
  {
    hide OembedVerdict, GateOrRetry, PassedOn, Justified, Accurate, Reached;
    var asked;
    out, over, asked := FetchPost(s, raced, hidden, deadline);
    var fetched := match out.answer
      case Found(post) => Flight.Fetched(post.id, out.ttl, None, valid)
      case Failed(e) => Flight.Fetched("", out.ttl, Some(e), valid);
    var settled := Flight.Settle(fetched, late);
    verdict, ttl := settled.0, settled.1;
  }
}
