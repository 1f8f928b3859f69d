/** Runs of the session pool: any number of requests go through the bracket of `fetchOn`
    (server/fetch.go) in any order, each step of which is one critical section of server/proxy.go. */
module PoolRuns {
  import opened Prelude
  import opened Sessions

  /** A request: picked a session, runs on the client it found there, has been counted out. */
  datatype Request = Chosen(session: nat) | Running(session: nat, client: nat) | Settled(session: nat, client: nat)

  /** `retired` are the clients rotated away, `peaks` the largest sample each session has observed
      since its last rotation. */
  datatype Pool = Pool(
    sessions: seq<State>, requests: map<nat, Request>, nextClient: nat, retired: set<nat>, peaks: seq<real>)

  datatype Step =
    | Pick(id: nat, session: nat)
    | Take(id: nat)
    | Finish(id: nat, sample: real, observe: bool, now: int)
    | Rotate(id: nat, now: int)
    | Leave(id: nat)

  predicate Known(p: Pool, id: nat) {
    id in p.requests && p.requests[id].session < |p.sessions| && |p.peaks| == |p.sessions|
  }

  predicate Enabled(p: Pool, step: Step) {
    match step
    case Pick(id, i) => id !in p.requests && i < |p.sessions|
    case Take(id) => Known(p, id) && p.requests[id].Chosen?
    case Finish(id, sample, _, _) => Known(p, id) && p.requests[id].Running? && sample >= 0.0
    case Rotate(id, _) => Known(p, id) && p.requests[id].Settled?
    case Leave(id) => Known(p, id) && p.requests[id].Settled?
  }

  /** The session a step works on. */
  function Target(p: Pool, step: Step): (i: nat)
    requires Enabled(p, step)
    ensures i < |p.sessions|
  {
    if step.Pick? then step.session else p.requests[step.id].session
  }

  function Apply(p: Pool, step: Step, fade: int -> real): Pool
    requires Enabled(p, step)
  {
    var i := Target(p, step);
    var s := p.sessions[i];
    match step
    case Pick(id, _) => p.(sessions := p.sessions[i := Picked(s)], requests := p.requests[id := Chosen(i)])
    case Take(id) => p.(requests := p.requests[id := Running(i, s.client)])
    case Finish(id, sample, observe, now) =>
      var client := p.requests[id].client;
      var peak := if !observe || s.client != client then p.peaks[i]
                  else if s.rttAt.None? then sample else MaxReal(p.peaks[i], sample);
      p.(sessions := p.sessions[i := Done(s, client, sample, observe, now, fade)],
         requests := p.requests[id := Settled(i, client)], peaks := p.peaks[i := peak])
    case Rotate(id, now) =>
      var client := p.requests[id].client;
      var moved := s.client == client;
      p.(sessions := p.sessions[i := Failed(s, client, p.nextClient, now)], requests := p.requests - {id},
         nextClient := p.nextClient + 1, retired := if moved then p.retired + {client} else p.retired,
         peaks := if moved then p.peaks[i := 0.0] else p.peaks)
    case Leave(id) => p.(requests := p.requests - {id})
  }

  predicate Flies(r: Request, i: nat) { !r.Settled? && r.session == i }

  /** The requests between `pick` and `done` on a session. */
  ghost function InFlight(p: Pool, i: nat): set<nat> { set id | id in p.requests && Flies(p.requests[id], i) }

  ghost predicate CountsExact(p: Pool) {
    forall i: nat :: i < |p.sessions| ==> p.sessions[i].pending == |InFlight(p, i)|
  }

  /** No client serves two sessions, none that was rotated away serves any. */
  ghost predicate ClientsFresh(p: Pool) {
    && (forall i :: 0 <= i < |p.sessions| ==> p.sessions[i].client < p.nextClient && p.sessions[i].client !in p.retired)
    && (forall i, j :: 0 <= i < j < |p.sessions| ==> p.sessions[i].client != p.sessions[j].client)
    && (forall c :: c in p.retired ==> c < p.nextClient)
  }

  ghost predicate EstimatesBounded(p: Pool) {
    && |p.peaks| == |p.sessions|
    && forall i :: 0 <= i < |p.sessions| ==> 0.0 <= p.sessions[i].rtt <= p.peaks[i]
  }

  ghost predicate Inv(p: Pool) {
    && CountsExact(p) && ClientsFresh(p) && EstimatesBounded(p)
    && forall id :: id in p.requests ==> p.requests[id].session < |p.sessions|
  }

  predicate Initial(p: Pool) {
    && p.requests == map[] && p.retired == {} && |p.peaks| == |p.sessions|
    && (forall i :: 0 <= i < |p.sessions| ==> p.sessions[i] == State(i, 0.0, None, 0, 0) && p.peaks[i] == 0.0)
    && p.nextClient == |p.sessions|
  }

  lemma InitialInv(p: Pool)
    requires Initial(p)
    ensures Inv(p)
  {
    forall i: nat | i < |p.sessions| ensures InFlight(p, i) == {} {}
  }

  lemma FlightsMove(p: Pool, step: Step, fade: int -> real, i: nat)
    requires Inv(p) && Enabled(p, step) && i < |p.sessions|
    ensures var q, here := Apply(p, step, fade), i == Target(p, step);
            && (step.Pick? && here ==> InFlight(q, i) == InFlight(p, i) + {step.id} && step.id !in InFlight(p, i))
            && (step.Finish? && here ==> InFlight(q, i) == InFlight(p, i) - {step.id} && step.id in InFlight(p, i))
            && (!here || !(step.Pick? || step.Finish?) ==> InFlight(q, i) == InFlight(p, i))
  {}

  lemma CountsKept(p: Pool, step: Step, fade: int -> real)
    requires Inv(p) && Enabled(p, step)
    ensures CountsExact(Apply(p, step, fade))
  {
    var q := Apply(p, step, fade);
    forall i: nat | i < |q.sessions| ensures q.sessions[i].pending == |InFlight(q, i)| {
      hide InFlight;
      FlightsMove(p, step, fade, i);
    }
  }

  lemma EstimatesKept(p: Pool, step: Step, fade: int -> real)
    requires Inv(p) && Enabled(p, step) && Fading(fade)
    ensures EstimatesBounded(Apply(p, step, fade))
  {
    hide Observed;
    if step.Finish? {
      var s := p.sessions[Target(p, step)];
      if s.rttAt.Some? {
        EstimateBounded(s.rtt, step.sample, fade(step.now - s.rttAt.value), p.peaks[Target(p, step)]);
      }
    }
  }

  lemma StepInv(p: Pool, step: Step, fade: int -> real)
    requires Inv(p) && Enabled(p, step) && Fading(fade)
    ensures Inv(Apply(p, step, fade)) && |Apply(p, step, fade).sessions| == |p.sessions|
  {
    CountsKept(p, step, fade);
    EstimatesKept(p, step, fade);
    hide CountsExact, EstimatesBounded;
  }

  // ---------- Runs ----------

  predicate Run(p: Pool, steps: seq<Step>, q: Pool, fade: int -> real)
    decreases |steps|
  {
    if steps == [] then p == q else Enabled(p, steps[0]) && Run(Apply(p, steps[0], fade), steps[1..], q, fade)
  }

  lemma {:induction false} RunInv(p: Pool, steps: seq<Step>, q: Pool, fade: int -> real)
    requires Inv(p) && Run(p, steps, q, fade) && Fading(fade)
    ensures Inv(q)
    decreases |steps|
  {
    hide Apply, Inv;
    if steps != [] {
      StepInv(p, steps[0], fade);
      RunInv(Apply(p, steps[0], fade), steps[1..], q, fade);
    }
  }

  /** At every point of every run a session's `pending` is the number of its requests in flight, so
      the clamp in `done` never takes effect. */
  lemma PendingExact(p: Pool, steps: seq<Step>, q: Pool, fade: int -> real, id: nat)
    requires Initial(p) && Run(p, steps, q, fade) && Fading(fade)
    ensures forall i: nat :: i < |q.sessions| ==> q.sessions[i].pending == |InFlight(q, i)|
    ensures id in q.requests && q.requests[id].Running? ==>
      q.requests[id].session < |q.sessions| && q.sessions[q.requests[id].session].pending >= 1
  {
    InitialInv(p);
    RunInv(p, steps, q, fade);
    if id in q.requests && q.requests[id].Running? {
      assert id in InFlight(q, q.requests[id].session);
    }
  }

  predicate Rotates(p: Pool, step: Step, client: nat) {
    && Enabled(p, step) && step.Rotate? && p.requests[step.id].client == client
    && p.sessions[p.requests[step.id].session].client == client
  }

  /** How often a run moves a session off a client. */
  function Rotations(p: Pool, steps: seq<Step>, client: nat, fade: int -> real): nat
    decreases |steps|
  {
    if steps == [] || !Enabled(p, steps[0]) then 0
    else (if Rotates(p, steps[0], client) then 1 else 0) + Rotations(Apply(p, steps[0], fade), steps[1..], client, fade)
  }

  /** No client is rotated twice. */
  lemma {:induction false} RotatedOnce(p: Pool, steps: seq<Step>, client: nat, fade: int -> real)
    requires Inv(p) && Fading(fade)
    ensures Rotations(p, steps, client, fade) <= if client in p.retired then 0 else 1
    decreases |steps|
  {
    if steps != [] && Enabled(p, steps[0]) {
      StepInv(p, steps[0], fade);
      RotatedOnce(Apply(p, steps[0], fade), steps[1..], client, fade);
    }
  }

  /** A failure reported by a client that was rotated away meanwhile changes no session. */
  lemma LateFailureSpares(p: Pool, id: nat, now: int, fade: int -> real)
    requires Inv(p) && Enabled(p, Rotate(id, now)) && p.requests[id].client in p.retired
    ensures Apply(p, Rotate(id, now), fade).sessions == p.sessions
  {
    var i := p.requests[id].session;
    assert p.sessions[i].client !in p.retired;
  }

  /** Right after a sample is observed the estimate lies between it and the largest sample since the
      last rotation. */
  lemma EstimateBetween(p: Pool, step: Step, fade: int -> real)
    requires Inv(p) && Enabled(p, step) && Fading(fade) && step.Finish? && step.observe
    requires var i := Target(p, step); p.sessions[i].client == p.requests[step.id].client
    ensures var q, i := Apply(p, step, fade), Target(p, step);
            |q.peaks| == |q.sessions| == |p.sessions| && step.sample <= q.sessions[i].rtt <= q.peaks[i]
  {
    hide Observed;
    var s := p.sessions[Target(p, step)];
    if s.rttAt.Some? {
      EstimateBounded(s.rtt, step.sample, fade(step.now - s.rttAt.value), p.peaks[Target(p, step)]);
    }
  }
}
