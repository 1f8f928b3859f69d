/** server/errors.go: error codes, how long an error is cached, and which error a race reports. */
module Errors {
  import opened Prelude

  datatype Code =
    | Connection | JSONDecode | LoginRequired | Unauthorized | Forbidden | RateLimited | Upstream | GraphQL
    | BadRequest | NotFound | MediaNotFound | CaptchaRequired | GeoBlocked | Restricted | Internal

  /** `card` is the title of the notice Instagram shows instead of the post, if any. */
  datatype AppError = AppError(
    status: int, code: Code, ephemeral: bool := false, final: bool := false, card: string := "")

  const TRANSIENT_SECONDS := 60
  const PERMANENT_SECONDS := 3600

  predicate IsTransient(code: Code) {
    !code.NotFound? && !code.MediaNotFound? && !code.GeoBlocked? && !code.Restricted?
  }

  function ErrorCacheSeconds(code: Code): int {
    if IsTransient(code) then TRANSIENT_SECONDS else PERMANENT_SECONDS
  }

  const DEADLINE := AppError(504, Connection, ephemeral := true)
  const CANCELLED := AppError(499, Internal, ephemeral := true)

  /** `contextAppError`. */
  function ContextError(deadline: bool): AppError { if deadline then DEADLINE else CANCELLED }

  /** `preferredError`. */
  function PreferredError(current: Option<AppError>, candidate: Option<AppError>): Option<AppError> {
    match current
    case None => candidate
    case Some(c) =>
      if IsTransient(c.code) && candidate.Some?
         && (!IsTransient(candidate.value.code) || (c.ephemeral && !candidate.value.ephemeral))
      then candidate else current
  }

  /** Permanent errors say most, transient ones of our own making least. */
  function Rank(e: AppError): (r: nat)
    ensures r <= 2
  {
    if !IsTransient(e.code) then 2 else if !e.ephemeral then 1 else 0
  }

  /** The first error of the highest rank. */
  ghost predicate FirstOfHighestRank(errors: seq<AppError>, e: AppError) {
    exists i :: 0 <= i < |errors| && errors[i] == e
      && (forall j :: 0 <= j < |errors| ==> Rank(errors[j]) <= Rank(e))
      && (forall j :: 0 <= j < i ==> Rank(errors[j]) < Rank(e))
  }

  /** Instagram will not change its mind. */
  predicate Permanent(e: AppError) { e.code in {NotFound, MediaNotFound, GeoBlocked, Restricted} }

  /** What the rank stands for: the error reported is the first permanent one if there is any, else
      the first that is not of our own making, else the first. */
  lemma HighestMeans(errors: seq<AppError>, e: AppError, i: nat)
    requires FirstOfHighestRank(errors, e) && i < |errors|
    ensures e in errors
    ensures Permanent(errors[i]) && (forall j :: 0 <= j < i ==> !Permanent(errors[j])) ==> e == errors[i]
    ensures
      && (forall j :: 0 <= j < |errors| ==> !Permanent(errors[j]))
      && !errors[i].ephemeral && (forall j :: 0 <= j < i ==> errors[j].ephemeral)
      ==> e == errors[i]
    ensures (forall j :: 0 <= j < |errors| ==> !Permanent(errors[j]) && errors[j].ephemeral) ==> e == errors[0]
  {
    RankIs();
    hide Rank, Permanent;
    var k :| 0 <= k < |errors| && errors[k] == e
      && (forall j :: 0 <= j < |errors| ==> Rank(errors[j]) <= Rank(e))
      && (forall j :: 0 <= j < k ==> Rank(errors[j]) < Rank(e));
    assert Rank(errors[i]) <= Rank(e);
    if k < i {
      assert Rank(errors[k]) == Rank(e);
    }
    if i < k {
      assert Rank(errors[i]) < Rank(e);
    }
    if 0 < k {
      assert Rank(errors[0]) < Rank(e);
    }
  }

  lemma RankIs()
    ensures forall e :: Rank(e) == if Permanent(e) then 2 else if e.ephemeral then 0 else 1
  {}

  /** Folding `preferredError` over the failures as they arrive keeps the first of the highest rank. */
  lemma PreferredKeepsFirst(errors: seq<AppError>, current: Option<AppError>, e: AppError)
    requires if errors == [] then current.None? else current.Some? && FirstOfHighestRank(errors, current.value)
    ensures PreferredError(current, Some(e)).Some?
    ensures FirstOfHighestRank(errors + [e], PreferredError(current, Some(e)).value)
  {
    var all := errors + [e];
    if errors == [] {
      assert all[0] == e;
    } else {
      var best := current.value;
      var i :| 0 <= i < |errors| && errors[i] == best
        && (forall j :: 0 <= j < |errors| ==> Rank(errors[j]) <= Rank(best))
        && (forall j :: 0 <= j < i ==> Rank(errors[j]) < Rank(best));
      assert PreferredError(current, Some(e)) == if Rank(e) > Rank(best) then Some(e) else current;
      assert all[i] == best && all[|errors|] == e;
    }
  }
}
