/** `storySideDoor` of server/story.go: watches how many of the last hundred live stories were
    hidden. */
module StoryDoor {
  import opened Windows

  const RING := 100
  const CLOSED_PERCENT := 40

  /** More than two in five of the last hundred were hidden, and at least fifty were seen. */
  predicate LooksClosed(log: seq<bool>) {
    var window := Last(log, RING);
    |window| >= RING / 2 && CountTrue(window) * 100 > |window| * CLOSED_PERCENT
  }

  class StorySideDoor {
    const ring: array<bool>
    var n: int
    var i: int
    var hidden: int
    ghost var log: seq<bool>

    ghost predicate Valid()
      reads this, ring
    {
      && ring.Length == RING && Holds(ring[..], log, i)
      && n == |Last(log, RING)| && hidden == CountTrue(Last(log, RING))
    }

    constructor ()
      ensures Valid() && log == [] && fresh(ring)
    {
      ring := new bool[RING](_ => false);
      n, i, hidden, log := 0, 0, 0, [];
    }

    /** The bookkeeping of `closed`: the counters stay those of the last hundred stories. */
    method Record(hiddenNow: bool)
      requires Valid()
      modifies this, ring
      ensures Valid() && log == old(log) + [hiddenNow]
    {
      hide CountTrue, Holds;
      Pushed(ring[..], log, i, hiddenNow);
      ghost var before := ring[..];
      InRing();
      if n == ring.Length {
        if ring[i] {
          hidden := hidden - 1;
        }
      } else {
        n := n + 1;
      }
      ring[i] := hiddenNow;
      assert ring[..] == before[i := hiddenNow];
      if hiddenNow {
        hidden := hidden + 1;
      }
      i := (i + 1) % ring.Length;
      log := log + [hiddenNow];
    }

    lemma InRing()
      requires Valid()
      ensures 0 <= i < ring.Length
    {}

    /** `closed`: records one story and tells whether the helper must answer it. */
    method Closed(hiddenNow: bool) returns (closed: bool)
      requires Valid()
      modifies this, ring
      ensures Valid() && log == old(log) + [hiddenNow]
      ensures closed <==> hiddenNow && LooksClosed(log)
      // Of the last hundred stories, or of all if that is at least fifty, more than two in five.
      ensures closed <==>
        hiddenNow && |log| >= 50 && |Marked(log, 100)| * 5 > (if |log| < 100 then |log| else 100) * 2
    {
      CountIs(log + [hiddenNow], RING);
      hide Marked, CountTrue;
      Record(hiddenNow);
      closed := n >= ring.Length / 2 && hidden * 100 > n * CLOSED_PERCENT;
      closed := closed && hiddenNow;
    }
  }

  /** A hundred visible stories in a row open the door again, whatever went before. */
  lemma {:induction false} VisibleReopens(log: seq<bool>, k: nat)
    requires k >= RING
    ensures !LooksClosed(log + seq(k, _ => false))
  {
    var tail := seq(k, _ => false);
    assert Last(log + tail, RING) == seq(RING, _ => false);
    NoneTrue(RING);
  }

  lemma NoneTrue(k: nat)
    ensures CountTrue(seq(k, _ => false)) == 0
  {
    if k > 0 {
      NoneTrue(k - 1);
      var s := seq(k, _ => false);
      assert s[..k - 1] == seq(k - 1, _ => false);
    }
  }
}
