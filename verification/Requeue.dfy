/** When the reconciler asks to be called again. */
module Requeue {
  import opened Wrappers
  import opened Network
  import opened Text
  import opened Ipam

  /** Time left for one stamp at its clock reading. */
  function Remaining(pool: string, ip: string, stamp: Stamp, clock: Clock): int {
    match stamp
    case At(sec) => Deadline(sec) - clock(pool, ip)
    case Unreadable => MIN_INT64 // counts as the year 1, which is further away than a duration reaches
  }

  predicate IsEarliest(pool: string, stamps: map<string, Stamp>, clock: Clock, delay: Option<int>) {
    match delay
    case None => stamps == map[]
    case Some(d) =>
      && (exists ip :: ip in stamps && Remaining(pool, ip, stamps[ip], clock) == d)
      && (forall ip :: ip in stamps ==> d <= Remaining(pool, ip, stamps[ip], clock))
  }

  /** The delay may be that of any pool: which one depends on the order of the map. */
  predicate PossibleDelay(pending: map<string, map<string, Stamp>>, clock: Clock, delay: Option<int>) {
    if pending == map[] then delay.None?
    else exists pool :: pool in pending && IsEarliest(pool, pending[pool], clock, delay)
  }

  method EarliestOf(pool: string, stamps: map<string, Stamp>, clock: Clock) returns (delay: Option<int>)
    ensures IsEarliest(pool, stamps, clock, delay)
  {
    delay := None;
    var todo := stamps.Keys;
    while todo != {}
      invariant todo <= stamps.Keys
      invariant delay.None? <==> todo == stamps.Keys
      invariant delay.Some? ==> exists ip :: ip in stamps && Remaining(pool, ip, stamps[ip], clock) == delay.value
      invariant delay.Some? ==> forall ip :: ip in stamps && ip !in todo ==> delay.value <= Remaining(pool, ip, stamps[ip], clock)
      decreases |todo|
    {
      var ip :| ip in todo;
      todo := todo - {ip};
      var left := Remaining(pool, ip, stamps[ip], clock);
      if delay.None? || left < delay.value {
        delay := Some(left);
      }
    }
  }

  // ---------------------------------------------------------------- Which delay it can be

  lemma {:induction false} EarliestExists(pool: string, stamps: map<string, Stamp>, clock: Clock) returns (delay: Option<int>)
    ensures IsEarliest(pool, stamps, clock, delay)
    decreases |stamps|
  {
    if stamps == map[] {
      delay := None;
    } else {
      var ip :| ip in stamps;
      var rest := stamps - {ip};
      assert rest.Keys == stamps.Keys - {ip};
      assert |rest.Keys| == |stamps.Keys| - 1;
      var left := Remaining(pool, ip, stamps[ip], clock);
      var later := EarliestExists(pool, rest, clock);
      assert forall i :: i in stamps ==> i == ip || i in rest;
      delay := if later.None? || left < later.value then Some(left) else later;
    }
  }

  /** The earliest over all pools. */
  ghost predicate IsOverall(pending: map<string, map<string, Stamp>>, clock: Clock, delay: Option<int>) {
    match delay
    case None => forall pool :: pool in pending ==> pending[pool] == map[]
    case Some(d) =>
      && (exists pool, ip :: pool in pending && ip in pending[pool] && Remaining(pool, ip, pending[pool][ip], clock) == d)
      && (forall pool, ip :: pool in pending && ip in pending[pool] ==> d <= Remaining(pool, ip, pending[pool][ip], clock))
  }

  ghost predicate SameEarliest(pending: map<string, map<string, Stamp>>, clock: Clock) {
    forall p, q, d, e :: p in pending && q in pending && IsEarliest(p, pending[p], clock, d) && IsEarliest(q, pending[q], clock, e) ==> d == e
  }

  /** The reconciler is sure to ask for the overall earliest time exactly when all pools agree
      on it; with one pool they do. Otherwise the order of the map decides. */
  lemma DelayIsReliableWhen(pending: map<string, map<string, Stamp>>, clock: Clock)
    ensures (forall d :: PossibleDelay(pending, clock, d) ==> IsOverall(pending, clock, d)) <==> SameEarliest(pending, clock)
    ensures |pending| <= 1 ==> SameEarliest(pending, clock)
  {
    hide Remaining;
    if SameEarliest(pending, clock) {
      forall d | PossibleDelay(pending, clock, d) ensures IsOverall(pending, clock, d) {
        if pending != map[] {
          var p :| p in pending && IsEarliest(p, pending[p], clock, d);
          forall q | q in pending ensures IsEarliest(q, pending[q], clock, d) {
            var e := EarliestExists(q, pending[q], clock);
          }
        }
      }
    }
    if forall d :: PossibleDelay(pending, clock, d) ==> IsOverall(pending, clock, d) {
      forall p, q, d, e | p in pending && q in pending && IsEarliest(p, pending[p], clock, d) && IsEarliest(q, pending[q], clock, e)
        ensures d == e
      {
        assert PossibleDelay(pending, clock, d) && PossibleDelay(pending, clock, e);
      }
    }
    if |pending| <= 1 {
      OnePoolAgrees(pending, clock);
    }
  }

  lemma OnePoolAgrees(pending: map<string, map<string, Stamp>>, clock: Clock)
    requires |pending| <= 1
    ensures SameEarliest(pending, clock)
  {
    forall p, q | p in pending && q in pending ensures p == q {
      assert |pending.Keys - {p}| == |pending.Keys| - 1;
      assert q in pending.Keys && q !in pending.Keys - {p};
    }
  }

  lemma {:induction false} OverallExists(pending: map<string, map<string, Stamp>>, clock: Clock) returns (delay: Option<int>)
    ensures IsOverall(pending, clock, delay)
    decreases |pending|
  {
    if pending == map[] {
      delay := None;
    } else {
      var pool :| pool in pending;
      var rest := pending - {pool};
      assert |rest.Keys| == |pending.Keys - {pool}| == |pending.Keys| - 1;
      var first := EarliestExists(pool, pending[pool], clock);
      var others := OverallExists(rest, clock);
      delay := Earlier(first, others);
      OverallOneMore(pending, pool, clock, first, others);
    }
  }

  function Earlier(a: Option<int>, b: Option<int>): Option<int> {
    if a.None? || (b.Some? && b.value < a.value) then b else a
  }

  lemma OverallOneMore(pending: map<string, map<string, Stamp>>, pool: string, clock: Clock, first: Option<int>, others: Option<int>)
    requires pool in pending && IsEarliest(pool, pending[pool], clock, first)
    requires IsOverall(pending - {pool}, clock, others)
    ensures IsOverall(pending, clock, Earlier(first, others))
  {
    hide Remaining;
    var rest := pending - {pool};
    assert forall p :: p in pending ==> p == pool || (p in rest && rest[p] == pending[p]);
    assert forall p :: p in rest ==> p in pending && rest[p] == pending[p];
  }

  /** A reported delay is never below the overall earliest time, and it is that time when one
      pool has a pending map. */
  lemma DelayNotBelowOverall(pending: map<string, map<string, Stamp>>, clock: Clock, d: int) returns (overall: int)
    requires PossibleDelay(pending, clock, Some(d))
    ensures IsOverall(pending, clock, Some(overall)) && overall <= d
    ensures |pending| == 1 ==> overall == d
  {
    var found := OverallExists(pending, clock);
    hide Remaining;
    var pool :| pool in pending && IsEarliest(pool, pending[pool], clock, Some(d));
    assert pending[pool] != map[];
    overall := found.value;
    if |pending| == 1 {
      DelayIsReliableWhen(pending, clock);
      OverallIsOne(pending, clock, d, overall);
    }
  }

  lemma OverallIsOne(pending: map<string, map<string, Stamp>>, clock: Clock, d: int, e: int)
    requires IsOverall(pending, clock, Some(d)) && IsOverall(pending, clock, Some(e))
    ensures d == e
  {
    hide Remaining;
  }

  /** The overall delay is the time of the next change: counted from `now`, a clock reading up to
      then finds no stamp lapsed, and every later one does. */
  lemma DelayIsUntilLapse(pending: map<string, map<string, Stamp>>, now: int, d: int, later: int)
    requires forall pool, ip :: pool in pending && ip in pending[pool] ==> pending[pool][ip].At?
    requires IsOverall(pending, (pool, ip) => now, Some(d))
    ensures later <= now + d <==>
            forall pool, ip :: pool in pending && ip in pending[pool] ==> Survives(ip, pending[pool][ip], {}, later)
  {
    var clock: Clock := (pool, ip) => now;
    var first, lapsing :| first in pending && lapsing in pending[first]
                          && Remaining(first, lapsing, pending[first][lapsing], clock) == d;
    forall pool, ip | pool in pending && ip in pending[pool]
      ensures later <= now + Remaining(pool, ip, pending[pool][ip], clock) <==> Survives(ip, pending[pool][ip], {}, later)
    {
    }
  }

  /** That is 35 whole seconds after the second that was written down. */
  lemma LapsesAfter35Seconds(pool: string, ip: string, sec: int, clock: Clock)
    ensures clock(pool, ip) + Remaining(pool, ip, At(sec), clock) == (sec + 35) * 1_000_000_000
  {
  }

  // ---------------------------------------------------------------- Combining delays

  /** The smallest of all delays given; none if none was given. */
  method RequeueAfter(rq: Option<int>, times: seq<int>) returns (after: Option<int>)
    ensures after.None? <==> rq.None? && times == []
    ensures after.Some? ==> (after == rq || after.value in times)
    ensures after.Some? ==> (rq.Some? ==> after.value <= rq.value) && forall t :: t in times ==> after.value <= t
  {
    if rq.None? && times == [] {
      return None;
    }
    var all := if rq.None? then times else times + [rq.value];
    assert forall t :: t in all <==> t in times || rq == Some(t);
    var min := all[0];
    for i := 1 to |all|
      invariant min in all && forall j :: 0 <= j < i ==> min <= all[j]
    {
      if all[i] < min {
        min := all[i];
      }
    }
    after := Some(min);
  }
}
