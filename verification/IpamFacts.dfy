/** What holds of every reconcile pass and every grant, whatever the status before it. */
module IpamFacts {
  import opened Wrappers
  import opened Kube
  import opened Network
  import opened Text
  import opened Ipam

  // ---------------------------------------------------------------- Filtering

  lemma {:induction false} WithoutKeeps(addresses: seq<string>, blocked: set<string>, a: string)
    ensures a in Without(addresses, blocked) <==> a in addresses && Bare(a) !in blocked
  {
    if addresses != [] {
      var front, last := addresses[..|addresses| - 1], addresses[|addresses| - 1];
      assert addresses == front + [last];
      WithoutKeeps(front, blocked, a);
    }
  }

  /** Filtering a list is filtering its parts, so the order is the order of the list. */
  lemma {:induction false} WithoutSplits(left: seq<string>, right: seq<string>, blocked: set<string>)
    ensures Without(left + right, blocked) == Without(left, blocked) + Without(right, blocked)
  {
    if right == [] {
      assert left + right == left;
    } else {
      var front, last := right[..|right| - 1], right[|right| - 1];
      assert (left + right)[..|left + right| - 1] == left + front;
      WithoutSplits(left, front, blocked);
    }
  }

  lemma {:induction false} WithoutMore(addresses: seq<string>, few: set<string>, more: set<string>)
    ensures |Without(addresses, few + more)| <= |Without(addresses, few)|
    ensures Without(addresses, few + more) == Without(addresses, few) <==>
            forall a :: a in addresses && Bare(a) !in few ==> Bare(a) !in more
  {
    if addresses != [] {
      var front, last := addresses[..|addresses| - 1], addresses[|addresses| - 1];
      assert addresses == front + [last];
      WithoutMore(front, few, more);
      var small, large := Without(front, few + more), Without(front, few);
      if Bare(last) in few {
      } else if Bare(last) in more {
        assert last in addresses;
      } else {
        assert (small + [last])[..|small|] == small && (large + [last])[..|large|] == large;
      }
    }
  }

  /** A reconcile pass leaves exactly the pools of the specification, and each pool holds
      its addresses in order minus the held ones, unless an address that nobody holds is
      spelled like a pool that has a pending map: such an address disappears. */
  lemma FreeAgrees(before: Status, spec: Spec, pods: seq<Pod>, daemons: seq<string>, clock: Clock, name: string)
    requires name in PoolNames(spec.pools)
    ensures var after := Reconciled(before, spec, pods, daemons, clock);
            var addresses := AddressesOf(spec.pools, name);
            && after.freeIPs.Keys == PoolNames(spec.pools)
            && (after.freeIPs[name] == Without(addresses, HeldBy(pods)) <==>
                forall a :: a in addresses && Bare(a) !in HeldBy(pods) ==> Bare(a) !in KeptPools(before, spec))
  {
    var kept, held := KeptPools(before, spec), HeldBy(pods);
    WithoutMore(AddressesOf(spec.pools, name), held, kept);
    assert held + kept == kept + held;
  }

  /** One address is kept or blocked as a whole. */
  lemma WithoutOne(a: string, blocked: set<string>)
    ensures Without([a], blocked) == if Bare(a) in blocked then [] else [a]
  {
    assert [a][..0] == [];
  }

  /** Of several pools with one name the last one counts. */
  lemma {:induction false} LastPoolWins(pools: seq<Pool>, i: nat)
    requires i < |pools| && forall j :: i < j < |pools| ==> pools[j].name != pools[i].name
    ensures pools[i].name in PoolNames(pools) && AddressesOf(pools, pools[i].name) == pools[i].addresses
  {
    var front := pools[..|pools| - 1];
    assert pools[i] in pools;
    if i < |front| {
      LastPoolWins(front, i);
      assert front[i] == pools[i];
    }
  }

  /** No address that a listed pod holds is left in a free list. */
  lemma FreeIsUnheld(before: Status, spec: Spec, pods: seq<Pod>, daemons: seq<string>, clock: Clock, pool: string, a: string)
    requires a in FreeIn(Reconciled(before, spec, pods, daemons, clock), pool)
    ensures pool in PoolNames(spec.pools) && a in AddressesOf(spec.pools, pool) && Bare(a) !in HeldBy(pods)
  {
    WithoutKeeps(AddressesOf(spec.pools, pool), KeptPools(before, spec) + HeldBy(pods), a);
  }

  /** Every pool of the specification has a pending map; of the others only those keep theirs
      that had no entry among the free lists. */
  lemma PendingPoolsAre(before: Status, spec: Spec, pods: seq<Pod>, daemons: seq<string>, clock: Clock, pool: string)
    ensures pool in Reconciled(before, spec, pods, daemons, clock).pendingIPs <==>
            pool in PoolNames(spec.pools) || (pool in before.pendingIPs && pool !in before.freeIPs)
  {
  }

  /** A pass keeps the link of every listed daemon as it was, and that of the nameless pod if
      there is a daemon at all. It drops the others and leaves the summary alone. */
  lemma LinksKeptWhen(before: Status, spec: Spec, pods: seq<Pod>, daemons: seq<string>, clock: Clock, pod: string)
    ensures var after := Reconciled(before, spec, pods, daemons, clock);
            && (pod in after.links <==> pod in before.links && (pod in daemons || (pod == "" && daemons != [])))
            && (pod in after.links ==> after.links[pod] == before.links[pod])
            && after.shortState == before.shortState
  {
  }

  // ---------------------------------------------------------------- Conservation

  predicate Distinct(addresses: seq<string>) {
    forall i, j :: 0 <= i < j < |addresses| ==> addresses[i] != addresses[j]
  }

  function AsSet(addresses: seq<string>): set<string> {
    set a | a in addresses
  }

  lemma {:induction false} DistinctSize(addresses: seq<string>)
    requires Distinct(addresses)
    ensures |AsSet(addresses)| == |addresses|
  {
    if addresses != [] {
      DistinctSize(addresses[1..]);
      assert AsSet(addresses) == {addresses[0]} + AsSet(addresses[1..]);
    }
  }

  function HeldIn(addresses: seq<string>, held: set<string>): set<string> {
    set a | a in addresses && Bare(a) in held
  }

  function AvailableIn(status: Status, pool: string): set<string> {
    set a | a in FreeIn(status, pool) && a !in StampsIn(status, pool)
  }

  /** After a pass every address of a pool is either held by a listed pod, pending or
      available, never two of these, and the three counts add up to the pool. */
  lemma PoolIsPartitioned(before: Status, spec: Spec, pods: seq<Pod>, daemons: seq<string>, clock: Clock, name: string)
    requires name in PoolNames(spec.pools)
    requires Distinct(AddressesOf(spec.pools, name))
    requires StampsIn(before, name).Keys <= AsSet(AddressesOf(spec.pools, name))
    requires forall a :: a in AddressesOf(spec.pools, name) ==> Bare(a) !in KeptPools(before, spec)
    ensures var after := Reconciled(before, spec, pods, daemons, clock);
            var addresses := AddressesOf(spec.pools, name);
            var held, pending, available :=
              HeldIn(addresses, HeldBy(pods)), StampsIn(after, name).Keys, AvailableIn(after, name);
            && held + pending + available == AsSet(addresses)
            && held !! pending && held !! available && pending !! available
            && |held| + |pending| + |available| == |addresses|
  {
    hide HeldIn, AvailableIn, AsSet, Reconciled, KeptPools, StampsIn, HeldBy, Distinct;
    var after := Reconciled(before, spec, pods, daemons, clock);
    var addresses := AddressesOf(spec.pools, name);
    forall a
      ensures a in StampsIn(after, name) ==> a in addresses && Bare(a) !in HeldBy(pods)
      ensures a in FreeIn(after, name) <==> a in addresses && Bare(a) !in HeldBy(pods)
    {
      StampsOfPool(before, name, addresses, a);
      PartOfPool(before, spec, pods, daemons, clock, name, a);
    }
    PartsAsSets(after, name, addresses, HeldBy(pods));
    DistinctSize(addresses);
    ThreeParts(AsSet(addresses), HeldIn(addresses, HeldBy(pods)), StampsIn(after, name).Keys);
  }

  lemma StampsOfPool(before: Status, name: string, addresses: seq<string>, a: string)
    requires StampsIn(before, name).Keys <= AsSet(addresses)
    ensures a in StampsIn(before, name) ==> a in addresses
  {
    assert a in StampsIn(before, name).Keys ==> a in AsSet(addresses);
  }

  lemma PartsAsSets(status: Status, pool: string, addresses: seq<string>, held: set<string>)
    requires forall a :: a in StampsIn(status, pool) ==> a in addresses && Bare(a) !in held
    requires forall a :: a in FreeIn(status, pool) <==> a in addresses && Bare(a) !in held
    ensures HeldIn(addresses, held) <= AsSet(addresses)
    ensures StampsIn(status, pool).Keys <= AsSet(addresses) - HeldIn(addresses, held)
    ensures AvailableIn(status, pool) == AsSet(addresses) - HeldIn(addresses, held) - StampsIn(status, pool).Keys
  {
    hide StampsIn, FreeIn;
  }

  lemma ThreeParts(all: set<string>, held: set<string>, pending: set<string>)
    requires held <= all && pending <= all - held
    ensures var available := all - held - pending;
            && held + pending + available == all
            && held !! pending && held !! available && pending !! available
            && |held| + |pending| + |available| == |all|
  {
    SizesAdd(held, pending, all - held - pending);
    assert held + pending + (all - held - pending) == all;
  }

  lemma SizesAdd(x: set<string>, y: set<string>, z: set<string>)
    requires x !! y && x !! z && y !! z
    ensures |x + y + z| == |x| + |y| + |z|
  {
    DisjointSize(x, y);
    DisjointSize(x + y, z);
  }

  lemma DisjointSize(left: set<string>, right: set<string>)
    requires left !! right
    ensures |left + right| == |left| + |right|
  {
  }

  /** Where one address ends up. */
  lemma PartOfPool(before: Status, spec: Spec, pods: seq<Pod>, daemons: seq<string>, clock: Clock, name: string, a: string)
    requires name in PoolNames(spec.pools)
    requires a in StampsIn(before, name) ==> a in AddressesOf(spec.pools, name)
    requires a in AddressesOf(spec.pools, name) ==> Bare(a) !in KeptPools(before, spec)
    ensures var after := Reconciled(before, spec, pods, daemons, clock);
            && (a in StampsIn(after, name) ==> a in AddressesOf(spec.pools, name) && Bare(a) !in HeldBy(pods))
            && (a in FreeIn(after, name) <==> a in AddressesOf(spec.pools, name) && Bare(a) !in HeldBy(pods))
  {
    WithoutKeeps(AddressesOf(spec.pools, name), KeptPools(before, spec) + HeldBy(pods), a);
  }

  // ---------------------------------------------------------------- Idempotence

  /** A second pass over the same listing and clock changes nothing. */
  lemma ReconcileTwice(before: Status, spec: Spec, pods: seq<Pod>, daemons: seq<string>, clock: Clock)
    ensures var after := Reconciled(before, spec, pods, daemons, clock);
            Reconciled(after, spec, pods, daemons, clock) == after
  {
    var after := Reconciled(before, spec, pods, daemons, clock);
    var again := Reconciled(after, spec, pods, daemons, clock);
    assert KeptPools(after, spec) == KeptPools(before, spec);
    forall name | name in after.pendingIPs ensures again.pendingIPs[name] == after.pendingIPs[name] {
      assert again.pendingIPs[name].Keys == after.pendingIPs[name].Keys;
    }
    assert again.freeIPs == after.freeIPs;
    assert again.pendingIPs == after.pendingIPs;
    assert again.links == after.links;
  }

  // ---------------------------------------------------------------- Stamps and time

  /** The longest wait, in nanoseconds, that no stamp falls short of: 35 s less what
      writing the time in whole seconds can take away. */
  const GRACE: int := 34 * SECOND + 1

  /** A bound on the wait is safe for every grant time exactly when it is at most `GRACE`. */
  lemma GraceIsExact(bound: int)
    ensures (forall granted, now :: InTime(bound, granted, now)) <==> bound <= GRACE
  {
    if bound <= GRACE {
      forall granted, now ensures InTime(bound, granted, now) {
        assert granted < (granted / SECOND + 1) * SECOND;
      }
    } else {
      var granted := SECOND - 1;
      assert StampOf(granted).sec == 0;
      assert !InTime(bound, granted, granted + bound);
    }
  }

  /** A clock reading within `bound` of the grant does not find the stamp lapsed. */
  predicate InTime(bound: int, granted: int, now: int) {
    now <= granted + bound ==> now <= Deadline(StampOf(granted).sec)
  }

  /** Why a stamp is gone after a pass: its pool was dropped, the stamp was unreadable, a
      listed pod holds the address, or the clock reading was past the deadline; and for
      one of these reasons only. */
  lemma StampDroppedWhen(before: Status, spec: Spec, pods: seq<Pod>, daemons: seq<string>, clock: Clock, pool: string, ip: string)
    requires ip in StampsIn(before, pool)
    ensures var after := Reconciled(before, spec, pods, daemons, clock);
            var stamp := StampsIn(before, pool)[ip];
            && (ip !in StampsIn(after, pool) <==>
                || (pool in before.freeIPs && pool !in PoolNames(spec.pools))
                || stamp.Unreadable?
                || Bare(ip) in HeldBy(pods)
                || clock(pool, ip) > Deadline(stamp.sec))
            && (ip in StampsIn(after, pool) ==> StampsIn(after, pool)[ip] == stamp)
  {
  }

  /** The first pass that reads the clock past the deadline makes an abandoned address
      allocatable, if the specification still lists it and it is not spelled like a pool;
      and then the next grant from the pool is not refused. */
  lemma AbandonedIsReclaimed(before: Status, spec: Spec, pods: seq<Pod>, daemons: seq<string>, clock: Clock, pool: string, ip: string)
    requires pool in PoolNames(spec.pools) && ip in AddressesOf(spec.pools, pool)
    requires Bare(ip) !in HeldBy(pods) && Bare(ip) !in KeptPools(before, spec)
    requires ip in StampsIn(before, pool) && StampsIn(before, pool)[ip].At?
    ensures var after := Reconciled(before, spec, pods, daemons, clock);
            && (Allocatable(after, pool, ip) <==> clock(pool, ip) > Deadline(StampsIn(before, pool)[ip].sec))
            && (Allocatable(after, pool, ip) ==> Offer(after, pool).Some?)
  {
    var after := Reconciled(before, spec, pods, daemons, clock);
    StampDroppedWhen(before, spec, pods, daemons, clock, pool, ip);
    WithoutKeeps(AddressesOf(spec.pools, pool), KeptPools(before, spec) + HeldBy(pods), ip);
    if Allocatable(after, pool, ip) {
      AllocatableIsOffered(after, pool, ip);
    }
  }

  // ---------------------------------------------------------------- Grants

  lemma AllocatableIsOffered(status: Status, pool: string, ip: string)
    requires Allocatable(status, pool, ip)
    ensures Offer(status, pool).Some?
  {
    var free := FreeIn(status, pool);
    var i :| 0 <= i < |free| && free[i] == ip;
    assert free[i] !in StampsIn(status, pool);
  }

  /** The pick is the earliest entry that is not pending. */
  lemma {:induction false} FirstFreeIsFirst(pool: seq<string>, pending: map<string, Stamp>, ip: string)
    ensures FirstFree(pool, pending) == Some(ip) <==>
            exists i :: 0 <= i < |pool| && pool[i] == ip && ip !in pending && forall j :: 0 <= j < i ==> pool[j] in pending
  {
    if pool != [] && pool[0] in pending {
      FirstFreeIsFirst(pool[1..], pending, ip);
      if i :| 0 <= i < |pool[1..]| && pool[1..][i] == ip && ip !in pending && forall j :: 0 <= j < i ==> pool[1..][j] in pending {
        assert pool[i + 1] == ip;
        assert forall j :: 0 <= j < i + 1 ==> pool[j] in pending by {
          forall j | 0 <= j < i + 1 ensures pool[j] in pending {
            if j > 0 {
              assert pool[1..][j - 1] in pending;
            }
          }
        }
      }
      if i :| 0 <= i < |pool| && pool[i] == ip && ip !in pending && forall j :: 0 <= j < i ==> pool[j] in pending {
        assert pool[1..][i - 1] == ip;
        assert forall j :: 0 <= j < i - 1 ==> pool[1..][j] in pending;
      }
    }
  }

  /** A grant takes an allocatable address, adds that one stamp and touches nothing else;
      a refusal means that nothing in the pool was allocatable. */
  lemma GrantIsMinimal(before: Status, pool: string, stamp: Stamp)
    ensures Offer(before, pool).None? <==> forall ip :: !Allocatable(before, pool, ip)
    ensures var offer := Offer(before, pool);
            offer.Some? ==>
              var after := Granted(before, pool, offer.value, stamp);
              && Allocatable(before, pool, offer.value)
              && !Allocatable(after, pool, offer.value)
              && StampsIn(after, pool).Keys == StampsIn(before, pool).Keys + {offer.value}
              && StampsIn(after, pool)[offer.value] == stamp
              && (forall ip :: ip in StampsIn(before, pool) ==> StampsIn(after, pool)[ip] == StampsIn(before, pool)[ip])
              && (forall other :: other != pool ==> StampsIn(after, other) == StampsIn(before, other))
              && after.freeIPs == before.freeIPs
              && after.links == before.links && after.shortState == before.shortState
  {
    var offer := Offer(before, pool);
    if offer.None? {
      var free := FreeIn(before, pool);
      forall ip ensures !Allocatable(before, pool, ip) {
        if ip in free {
          var i :| 0 <= i < |free| && free[i] == ip;
        }
      }
    } else {
      assert Allocatable(before, pool, offer.value);
    }
  }
}
