/** How tight the conditions of the allocation protocol are: beyond its time bound, or with pods
    that claim addresses of their own, two pods get one address. */
module ProtocolBound {
  import opened Wrappers
  import opened Kube
  import opened Network
  import opened Text
  import opened Ipam
  import opened IpamFacts
  import opened PodPatch
  import opened Protocol
  import ProtocolTheorems

  lemma Extend(cfg: Config, states: seq<System>, steps: seq<Step>, step: Step) returns (states': seq<System>, steps': seq<Step>)
    requires IsRun(cfg, states, steps)
    requires Enabled(cfg, states[|states| - 1], step)
    ensures IsRun(cfg, states', steps') && |states'| > 0
    ensures states'[|states'| - 1] == After(cfg, states[|states| - 1], step)
  {
    hide Enabled, After, Init;
    states', steps' := states + [After(cfg, states[|states| - 1], step)], steps + [step];
    forall i | 0 <= i < |steps'| ensures Next(cfg, states'[i], steps'[i], states'[i + 1]) {
      assert i < |steps| ==> Next(cfg, states[i], steps[i], states[i + 1]);
    }
  }

  // The smallest network there is: one pool `p` with one address `a`.

  predicate Plain(p: string, a: string) {
    a != "" && '/' !in a && a != p
  }

  function OnePool(p: string, a: string): Spec {
    Spec([Pool(p, [a])], 0, Nil, None, Nil)
  }

  function Idle(p: string, a: string): Status {
    Status(map[p := [a]], map[p := map[]], map[], "")
  }

  lemma OnePoolFacts(p: string, a: string)
    requires Plain(p, a)
    ensures Bare(a) == a
    ensures PoolNames(OnePool(p, a).pools) == {p} && AddressesOf(OnePool(p, a).pools, p) == [a]
    ensures Offer(Idle(p, a), p) == Some(a)
  {
    assert OnePool(p, a).pools[0].name == p;
  }

  lemma PassFillsPool(p: string, a: string, before: Status, pods: seq<Pod>, clock: Clock)
    requires Plain(p, a) && a !in HeldBy(pods)
    requires before.freeIPs.Keys <= {p} && before.pendingIPs.Keys <= {p}
    ensures KeptPools(before, OnePool(p, a)) == {p}
    ensures Reconciled(before, OnePool(p, a), pods, [], clock).freeIPs == map[p := [a]]
  {
    hide Reconciled, Without, PoolNames, AddressesOf, KeptPools, HeldBy, OnePool, Idle, Offer, Bare;
    OnePoolFacts(p, a);
    OnlyPoolKept(p, a, before);
    WithoutOne(a, HeldBy(pods));
    FreeAgrees(before, OnePool(p, a), pods, [], clock, p);
  }

  lemma OnlyPoolKept(p: string, a: string, before: Status)
    requires Plain(p, a) && before.pendingIPs.Keys <= {p}
    ensures KeptPools(before, OnePool(p, a)) == {p}
  {
    OnePoolFacts(p, a);
    hide PoolNames, OnePool;
  }

  /** A pass that lists no holder of the address and finds every stamp lapsed leaves the
      network idle. */
  lemma PassMakesIdle(p: string, a: string, before: Status, pods: seq<Pod>, clock: Clock, now: int)
    requires Plain(p, a) && a !in HeldBy(pods)
    requires before.freeIPs.Keys <= {p} && before.pendingIPs.Keys <= {p}
    requires before.links == map[] && before.shortState == ""
    requires NoneSurvives(p, before, now) && forall ip :: clock(p, ip) == now
    ensures Reconciled(before, OnePool(p, a), pods, [], clock) == Idle(p, a)
  {
    PassFillsPool(p, a, before, pods, clock);
    AllExpire(p, before, HeldBy(pods), clock, now);
    PassEmptiesPending(p, a, before, pods, clock);
    PassKeepsNoLinks(before, OnePool(p, a), pods, clock);
    hide Reconciled, HeldBy, KeptPools, SurvivingStamps, NoneSurvives, OnePool;
  }

  lemma PassEmptiesPending(p: string, a: string, before: Status, pods: seq<Pod>, clock: Clock)
    requires KeptPools(before, OnePool(p, a)) == {p}
    requires SurvivingStamps(p, StampsIn(before, p), HeldBy(pods), clock) == map[]
    ensures Reconciled(before, OnePool(p, a), pods, [], clock).pendingIPs == map[p := map[]]
  {
    hide Without, AddressesOf, KeptPools, HeldBy, PoolNames, SurvivingStamps, StampsIn, OnePool;
  }

  lemma PassKeepsNoLinks(before: Status, spec: Spec, pods: seq<Pod>, clock: Clock)
    requires before.links == map[]
    ensures Reconciled(before, spec, pods, [], clock).links == map[]
    ensures Reconciled(before, spec, pods, [], clock).shortState == before.shortState
  {
    hide Without, AddressesOf, KeptPools, HeldBy, PoolNames, SurvivingStamps, StampsIn;
  }

  predicate NoneSurvives(p: string, status: Status, now: int) {
    forall ip :: ip in StampsIn(status, p) ==> !Survives(ip, StampsIn(status, p)[ip], {}, now)
  }

  lemma AllExpire(p: string, status: Status, held: set<string>, clock: Clock, now: int)
    requires NoneSurvives(p, status, now) && forall ip :: clock(p, ip) == now
    ensures SurvivingStamps(p, StampsIn(status, p), held, clock) == map[]
  {
    hide StampsIn, Bare;
  }

  function OnePoolConfig(p: string, visibleBy: int, lag: int, claims: bool): Config {
    Config(_ => p, bare => bare, visibleBy, lag, claims)
  }

  const BASE := Pod("", map[], [], [], None)
  const PATCH := Patch("", None, "", "", "", "", "")

  function FirstPod(p: string, a: string, granted: int, base: Pod): PodEntry {
    PodEntry(InFlight, NotYet, p, a, granted, Patched(base, PATCH.(ip := a)))
  }

  // ---------------------------------------------------------------- Stretches of runs

  lemma ReadToGrant(cfg: Config, p: string, base: Pod, states: seq<System>, steps: seq<Step>)
    returns (states': seq<System>, steps': seq<Step>)
    requires IsRun(cfg, states, steps) && (ClaimsAddress(base) ==> cfg.claims)
    requires var s := states[|states| - 1];
             s.writers == map[] && |s.history| > 0
    ensures IsRun(cfg, states', steps') && |states'| > 0
    ensures var s := states[|states| - 1];
            states'[|states'| - 1] == s.(writers := map[0 := Granting(|s.history| - 1, s.Current(), p, base)])
  {
    var s := states[|states| - 1];
    hide IsRun, ClaimsAddress;
    states', steps' := Extend(cfg, states, steps, ReadForGrant(0, |s.history| - 1, p, base));
  }

  /** The commit of a webhook that has read the committed version. */
  lemma GrantStep(cfg: Config, s: System, pod: nat, p: string, a: string, base: Pod)
    requires |s.history| > 0 && s.writers == map[0 := Granting(|s.history| - 1, s.Current(), p, base)]
    requires Offer(s.Current().status, p) == Some(a) && pod !in s.pods && cfg.visibleBy >= 0
    ensures var commit := CommitGrant(0, pod, s.now, PATCH.(ip := a), true);
            && Enabled(cfg, s, commit)
            && After(cfg, s, commit) == System(
                 s.history + [Version(s.Current().spec, Granted(s.Current().status, p, a, StampOf(s.now)))],
                 s.pods[pod := FirstPod(p, a, s.now, base)], map[], s.now)
  {
    hide Offer, Granted, Patched;
    assert s.writers - {0} == map[];
  }

  /** A webhook that reads an idle network gets its address. */
  lemma GrantFromIdle(cfg: Config, p: string, a: string, base: Pod, states: seq<System>, steps: seq<Step>, pod: nat)
    returns (states': seq<System>, steps': seq<Step>)
    requires Plain(p, a) && cfg.visibleBy >= 0 && IsRun(cfg, states, steps) && (ClaimsAddress(base) ==> cfg.claims)
    requires var s := states[|states| - 1];
             && s.writers == map[] && pod !in s.pods && |s.history| > 0
             && s.Current() == Version(OnePool(p, a), Idle(p, a))
    ensures IsRun(cfg, states', steps') && |states'| > 0
    ensures var s, s' := states[|states| - 1], states'[|states'| - 1];
            s' == System(
              s.history + [Version(OnePool(p, a), Granted(Idle(p, a), p, a, StampOf(s.now)))],
              s.pods[pod := FirstPod(p, a, s.now, base)], map[], s.now)
  {
    OnePoolFacts(p, a);
    hide IsRun, Offer, Granted, FirstPod, OnePool, Idle, Enabled, After, ClaimsAddress;
    states', steps' := ReadToGrant(cfg, p, base, states, steps);
    var s := states'[|states'| - 1];
    GrantStep(cfg, s, pod, p, a, base);
    states', steps' := Extend(cfg, states', steps', CommitGrant(0, pod, s.now, PATCH.(ip := a), true));
  }

  /** A reconciler reads the committed version and lists the pods of the view. */
  lemma ReadAndList(cfg: Config, pods: seq<Pod>, states: seq<System>, steps: seq<Step>)
    returns (states': seq<System>, steps': seq<Step>)
    requires IsRun(cfg, states, steps)
    requires var s := states[|states| - 1];
             s.writers == map[] && |s.history| > 0 && ListsView(s, pods)
    ensures IsRun(cfg, states', steps') && |states'| > 0
    ensures var s := states[|states| - 1];
            states'[|states'| - 1] == s.(writers := map[0 := Listed(|s.history| - 1, s.Current(), pods, s.now)])
  {
    var s := states[|states| - 1];
    hide IsRun;
    states', steps' := Extend(cfg, states, steps, ReadForReconcile(0, |s.history| - 1));
    states', steps' := Extend(cfg, states', steps', ListPods(0, pods));
  }

  lemma NothingToList(s: System)
    requires forall id :: id in s.pods ==> !s.pods[id].view.Shown?
    ensures ListsView(s, [])
  {
  }

  /** The reconciler has read `seen`, which is still committed, and is within its lag; no pod it
      listed holds the address, and every stamp has lapsed. */
  ghost predicate ReadyToIdle(cfg: Config, s: System, p: string, a: string, pods: seq<Pod>, listedAt: int) {
    && Plain(p, a) && a !in HeldBy(pods)
    && |s.history| > 0 && s.writers == map[0 := Listed(|s.history| - 1, s.Current(), pods, listedAt)]
    && s.now <= listedAt + cfg.lag && s.Current().spec == OnePool(p, a)
    && ReadyStatus(p, s.Current().status, s.now)
  }

  predicate ReadyStatus(p: string, status: Status, now: int) {
    && status.freeIPs.Keys <= {p} && status.pendingIPs.Keys <= {p}
    && status.links == map[] && status.shortState == "" && NoneSurvives(p, status, now)
  }

  lemma IdleStep(cfg: Config, s: System, p: string, a: string, pods: seq<Pod>, listedAt: int) returns (step: Step)
    requires ReadyToIdle(cfg, s, p, a, pods, listedAt)
    ensures Enabled(cfg, s, step)
    ensures After(cfg, s, step) == s.(history := s.history + [Version(OnePool(p, a), Idle(p, a))], writers := map[])
  {
    var now := s.now;
    var clock: Clock := (pool, ip) => now;
    step := CommitReconcile(0, [], clock);
    hide Reconciled, Idle, OnePool, HeldBy, NoneSurvives;
    PassMakesIdle(p, a, s.Current().status, pods, clock, now);
    assert s.writers - {0} == map[];
  }

  /** The commit of such a reconciler. */
  lemma CommitIdle(cfg: Config, p: string, a: string, pods: seq<Pod>, states: seq<System>, steps: seq<Step>, listedAt: int)
    returns (states': seq<System>, steps': seq<Step>)
    requires IsRun(cfg, states, steps) && ReadyToIdle(cfg, states[|states| - 1], p, a, pods, listedAt)
    ensures IsRun(cfg, states', steps') && |states'| > 0
    ensures var s := states[|states| - 1];
            states'[|states'| - 1] ==
              s.(history := s.history + [Version(OnePool(p, a), Idle(p, a))], writers := map[])
  {
    var step := IdleStep(cfg, states[|states| - 1], p, a, pods, listedAt);
    hide IsRun, ReadyToIdle, Enabled, After;
    states', steps' := Extend(cfg, states, steps, step);
  }

  lemma StartsRun(cfg: Config, p: string, a: string, s: System)
    requires Plain(p, a) && cfg.home(a) == p && cfg.form(a) == a
    requires s == System([Version(OnePool(p, a), Status(map[], map[], map[], ""))], map[], map[], SECOND - 1)
    ensures IsRun(cfg, [s], [])
  {
    OnePoolFacts(p, a);
  }

  lemma StartIdle(cfg: Config, p: string, a: string) returns (states: seq<System>, steps: seq<Step>)
    requires Plain(p, a) && cfg.lag >= 0 && cfg.home(a) == p && cfg.form(a) == a
    ensures IsRun(cfg, states, steps) && |states| > 0
    ensures var s := states[|states| - 1];
            && s.writers == map[] && s.pods == map[] && |s.history| > 0
            && s.Current() == Version(OnePool(p, a), Idle(p, a)) && s.now == SECOND - 1
  {
    var empty := Version(OnePool(p, a), Status(map[], map[], map[], ""));
    states, steps := [System([empty], map[], map[], SECOND - 1)], [];
    StartsRun(cfg, p, a, states[0]);
    NothingToList(states[0]);
    hide IsRun, Idle, Reconciled, OnePool, ListsView;
    states, steps := ReadAndList(cfg, [], states, steps);
    states, steps := CommitIdle(cfg, p, a, [], states, steps, SECOND - 1);
  }

  lemma TickTo(cfg: Config, states: seq<System>, steps: seq<Step>, time: int) returns (states': seq<System>, steps': seq<Step>)
    requires IsRun(cfg, states, steps)
    requires var s := states[|states| - 1];
             && |s.history| > 0 && s.now <= time
             && forall id :: id in s.pods && s.pods[id].view.NotYet? ==> time <= s.pods[id].granted + cfg.visibleBy
    ensures IsRun(cfg, states', steps') && |states'| > 0
    ensures states'[|states'| - 1] == states[|states| - 1].(now := time)
  {
    var s := states[|states| - 1];
    hide IsRun;
    if s.now < time {
      states', steps' := Extend(cfg, states, steps, Tick(time));
    } else {
      states', steps' := states, steps;
    }
  }

  lemma StampHasLapsed(p: string, a: string, now: int)
    requires now > SECOND - 1 + GRACE
    ensures var status := Granted(Idle(p, a), p, a, StampOf(SECOND - 1));
            ReadyStatus(p, status, now)
  {
  }

  // ---------------------------------------------------------------- Collisions

  /** As soon as the bound is missed by a nanosecond, a run of a network with one address ends
      with two pods that both hold it. */
  lemma LatePodsCollide(p: string, a: string, visibleBy: int, lag: int, claims: bool)
    returns (cfg: Config, states: seq<System>, steps: seq<Step>)
    requires Plain(p, a) && visibleBy >= 0 && lag >= 0 && visibleBy + lag > GRACE
    ensures cfg.visibleBy == visibleBy && cfg.lag == lag && cfg.claims == claims
    ensures IsRun(cfg, states, steps) && |states| > 0 && BothHold(states[|states| - 1], a)
  {
    cfg := OnePoolConfig(p, visibleBy, lag, claims);
    NoClaimInBase();
    hide IsRun, Granted, Patched, OnePool, Idle, NoneSurvives, ClaimsAddress, HeldBy, Offer;
    states, steps := StartIdle(cfg, p, a);
    states, steps := GrantFromIdle(cfg, p, a, BASE, states, steps, 0);
    var granted := states[|states| - 1];
    states, steps := Extend(cfg, states, steps, CreatePod(0));
    states, steps := TickTo(cfg, states, steps, granted.now + visibleBy);
    NothingToList(states[|states| - 1]);
    states, steps := ReadAndList(cfg, [], states, steps);
    states, steps := Extend(cfg, states, steps, ShowPod(0));
    states, steps := TickTo(cfg, states, steps, granted.now + visibleBy + lag);
    StampHasLapsed(p, a, granted.now + visibleBy + lag);
    states, steps := CommitIdle(cfg, p, a, [], states, steps, granted.now + visibleBy);
    states, steps := GrantFromIdle(cfg, p, a, BASE, states, steps, 1);
  }

  predicate BothHold(s: System, a: string) {
    && 0 in s.pods && 1 in s.pods
    && !s.pods[0].life.Dead? && !s.pods[1].life.Dead?
    && s.pods[0].ip == a == s.pods[1].ip
  }

  lemma NoClaimInBase()
    ensures !ClaimsAddress(BASE) && HeldBy([]) == {}
  {
  }

  /** A single pod that claims another address than the one it is granted suffices, however
      soon it shows up: the reconciler sees the claim, takes the grant for abandoned, and the
      next pod gets it. */
  lemma ClaimedPodsCollide(p: string, a: string, base: Pod, visibleBy: int, lag: int)
    returns (cfg: Config, states: seq<System>, steps: seq<Step>)
    requires Plain(p, a) && visibleBy >= 0 && lag >= 0
    requires ClaimsAddress(base) && Bare(Claim(base)) != a
    ensures cfg.visibleBy == visibleBy && cfg.lag == lag && cfg.claims
    ensures IsRun(cfg, states, steps) && |states| > 0 && BothHold(states[|states| - 1], a)
  {
    cfg := OnePoolConfig(p, visibleBy, lag, true);
    NoClaimInBase();
    hide IsRun, Granted, Patched, OnePool, Idle, NoneSurvives, ClaimsAddress, HeldBy, Offer, ListsView;
    states, steps := StartIdle(cfg, p, a);
    states, steps := GrantFromIdle(cfg, p, a, base, states, steps, 0);
    var granted := states[|states| - 1];
    states, steps := Extend(cfg, states, steps, CreatePod(0));
    states, steps := Extend(cfg, states, steps, ShowPod(0));
    var late := granted.now + GRACE + 1;
    states, steps := TickTo(cfg, states, steps, late);
    var record := granted.pods[0].record;
    OneToList(states[|states| - 1], record);
    ClaimHides(base, a, record);
    states, steps := ReadAndList(cfg, [record], states, steps);
    StampHasLapsed(p, a, late);
    states, steps := CommitIdle(cfg, p, a, [record], states, steps, late);
    states, steps := GrantFromIdle(cfg, p, a, BASE, states, steps, 1);
  }

  lemma OneToList(s: System, record: Pod)
    requires 0 in s.pods && s.pods.Keys == {0} && s.pods[0].view.Shown? && s.pods[0].record == record
    ensures ListsView(s, [record])
  {
    assert record in [record];
  }

  lemma ClaimHides(base: Pod, a: string, record: Pod)
    requires ClaimsAddress(base) && Bare(Claim(base)) != a && record == Patched(base, PATCH.(ip := a))
    ensures a !in HeldBy([record])
  {
    ExistingClaimWins(base, PATCH.(ip := a));
  }

  /** Within the bound pods do get addresses: a run in which one is granted, live and seen. */
  lemma TimelyPodsGetAddresses(p: string, a: string, visibleBy: int, lag: int)
    returns (cfg: Config, states: seq<System>, steps: seq<Step>)
    requires Plain(p, a) && visibleBy >= 0 && lag >= 0 && visibleBy + lag <= GRACE
    ensures Safe(cfg) && cfg.visibleBy == visibleBy && cfg.lag == lag
    ensures IsRun(cfg, states, steps) && |states| > 0
    ensures var s := states[|states| - 1];
            0 in s.pods && s.pods[0].life.Live? && s.pods[0].view.Shown? && s.pods[0].ip == a
  {
    cfg := OnePoolConfig(p, visibleBy, lag, false);
    NoClaimInBase();
    hide IsRun, Granted, Patched, OnePool, Idle, ClaimsAddress, HeldBy;
    states, steps := StartIdle(cfg, p, a);
    states, steps := GrantFromIdle(cfg, p, a, BASE, states, steps, 0);
    states, steps := Extend(cfg, states, steps, CreatePod(0));
    states, steps := Extend(cfg, states, steps, ShowPod(0));
  }

  // ---------------------------------------------------------------- The exact condition

  ghost predicate Collides(s: System) {
    exists p, q ::
      && p in s.pods && q in s.pods && p != q
      && !s.pods[p].life.Dead? && !s.pods[q].life.Dead?
      && Bare(s.pods[p].ip) == Bare(s.pods[q].ip)
  }

  /** Two pods with one address can be reached with this deadline, this lag and these pods. */
  ghost predicate CanCollide(visibleBy: int, lag: int, claims: bool) {
    exists cfg: Config, states, steps, i: nat ::
      && cfg.visibleBy == visibleBy && cfg.lag == lag && cfg.claims == claims
      && IsRun(cfg, states, steps) && i < |states| && Collides(states[i])
  }

  /** Addresses stay unique in every run exactly when a pod's deadline and a pass's lag add up
      to at most 34 seconds and a nanosecond, and no pod claims an address of its own. */
  lemma UniqueExactlyWhenSafe(visibleBy: int, lag: int, claims: bool)
    requires visibleBy >= 0 && lag >= 0
    ensures CanCollide(visibleBy, lag, claims) <==> visibleBy + lag > GRACE || claims
  {
    hide IsRun, Collides, BothHold;
    if visibleBy + lag > GRACE {
      var cfg, states, steps := LatePodsCollide("p", "a", visibleBy, lag, claims);
      BothCollide(states[|states| - 1], "a");
    } else if claims {
      var base := ClaimingPod("b");
      var cfg, states, steps := ClaimedPodsCollide("p", "a", base, visibleBy, lag);
      BothCollide(states[|states| - 1], "a");
    } else {
      forall cfg: Config, states, steps, i: nat
        | cfg.visibleBy == visibleBy && cfg.lag == lag && cfg.claims == claims && IsRun(cfg, states, steps) && i < |states|
        ensures !Collides(states[i])
      {
        SafeRunsDoNot(cfg, states, steps, i);
      }
    }
  }

  lemma ClaimingPod(claim: string) returns (base: Pod)
    ensures ClaimsAddress(base) && Claim(base) == claim
  {
    var env := [EnvVar("MACVLAN_IP", claim)];
    base := BASE.(initContainers := [Container("", "", "", env)]);
    assert base.initContainers[..0] == [] && AllEnv(base.initContainers) == [] + env == env;
    assert env[0].name == "MACVLAN_IP";
  }

  lemma BothCollide(s: System, a: string)
    requires BothHold(s, a)
    ensures Collides(s)
  {
  }

  lemma SafeRunsDoNot(cfg: Config, states: seq<System>, steps: seq<Step>, i: nat)
    requires Safe(cfg) && IsRun(cfg, states, steps) && i < |states|
    ensures !Collides(states[i])
  {
    hide IsRun;
    forall p, q
      | p in states[i].pods && q in states[i].pods && p != q && !states[i].pods[p].life.Dead? && !states[i].pods[q].life.Dead?
      ensures Bare(states[i].pods[p].ip) != Bare(states[i].pods[q].ip)
    {
      ProtocolTheorems.NoTwoPodsShareAnAddress(cfg, states, steps, i, p, q);
    }
  }
}
