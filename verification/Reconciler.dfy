/** A whole pass of the manager reconciler, and what a run of passes comes to. */
module Reconciler {
  import opened Wrappers
  import opened Network
  import opened Text
  import opened ManagerCodec
  import opened Sorting
  import opened StateDiff
  import opened DiffFacts
  import opened Convergence

  /** One pass: what it listed, the sorted lists it compared, and how its actions ended. */
  datatype Pass = Pass(
    vlans: seq<Resource>, managers: seq<DaemonSet>,
    desired: seq<ManagerSet>, current: seq<ManagerSet>, conns: seq<NetState>,
    spawns: seq<Action>, endings: seq<Ending>)

  function ActionsOf(p: Pass): seq<Action> {
    p.spawns + OwnActions(p)
  }

  /** The actions on managers. */
  function OwnActions(p: Pass): seq<Action> {
    ManagerActions(p.desired, p.current, p.conns)
  }

  /** The pass compares sorted permutations of what was listed and wanted. */
  ghost predicate Compares(p: Pass, networks: seq<Resource>) {
    && (forall d :: d in p.managers ==> |d.containers| > 0)
    && ReadAll(p.managers).Ok?
    && SortedBy(p.desired, OwnerKey) && multiset(p.desired) == multiset(DesiredOf(networks))
    && SortedBy(p.current, OwnerKey) && multiset(p.current) == multiset(ReadAll(p.managers).value)
    && multiset(p.conns) == multiset(StatesOf(p.vlans))
    && multiset(p.spawns) == SpawnBag(StatesOf(p.vlans))
    && |p.endings| == |ActionsOf(p)|
  }

  datatype PassOutcome = Unreadable(error: string) | Tried(errList: seq<nat>)

  /** One DaemonSet that cannot be read stops the pass before anything is changed. Otherwise
      every action is tried, and the errors are those of the actions that failed. */
  method ReconcileNetwork(cluster: Cluster, networks: seq<Resource>, vlans: seq<Resource>, managers: seq<DaemonSet>,
                          calls: nat -> Calls, e: Envs)
    returns (outcome: PassOutcome, ghost p: Pass)
    requires forall d :: d in managers ==> |d.containers| > 0
    modifies cluster
    ensures outcome.Unreadable? <==> ReadAll(managers).Err?
    ensures outcome.Unreadable? ==> cluster.sets == old(cluster.sets)
    ensures outcome.Tried? ==>
              && p.vlans == vlans && p.managers == managers && Compares(p, networks)
              && (forall i :: 0 <= i < |p.endings| ==> p.endings[i] == EndingOf(ActionsOf(p)[i], calls(i)))
              && cluster.sets == AfterAll(old(cluster.sets), ActionsOf(p), p.endings, e)
              && forall i :: i in outcome.errList <==> 0 <= i < |p.endings| && Fails(old(cluster.sets), ActionsOf(p), p.endings, e, i)
  {
    var wanted := CreateDesiredState(networks);
    var found, connStates := GetCurrentState(vlans, managers);
    p := Pass(vlans, managers, [], [], [], [], []);
    if found.Err? {
      return PassOutcome.Unreadable(found.error), p;
    }
    hide ReadAll, StatesOf, DesiredOf, SortedBy, ManagerActions, SpawnBag, AfterAll, Fails, EndingOf;
    var desired := ToArray(wanted);
    var current := ToArray(found.value);
    var conns := ToArray(connStates);
    var acts;
    ghost var spawns;
    acts, spawns := DiffStates(desired, current, conns);
    var answers := seq(|acts|, i requires 0 <= i < |acts| => calls(i));
    p := Pass(vlans, managers, desired[..], current[..], conns[..], spawns, EndingsOf(acts, answers));
    assert acts == ActionsOf(p);
    var errList := RunActions(cluster, acts, answers, e);
    outcome := Tried(errList);
  }

  method ToArray<T>(s: seq<T>) returns (a: array<T>)
    ensures fresh(a) && a[..] == s
  {
    a := new T[|s|](i requires 0 <= i < |s| => s[i]);
  }

  // ---------------------------------------------------------------- What every pass keeps

  /** Each DaemonSet can be read and is named after the manager that it stores. */
  ghost predicate WellKept(sets: Sets) {
    forall k :: k in sets ==>
      && sets[k].name == k && |sets[k].containers| > 0
      && Read(sets[k]).Ok? && k == SetName(Read(sets[k]).value.owner)
  }

  /** The listing shows each DaemonSet once, in any order. */
  ghost predicate Lists(managers: seq<DaemonSet>, sets: Sets) {
    && (forall i, j :: 0 <= i < j < |managers| ==> managers[i].name != managers[j].name)
    && (forall d :: d in managers ==> d.name in sets && sets[d.name] == d)
    && (forall k :: k in sets ==> sets[k] in managers)
  }

  lemma {:induction false} ReadAllOk(managers: seq<DaemonSet>)
    requires forall d :: d in managers ==> |d.containers| > 0 && Read(d).Ok?
    ensures ReadAll(managers).Ok? && |ReadAll(managers).value| == |managers|
    ensures forall i :: 0 <= i < |managers| ==> ReadAll(managers).value[i] == Read(managers[i]).value
  {
    hide Read;
    if managers != [] {
      assert managers[|managers| - 1] in managers;
      ReadAllOk(managers[..|managers| - 1]);
    }
  }

  lemma ListingReads(managers: seq<DaemonSet>, sets: Sets)
    requires WellKept(sets) && Lists(managers, sets)
    ensures forall d :: d in managers ==> |d.containers| > 0
    ensures ReadAll(managers).Ok? && ReadsCluster(ReadAll(managers).value, sets)
  {
    AllAreReadable(managers, sets);
    ReadAllOk(managers);
    hide Read, ReadAll, WellKept, Lists;
    assert ReadingsOf(managers, ReadAll(managers).value) by {
      assert forall i :: 0 <= i < |managers| ==> managers[i] in managers;
    }
    hide ReadingsOf;
    ReadingsAreUnique(managers, sets, ReadAll(managers).value);
    ReadingsCover(managers, sets, ReadAll(managers).value);
  }

  lemma AllAreReadable(managers: seq<DaemonSet>, sets: Sets)
    requires WellKept(sets) && Lists(managers, sets)
    ensures forall d :: d in managers ==> |d.containers| > 0 && Read(d).Ok? && d.name == SetName(Read(d).value.owner)
  {
    hide Read;
  }

  ghost predicate ReadingsOf(managers: seq<DaemonSet>, current: seq<ManagerSet>) {
    && |current| == |managers|
    && forall i :: 0 <= i < |managers| ==>
         |managers[i].containers| > 0 && Read(managers[i]) == Ok(current[i]) && managers[i].name == SetName(current[i].owner)
  }

  lemma ReadingsAreUnique(managers: seq<DaemonSet>, sets: Sets, current: seq<ManagerSet>)
    requires ReadingsOf(managers, current) && Lists(managers, sets)
    ensures UniqueOwners(current)
  {
    hide Read;
    forall i, j | 0 <= i < j < |current| ensures current[i].owner != current[j].owner {
      assert managers[i].name != managers[j].name;
    }
  }

  lemma ReadingsCover(managers: seq<DaemonSet>, sets: Sets, current: seq<ManagerSet>)
    requires WellKept(sets) && ReadingsOf(managers, current) && Lists(managers, sets) && UniqueOwners(current)
    ensures ReadsCluster(current, sets)
  {
    hide Read, UniqueOwners;
    forall k | k in sets ensures Read(sets[k]).value in current {
      var i :| 0 <= i < |managers| && managers[i] == sets[k];
      assert current[i] == Read(sets[k]).value;
    }
    forall m | m in current ensures SetName(m.owner) in sets && Read(sets[SetName(m.owner)]) == Ok(m) {
      var i :| 0 <= i < |current| && current[i] == m;
      assert managers[i] in managers;
    }
  }

  lemma EffectKeeps(sets: Sets, a: Action, e: Envs, desired: seq<ManagerSet>)
    requires WellKept(sets) && InRange(desired) && (a.Spawn? || Helps(a, desired))
    ensures WellKept(Effect(sets, a, e))
  {
    if a.Create? || a.Update? {
      ReadWritten(a.manager, e);
    }
    hide Read;
  }

  lemma {:induction false} RunKeeps(sets: Sets, acts: seq<Action>, endings: seq<Ending>, e: Envs, desired: seq<ManagerSet>)
    requires |acts| == |endings| && WellKept(sets) && InRange(desired)
    requires forall a :: a in acts ==> a.Spawn? || Helps(a, desired)
    ensures WellKept(AfterAll(sets, acts, endings, e))
  {
    if acts != [] {
      var n := |acts| - 1;
      assert acts[n] in acts && forall a :: a in acts[..n] ==> a in acts;
      RunKeeps(sets, acts[..n], endings[..n], e, desired);
      hide WellKept, Helps, InRange;
      EffectKeeps(AfterAll(sets, acts[..n], endings[..n], e), acts[n], e, desired);
    }
  }

  // ---------------------------------------------------------------- One pass

  /** Each network is wanted once, with a number that fits 64 bits. */
  ghost predicate Wanting(networks: seq<Resource>) {
    && (forall i, j :: 0 <= i < j < |networks| ==> networks[i].name != networks[j].name)
    && (forall n :: n in networks ==> IsInt64(n.spec.vlanID))
  }

  lemma WantingDesired(networks: seq<Resource>)
    requires Wanting(networks)
    ensures UniqueOwners(DesiredOf(networks)) && InRange(DesiredOf(networks))
  {
    var desired := DesiredOf(networks);
    forall m | m in desired ensures IsInt64(m.vlanID) {
      var i :| 0 <= i < |desired| && desired[i] == m;
      assert networks[i] in networks;
    }
  }

  /** The network has its DaemonSet, and that reads as what the network asks for. */
  ghost predicate ServesOne(sets: Sets, n: Resource) {
    && SetName(n.name) in sets && |sets[SetName(n.name)].containers| > 0
    && Read(sets[SetName(n.name)]) == Ok(ManagerSet(n.name, n.spec.vlanID, n.spec.gateways, n.spec.affinity, Of([])))
  }

  function NetworkKeys(networks: seq<Resource>): set<string> {
    set n | n in networks :: SetName(n.name)
  }

  /** Every network is served, and there is no other DaemonSet. */
  ghost predicate Serves(sets: Sets, networks: seq<Resource>) {
    sets.Keys == NetworkKeys(networks) && forall n :: n in networks ==> ServesOne(sets, n)
  }

  /** The DaemonSet names of networks that are not served, and those that no network wants. */
  ghost function Unserved(sets: Sets, networks: seq<Resource>): set<string> {
    (set n | n in networks && !ServesOne(sets, n) :: SetName(n.name)) + (sets.Keys - NetworkKeys(networks))
  }

  /** The manager that a network asks for. */
  predicate IsWanted(m: ManagerSet, r: Resource) {
    && m.owner == r.name && m.vlanID == r.spec.vlanID && m.gateways == r.spec.gateways
    && m.affinity == r.spec.affinity && m.mappings == r.spec.mappings
  }

  lemma DesiredHas(networks: seq<Resource>, m: ManagerSet)
    ensures m in DesiredOf(networks) <==> exists n :: n in networks && IsWanted(m, n)
  {
    var desired := DesiredOf(networks);
    if m in desired {
      var i :| 0 <= i < |desired| && desired[i] == m;
      assert networks[i] in networks && IsWanted(m, networks[i]);
    }
    if n :| n in networks && IsWanted(m, n) {
      var i :| 0 <= i < |networks| && networks[i] == n;
      assert desired[i] == m;
    }
  }

  lemma MatchesServes(sets: Sets, m: ManagerSet, n: Resource)
    requires IsWanted(m, n)
    ensures Matches(sets, m) <==> ServesOne(sets, n)
    ensures SetName(m.owner) == SetName(n.name)
  {
  }

  /** What is wrong with the desired managers is what is wrong with the networks. */
  lemma WrongIsUnserved(sets: Sets, networks: seq<Resource>)
    ensures DesiredKeys(DesiredOf(networks)) == NetworkKeys(networks)
    ensures Wrong(sets, DesiredOf(networks)) == Unserved(sets, networks)
    ensures Settled(sets, DesiredOf(networks)) <==> Serves(sets, networks)
  {
    var desired := DesiredOf(networks);
    hide Matches, ServesOne, DesiredOf;
    forall m | m in desired ensures exists n :: n in networks && IsWanted(m, n) {
      DesiredHas(networks, m);
    }
    forall n | n in networks ensures DesiredManager(n.name, n.spec) in desired && IsWanted(DesiredManager(n.name, n.spec), n) {
      DesiredHas(networks, DesiredManager(n.name, n.spec));
    }
    forall m, n | IsWanted(m, n) ensures (Matches(sets, m) <==> ServesOne(sets, n)) && SetName(m.owner) == SetName(n.name) {
      MatchesServes(sets, m, n);
    }
    hide IsWanted, DesiredManager, SetName;
    assert DesiredKeys(desired) == NetworkKeys(networks);
  }

  /** A pass over the cluster `sets`, and the cluster after it. */
  ghost predicate PassStep(sets: Sets, p: Pass, networks: seq<Resource>, e: Envs, after: Sets) {
    && Lists(p.managers, sets) && Compares(p, networks)
    && AllNetworksListed(DesiredOf(networks), StatesOf(p.vlans))
    && after == AfterAll(sets, ActionsOf(p), p.endings, e)
  }

  predicate IsCarriedOut(p: Pass, k: nat)
    requires k < |OwnActions(p)| && |p.endings| == |ActionsOf(p)|
  {
    !p.endings[|p.spawns| + k].FailedClean?
  }

  /** An action on a wrong name was carried out. */
  ghost predicate Repairs(sets: Sets, p: Pass, networks: seq<Resource>) {
    && |p.endings| == |ActionsOf(p)|
    && exists k :: 0 <= k < |OwnActions(p)| && IsCarriedOut(p, k) && KeyOf(OwnActions(p)[k]) in Wrong(sets, DesiredOf(networks))
  }

  lemma SameMembers<T>(s: seq<T>, t: seq<T>)
    requires multiset(s) == multiset(t)
    ensures forall x :: x in s <==> x in t
  {
    forall x ensures x in s <==> x in t {
      assert x in multiset(s) <==> x in multiset(t);
    }
  }

  /** The sorted lists stand for the listed ones, and the spawns for nothing. */
  lemma PassIsPlain(sets: Sets, p: Pass, networks: seq<Resource>, e: Envs, after: Sets)
    requires WellKept(sets) && Wanting(networks)
    requires PassStep(sets, p, networks, e, after)
    ensures UniqueOwners(p.desired) && InRange(p.desired) && (forall m :: m in p.desired <==> m in DesiredOf(networks))
    ensures ReadsCluster(p.current, sets) && AllNetworksListed(p.desired, p.conns)
    ensures forall a :: a in p.spawns ==> a.Spawn?
  {
    hide ReadAll, Read, StatesOf, DesiredOf, SpawnBag, SortedBy, WellKept, Lists, ReadsCluster, AfterAll, ManagerActions;
    ListingReads(p.managers, sets);
    CurrentReads(p.current, ReadAll(p.managers).value, sets);
    WantingDesired(networks);
    UniqueAfterSort(DesiredOf(networks), p.desired);
    hide UniqueOwners;
    SameMembers(p.conns, StatesOf(p.vlans));
    assert OneStatePerName(p.conns);
    hide OneStatePerName;
    forall a | a in p.spawns ensures a.Spawn? {
      SpawnsPerPod(StatesOf(p.vlans), a);
      assert a in multiset(p.spawns);
    }
  }

  lemma CurrentReads(sorted: seq<ManagerSet>, listed: seq<ManagerSet>, sets: Sets)
    requires multiset(sorted) == multiset(listed) && ReadsCluster(listed, sets)
    ensures ReadsCluster(sorted, sets)
  {
    UniqueAfterSort(listed, sorted);
  }

  lemma WrongByMembers(sets: Sets, s: seq<ManagerSet>, t: seq<ManagerSet>)
    requires forall m :: m in s <==> m in t
    ensures Wrong(sets, s) == Wrong(sets, t)
  {
    hide Matches;
    assert DesiredKeys(s) == DesiredKeys(t);
  }

  /** Every action of a pass helps, and every call on a manager finds its name. */
  lemma PassHelps(sets: Sets, p: Pass, networks: seq<Resource>, e: Envs, after: Sets)
    requires WellKept(sets) && Wanting(networks) && PassStep(sets, p, networks, e, after)
    ensures UniqueOwners(p.desired) && InRange(p.desired)
    ensures forall a :: a in ActionsOf(p) ==> a.Spawn? || Helps(a, p.desired)
    ensures OnManagers(OwnActions(p))
    ensures forall a :: a in OwnActions(p) ==> CanDo(sets, a)
    ensures forall a :: a in p.spawns ==> a.Spawn?
    ensures forall m :: m in p.desired <==> m in DesiredOf(networks)
  {
    PassIsPlain(sets, p, networks, e, after);
    hide ReadsCluster, UniqueOwners, InRange, WellKept, Lists, PassStep, ManagerActions, Helps, CanDo, OnManagers, DesiredOf, OneStatePerName;
    DiffHelps(sets, p.desired, p.current, p.conns);
  }

  lemma PassKeeps(sets: Sets, p: Pass, networks: seq<Resource>, e: Envs, after: Sets)
    requires WellKept(sets) && Wanting(networks) && PassStep(sets, p, networks, e, after)
    ensures WellKept(after)
  {
    PassHelps(sets, p, networks, e, after);
    hide WellKept, Wanting, Lists, Compares, ActionsOf, Helps, InRange, UniqueOwners, AllNetworksListed, OwnActions, OnManagers, CanDo;
    RunKeeps(sets, ActionsOf(p), p.endings, e, p.desired);
  }

  lemma PassRights(sets: Sets, p: Pass, networks: seq<Resource>, e: Envs, after: Sets)
    requires WellKept(sets) && Wanting(networks) && PassStep(sets, p, networks, e, after)
    ensures Wrong(after, DesiredOf(networks)) == Wrong(sets, DesiredOf(networks)) - Taken(sets, ActionsOf(p), p.endings, e)
  {
    PassHelps(sets, p, networks, e, after);
    hide WellKept, Wanting, Lists, Compares, ActionsOf, Helps, InRange, UniqueOwners, AllNetworksListed, OwnActions, OnManagers, CanDo, Wrong, Taken, DesiredOf;
    RunsOnlyRepair(sets, ActionsOf(p), p.endings, e, p.desired);
    WrongByMembers(sets, p.desired, DesiredOf(networks));
    WrongByMembers(after, p.desired, DesiredOf(networks));
  }

  lemma PassTakes(sets: Sets, p: Pass, networks: seq<Resource>, e: Envs, after: Sets) returns (name: string)
    requires WellKept(sets) && Wanting(networks) && PassStep(sets, p, networks, e, after) && Repairs(sets, p, networks)
    ensures name in Wrong(sets, DesiredOf(networks)) && name in Taken(sets, ActionsOf(p), p.endings, e)
  {
    hide WellKept, Wanting, PassStep, OwnActions, Wrong, Taken, DesiredOf, KeyOf, IsCarriedOut;
    var k :| 0 <= k < |OwnActions(p)| && IsCarriedOut(p, k) && KeyOf(OwnActions(p)[k]) in Wrong(sets, DesiredOf(networks));
    name := KeyOf(OwnActions(p)[k]);
    CarriedOutIsTaken(sets, p, networks, e, after, k);
  }

  lemma CarriedOutIsTaken(sets: Sets, p: Pass, networks: seq<Resource>, e: Envs, after: Sets, k: nat)
    requires WellKept(sets) && Wanting(networks) && PassStep(sets, p, networks, e, after)
    requires |p.endings| == |ActionsOf(p)| && k < |OwnActions(p)| && IsCarriedOut(p, k)
    ensures KeyOf(OwnActions(p)[k]) in Taken(sets, ActionsOf(p), p.endings, e)
  {
    hide WellKept, Wanting, PassStep, OwnActions, Helps, InRange, UniqueOwners, OnManagers, CanDo, Taken, DesiredOf, KeyOf;
    PassHelps(sets, p, networks, e, after);
    var own := OwnActions(p);
    assert own[k] in own;
    TakenAfterSpawns(sets, p.spawns, own, p.endings, e, k);
  }

  /** Whatever fails, a pass keeps the cluster readable and makes no right name wrong; and it
      rights every wrong name whose action is carried out. */
  lemma PassRepairs(sets: Sets, p: Pass, networks: seq<Resource>, e: Envs, after: Sets)
    requires WellKept(sets) && Wanting(networks) && PassStep(sets, p, networks, e, after)
    ensures WellKept(after)
    ensures Wrong(after, DesiredOf(networks)) == Wrong(sets, DesiredOf(networks)) - Taken(sets, ActionsOf(p), p.endings, e)
    ensures Repairs(sets, p, networks) ==> Wrong(after, DesiredOf(networks)) < Wrong(sets, DesiredOf(networks))
  {
    hide WellKept, Wanting, Lists, Compares, AllNetworksListed, ActionsOf, Wrong, Taken, DesiredOf, AfterAll, Repairs;
    PassKeeps(sets, p, networks, e, after);
    PassRights(sets, p, networks, e, after);
    if Repairs(sets, p, networks) {
      var name := PassTakes(sets, p, networks, e, after);
      assert name !in Wrong(after, DesiredOf(networks));
    }
  }

  lemma {:induction false} TakenGrows(sets: Sets, acts: seq<Action>, endings: seq<Ending>, e: Envs, i: nat)
    requires i < |acts| == |endings| && !acts[i].Spawn?
    requires Takes(AfterAll(sets, acts[..i], endings[..i], e), acts[i], endings[i])
    ensures KeyOf(acts[i]) in Taken(sets, acts, endings, e)
  {
    hide Takes, AfterAll;
    var n := |acts| - 1;
    if i < n {
      assert acts[..n][..i] == acts[..i] && endings[..n][..i] == endings[..i];
      TakenGrows(sets, acts[..n], endings[..n], e, i);
    }
  }

  lemma TakenAfterSpawns(sets: Sets, spawns: seq<Action>, acts: seq<Action>, endings: seq<Ending>, e: Envs, k: nat)
    requires |spawns| + |acts| == |endings| && k < |acts| && !endings[|spawns| + k].FailedClean?
    requires (forall a :: a in spawns ==> a.Spawn?) && OnManagers(acts) && CanDo(sets, acts[k])
    ensures KeyOf(acts[k]) in Taken(sets, spawns + acts, endings, e)
  {
    hide AfterAll, Taken, CanDo;
    var n := |spawns|;
    assert (spawns + acts)[n + k] == acts[k] && acts[k] in acts;
    SpawnsDropOut(sets, spawns, acts, endings, e, n + k);
    FindsItsName(sets, acts, endings[n..], e, k);
    hide OnManagers;
    TakenGrows(sets, spawns + acts, endings, e, n + k);
  }

  lemma SpawnsDropOut(sets: Sets, spawns: seq<Action>, acts: seq<Action>, endings: seq<Ending>, e: Envs, i: nat)
    requires |spawns| + |acts| == |endings| && |spawns| <= i <= |endings| && forall a :: a in spawns ==> a.Spawn?
    ensures AfterAll(sets, (spawns + acts)[..i], endings[..i], e)
            == AfterAll(sets, acts[..i - |spawns|], endings[|spawns|..][..i - |spawns|], e)
  {
    hide AfterAll;
    var n, all := |spawns|, spawns + acts;
    AfterAllSplit(sets, all[..i], endings[..i], e, n);
    assert all[..i][..n] == spawns && all[..i][n..] == acts[..i - n];
    assert endings[..i][n..] == endings[n..][..i - n];
    SpawnsTouchNothing(sets, spawns, endings[..i][..n], e);
  }

  /** The calls of a pass are never refused for the name: an action fails exactly if one of its
      calls does. */
  lemma PassFailsWhere(sets: Sets, p: Pass, networks: seq<Resource>, e: Envs, after: Sets, i: nat)
    requires WellKept(sets) && Wanting(networks) && PassStep(sets, p, networks, e, after)
    requires i < |ActionsOf(p)| == |p.endings|
    ensures Fails(sets, ActionsOf(p), p.endings, e, i) <==> !p.endings[i].Done?
  {
    hide WellKept, Wanting, PassStep, OwnActions, Helps, InRange, UniqueOwners, OnManagers, DesiredOf, AfterAll, CanDo;
    PassHelps(sets, p, networks, e, after);
    var own, n := OwnActions(p), |p.spawns|;
    if i < n {
      assert p.spawns[i] in p.spawns;
      SpawnIsAccepted(AfterAll(sets, ActionsOf(p)[..i], p.endings[..i], e), ActionsOf(p)[i]);
    } else {
      assert ActionsOf(p)[i] == own[i - n] && own[i - n] in own;
      SpawnsDropOut(sets, p.spawns, own, p.endings, e, i);
      FindsItsName(sets, own, p.endings[n..], e, i - n);
    }
  }

  lemma SpawnIsAccepted(sets: Sets, a: Action)
    requires a.Spawn?
    ensures CanDo(sets, a)
  {
  }

  /** A pass without failures leaves every network with a DaemonSet that reads as what it asks
      for, and no other DaemonSet. */
  lemma GoodPassSettles(sets: Sets, p: Pass, networks: seq<Resource>, e: Envs, after: Sets)
    requires WellKept(sets) && Wanting(networks)
    requires PassStep(sets, p, networks, e, after)
    requires forall i :: 0 <= i < |p.endings| ==> p.endings[i].Done?
    ensures Serves(after, networks)
    ensures after.Keys == set n | n in networks :: SetName(n.name)
    ensures forall n :: n in networks ==>
              && SetName(n.name) in after && |after[SetName(n.name)].containers| > 0
              && Read(after[SetName(n.name)]) == Ok(ManagerSet(n.name, n.spec.vlanID, n.spec.gateways, n.spec.affinity, Of([])))
  {
    PassIsPlain(sets, p, networks, e, after);
    var n, acts := |p.spawns|, ManagerActions(p.desired, p.current, p.conns);
    assert ActionsOf(p)[..n] == p.spawns && ActionsOf(p)[n..] == acts;
    hide ManagerActions, WellKept, Wanting, Lists, Compares, DesiredOf, AfterAll, Settled, Fails,
         ReadsCluster, AllNetworksListed, UniqueOwners, InRange;
    AfterAllSplit(sets, ActionsOf(p), p.endings, e, n);
    SpawnsTouchNothing(sets, p.spawns, p.endings[..n], e);
    OnePassConverges(sets, p.desired, p.current, p.conns, p.endings[n..], e);
    SettledByMembers(after, p.desired, DesiredOf(networks));
    WrongIsUnserved(after, networks);
  }

  lemma SettledByMembers(sets: Sets, s: seq<ManagerSet>, t: seq<ManagerSet>)
    requires Settled(sets, s) && forall m :: m in s <==> m in t
    ensures Settled(sets, t)
  {
    hide Matches;
    assert DesiredKeys(s) == DesiredKeys(t);
  }

  // ---------------------------------------------------------------- Runs of passes

  ghost predicate Run(states: seq<Sets>, passes: seq<Pass>, networks: seq<Resource>, e: Envs) {
    && |states| == |passes| + 1 && WellKept(states[0])
    && forall i :: 0 <= i < |passes| ==> PassStep(states[i], passes[i], networks, e, states[i + 1])
  }

  /** A name once right stays right, through all failures. */
  lemma {:induction false} RightStaysRight(states: seq<Sets>, passes: seq<Pass>, networks: seq<Resource>, e: Envs, i: nat, j: nat)
    requires Run(states, passes, networks, e) && i <= j < |states|
    requires Wanting(networks)
    ensures WellKept(states[j])
    ensures Wrong(states[j], DesiredOf(networks)) <= Wrong(states[i], DesiredOf(networks))
    decreases j
  {
    hide WellKept, Wanting, DesiredOf, Wrong, Taken, PassStep;
    if i < j {
      RightStaysRight(states, passes, networks, e, i, j - 1);
      PassRepairs(states[j - 1], passes[j - 1], networks, e, states[j]);
    } else if j > 0 {
      RightStaysRight(states, passes, networks, e, j - 1, j - 1);
      PassRepairs(states[j - 1], passes[j - 1], networks, e, states[j]);
    }
  }

  /** So a network that is served stays served. */
  lemma ServedStaysServed(states: seq<Sets>, passes: seq<Pass>, networks: seq<Resource>, e: Envs, i: nat, j: nat)
    requires Run(states, passes, networks, e) && i <= j < |states| && Wanting(networks)
    ensures Unserved(states[j], networks) <= Unserved(states[i], networks)
    ensures forall n :: n in networks && ServesOne(states[i], n) ==> ServesOne(states[j], n)
  {
    hide Run, Wrong, ServesOne, DesiredOf;
    RightStaysRight(states, passes, networks, e, i, j);
    WrongIsUnserved(states[i], networks);
    WrongIsUnserved(states[j], networks);
    forall n | n in networks && ServesOne(states[i], n) ensures ServesOne(states[j], n) {
      if !ServesOne(states[j], n) {
        assert SetName(n.name) in Unserved(states[j], networks) && SetName(n.name) in NetworkKeys(networks);
        var other :| other in networks && !ServesOne(states[i], other) && SetName(other.name) == SetName(n.name);
        SetNameInjective(other.name, n.name);
        SameNameSame(networks, n, other);
      }
    }
  }

  lemma SameNameSame(networks: seq<Resource>, n: Resource, m: Resource)
    requires Wanting(networks) && n in networks && m in networks && n.name == m.name
    ensures n == m
  {
    var i :| 0 <= i < |networks| && networks[i] == n;
    var j :| 0 <= j < |networks| && networks[j] == m;
  }

  /** If every pass carries out at least one of the actions that are due while any are, then as
      many passes as there are wrong names settle the cluster, whatever else fails. */
  lemma {:induction false} PassesSettle(states: seq<Sets>, passes: seq<Pass>, networks: seq<Resource>, e: Envs)
    requires Run(states, passes, networks, e)
    requires Wanting(networks)
    requires forall i :: 0 <= i < |passes| ==>
               Serves(states[i], networks) || Repairs(states[i], passes[i], networks)
    requires |passes| >= |Unserved(states[0], networks)|
    ensures Serves(states[|passes|], networks)
  {
    hide Serves, Unserved, Settled, Wrong, PassStep, WellKept, Repairs, Wanting;
    forall i | 0 <= i < |states| ensures Settled(states[i], DesiredOf(networks)) <==> Serves(states[i], networks) {
      WrongIsUnserved(states[i], networks);
    }
    WrongIsUnserved(states[0], networks);
    WrongShrinks(states, passes, networks, e, |passes|);
    NothingWrong(states[|passes|], DesiredOf(networks));
  }

  lemma {:induction false} WrongShrinks(states: seq<Sets>, passes: seq<Pass>, networks: seq<Resource>, e: Envs, n: nat)
    requires Run(states, passes, networks, e) && n <= |passes|
    requires Wanting(networks)
    requires forall i :: 0 <= i < |passes| ==>
               Settled(states[i], DesiredOf(networks)) || Repairs(states[i], passes[i], networks)
    ensures Wrong(states[n], DesiredOf(networks)) == {}
            || |Wrong(states[n], DesiredOf(networks))| + n <= |Wrong(states[0], DesiredOf(networks))|
  {
    hide Wanting, DesiredOf, Wrong, Run, Repairs, Settled;
    if n > 0 {
      WrongShrinks(states, passes, networks, e, n - 1);
      OneFewer(states, passes, networks, e, n - 1);
    }
  }

  lemma OneFewer(states: seq<Sets>, passes: seq<Pass>, networks: seq<Resource>, e: Envs, n: nat)
    requires Run(states, passes, networks, e) && n < |passes|
    requires Wanting(networks)
    requires Settled(states[n], DesiredOf(networks)) || Repairs(states[n], passes[n], networks)
    ensures Wrong(states[n + 1], DesiredOf(networks)) == {}
            || |Wrong(states[n + 1], DesiredOf(networks))| < |Wrong(states[n], DesiredOf(networks))|
  {
    hide WellKept, Wanting, DesiredOf, Taken, PassStep, Repairs, Settled, Wrong;
    RightStaysRight(states, passes, networks, e, n, n);
    PassRepairs(states[n], passes[n], networks, e, states[n + 1]);
    NothingWrong(states[n], DesiredOf(networks));
    SmallerSet(Wrong(states[n + 1], DesiredOf(networks)), Wrong(states[n], DesiredOf(networks)));
  }

  lemma SmallerSet(s: set<string>, t: set<string>)
    requires s <= t
    ensures |s| <= |t| && (s < t ==> |s| < |t|)
  {
    assert t == s + (t - s);
  }
}
