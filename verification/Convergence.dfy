/** Carrying out the actions, and where that leads. */
module Convergence {
  import opened Wrappers
  import opened Network
  import opened Text
  import opened ManagerCodec
  import opened StateDiff
  import opened DiffFacts
  import opened DaemonWait

  // ---------------------------------------------------------------- The cluster

  type Sets = map<string, DaemonSet>

  function KeyOf(a: Action): string {
    SetName(NameOf(a))
  }

  /** Creating needs the name to be unused; updating and deleting need it to be there. */
  predicate CanDo(sets: Sets, a: Action) {
    match a
    case Spawn(_, _) => true
    case Create(_, _) => KeyOf(a) !in sets
    case Update(_, _) => KeyOf(a) in sets
    case Delete(_) => KeyOf(a) in sets
  }

  function Effect(sets: Sets, a: Action, e: Envs): Sets {
    match a
    case Spawn(_, _) => sets
    case Create(m, _) => sets[KeyOf(a) := DaemonSetFor(m, e)]
    case Update(m, _) => sets[KeyOf(a) := DaemonSetFor(m, e)]
    case Delete(_) => sets - {KeyOf(a)}
  }

  /** How an action ends: it works, it fails and leaves the DaemonSets as they were, or it
      fails in a later call after the DaemonSet was already written. */
  datatype Ending = Done | FailedClean | FailedLate

  predicate Takes(sets: Sets, a: Action, ending: Ending) {
    !ending.FailedClean? && CanDo(sets, a)
  }

  function AfterOne(sets: Sets, a: Action, ending: Ending, e: Envs): Sets {
    if Takes(sets, a, ending) then Effect(sets, a, e) else sets
  }

  /** The cluster after all actions; each is tried whatever became of the others. */
  function AfterAll(sets: Sets, acts: seq<Action>, endings: seq<Ending>, e: Envs): Sets
    requires |acts| == |endings|
  {
    if acts == [] then sets
    else
      var n := |acts| - 1;
      AfterOne(AfterAll(sets, acts[..n], endings[..n], e), acts[n], endings[n], e)
  }

  // What the calls of one action meet: whether the first is accepted, how the DaemonSet comes
  // up, whether the cleanup, the interface jobs and the call for the Service work.
  datatype Calls = Calls(accepted: bool, created: SetStatus, read: nat -> Answer,
                         cleanupWorks: bool, jobsRun: bool, serviceWorks: bool)

  ghost predicate ComesUp(calls: Calls) {
    exists m: nat :: m < BUDGET && BecomesReady(calls.created, calls.read, m)
  }

  /** How the action ends, if its first call finds the name as it needs it. */
  ghost function EndingOf(a: Action, calls: Calls): Ending {
    if !calls.accepted then FailedClean
    else
      match a
      case Spawn(_, _) => if calls.jobsRun then Done else FailedClean
      case Update(_, _) => Done
      case Delete(_) => if calls.serviceWorks then Done else FailedLate
      case Create(_, _) =>
        if RunsOutWaiting(calls.created, calls.read) && calls.cleanupWorks then FailedClean
        else if ComesUp(calls) && calls.jobsRun && calls.serviceWorks then Done
        else FailedLate
  }

  class Cluster {
    var sets: Sets

    constructor (sets: Sets)
      ensures this.sets == sets
    {
      this.sets := sets;
    }

    /** One action. Its first call is refused if the name is not as the call needs it; that or a
        failing first call means an error and no change. A Service that cannot be deleted means
        an error, but the DaemonSet is gone. */
    method Do(a: Action, calls: Calls, e: Envs) returns (ok: bool)
      modifies this
      ensures sets == AfterOne(old(sets), a, EndingOf(a, calls), e)
      ensures ok <==> EndingOf(a, calls).Done? && CanDo(old(sets), a)
      ensures a.Spawn? ==> sets == old(sets) && (ok <==> calls.accepted && calls.jobsRun)
      ensures a.Update? && calls.accepted && SetName(a.manager.owner) in old(sets) ==>
                ok && sets == old(sets)[SetName(a.manager.owner) := DaemonSetFor(a.manager, e)]
      ensures a.Delete? && calls.accepted && SetName(a.manager.owner) in old(sets) ==>
                (ok <==> calls.serviceWorks) && sets == old(sets) - {SetName(a.manager.owner)}
      ensures (a.Update? || a.Delete?) && !(calls.accepted && SetName(a.manager.owner) in old(sets)) ==>
                !ok && sets == old(sets)
    {
      ok := false;
      match a {
        case Spawn(_, _) =>
          ok := calls.accepted && calls.jobsRun;
        case Create(m, _) =>
          ok := CreateManager(a, calls, e);
        case Update(m, _) =>
          if KeyOf(a) in sets && calls.accepted {
            sets := sets[KeyOf(a) := DaemonSetFor(m, e)];
            ok := true;
          }
        case Delete(_) =>
          if KeyOf(a) in sets && calls.accepted {
            sets := sets - {KeyOf(a)};
            ok := calls.serviceWorks;
          }
      }
    }

    /** Creates the DaemonSet, waits for it, cleans up if it does not become ready in time, and
        goes on to the jobs and the Service if it does. If the budget of polls runs out on
        unavailable pods and the cleanup works, all is as before and an error is reported. In
        every other case the new DaemonSet stays; there is no error exactly if it came up and
        the jobs and the Service worked. */
    method CreateManager(a: Action, calls: Calls, e: Envs) returns (ok: bool)
      requires a.Create?
      modifies this
      ensures !calls.accepted || SetName(a.manager.owner) in old(sets) ==> !ok && sets == old(sets)
      ensures calls.accepted && SetName(a.manager.owner) !in old(sets) ==>
                if RunsOutWaiting(calls.created, calls.read) && calls.cleanupWorks then !ok && sets == old(sets)
                else
                  && sets == old(sets)[SetName(a.manager.owner) := DaemonSetFor(a.manager, e)]
                  && (ok <==> calls.jobsRun && calls.serviceWorks
                              && exists m: nat :: m < BUDGET && BecomesReady(calls.created, calls.read, m))
      ensures sets == AfterOne(old(sets), a, EndingOf(a, calls), e)
      ensures ok <==> EndingOf(a, calls).Done? && CanDo(old(sets), a)
    {
      if KeyOf(a) in sets || !calls.accepted {
        return false;
      }
      hide BecomesReady, RunsOutWaiting, DaemonSetFor;
      sets := sets[KeyOf(a) := DaemonSetFor(a.manager, e)];
      var result, _, deleted := WaitForDaemonSet(calls.created, calls.read, calls.cleanupWorks);
      if deleted && calls.cleanupWorks {
        sets := sets - {KeyOf(a)};
        assert sets == old(sets);
      }
      ok := result.Ready? && calls.jobsRun && calls.serviceWorks;
    }
  }

  /** Which actions fail, given how their calls end. */
  predicate Fails(sets: Sets, acts: seq<Action>, endings: seq<Ending>, e: Envs, i: nat)
    requires i < |acts| == |endings|
  {
    !endings[i].Done? || !CanDo(AfterAll(sets, acts[..i], endings[..i], e), acts[i])
  }

  ghost function EndingsOf(acts: seq<Action>, calls: seq<Calls>): seq<Ending>
    requires |acts| == |calls|
  {
    seq(|acts|, i requires 0 <= i < |acts| => EndingOf(acts[i], calls[i]))
  }

  /** All actions are carried out in order, and the failed ones are collected. */
  method RunActions(cluster: Cluster, acts: seq<Action>, calls: seq<Calls>, e: Envs) returns (errList: seq<nat>)
    requires |acts| == |calls|
    modifies cluster
    ensures cluster.sets == AfterAll(old(cluster.sets), acts, EndingsOf(acts, calls), e)
    ensures forall i :: i in errList <==> 0 <= i < |acts| && Fails(old(cluster.sets), acts, EndingsOf(acts, calls), e, i)
  {
    errList := [];
    ghost var before, endings := cluster.sets, EndingsOf(acts, calls);
    hide EndingOf;
    for n := 0 to |acts|
      invariant cluster.sets == AfterAll(before, acts[..n], endings[..n], e)
      invariant forall i :: i in errList <==> 0 <= i < n && Fails(before, acts, endings, e, i)
    {
      assert acts[..n + 1][..n] == acts[..n] && endings[..n + 1][..n] == endings[..n];
      var ok := cluster.Do(acts[n], calls[n], e);
      if !ok {
        errList := errList + [n];
      }
    }
    assert acts[..|acts|] == acts && endings[..|endings|] == endings;
  }

  // ---------------------------------------------------------------- Names keep apart

  ghost predicate OnManagers(acts: seq<Action>) {
    DistinctNames(acts) && forall a :: a in acts ==> !a.Spawn?
  }

  /** What a name holds after some actions, none of which is about it. */
  lemma {:induction false} Untouched(sets: Sets, acts: seq<Action>, endings: seq<Ending>, e: Envs, owner: string)
    requires |acts| == |endings| && forall a :: a in acts ==> !a.Spawn? && NameOf(a) != owner
    ensures SetName(owner) in AfterAll(sets, acts, endings, e) <==> SetName(owner) in sets
    ensures SetName(owner) in sets ==> AfterAll(sets, acts, endings, e)[SetName(owner)] == sets[SetName(owner)]
  {
    if acts != [] {
      var n := |acts| - 1;
      assert forall a :: a in acts[..n] ==> a in acts;
      Untouched(sets, acts[..n], endings[..n], e, owner);
      SetNameInjective(NameOf(acts[n]), owner);
      hide DaemonSetFor;
    }
  }

  lemma OthersAreAbout(acts: seq<Action>, i: nat)
    requires OnManagers(acts) && i < |acts|
    ensures forall a :: a in acts[..i] ==> !a.Spawn? && NameOf(a) != NameOf(acts[i])
    ensures forall a :: a in acts[i + 1..] ==> !a.Spawn? && NameOf(a) != NameOf(acts[i])
  {
    forall a | a in acts[..i] ensures !a.Spawn? && NameOf(a) != NameOf(acts[i]) {
      var j :| 0 <= j < i && acts[j] == a;
      assert a in acts;
    }
    forall a | a in acts[i + 1..] ensures !a.Spawn? && NameOf(a) != NameOf(acts[i]) {
      var j :| 0 <= j < |acts| - i - 1 && acts[i + 1..][j] == a;
      assert acts[i + 1 + j] == a && a in acts;
    }
  }

  /** Every action finds its name as the first state had it, whatever the others did. */
  lemma FindsItsName(sets: Sets, acts: seq<Action>, endings: seq<Ending>, e: Envs, i: nat)
    requires |acts| == |endings| && OnManagers(acts) && i < |acts|
    ensures CanDo(AfterAll(sets, acts[..i], endings[..i], e), acts[i]) <==> CanDo(sets, acts[i])
  {
    OthersAreAbout(acts, i);
    Untouched(sets, acts[..i], endings[..i], e, NameOf(acts[i]));
    assert acts[i] in acts;
  }

  // ---------------------------------------------------------------- Repair

  /** The cluster holds the manager, as far as a DaemonSet can: its mappings are not stored. */
  predicate Matches(sets: Sets, m: ManagerSet) {
    SetName(m.owner) in sets
    && |sets[SetName(m.owner)].containers| > 0
    && Read(sets[SetName(m.owner)]) == Ok(Forgotten(m))
  }

  function DesiredKeys(desired: seq<ManagerSet>): set<string> {
    set m | m in desired :: SetName(m.owner)
  }

  /** The names whose DaemonSet differs from what is desired. */
  function Wrong(sets: Sets, desired: seq<ManagerSet>): set<string> {
    (set m | m in desired && !Matches(sets, m) :: SetName(m.owner)) + (sets.Keys - DesiredKeys(desired))
  }

  predicate InRange(desired: seq<ManagerSet>) {
    forall m :: m in desired ==> IsInt64(m.vlanID)
  }

  /** An action that helps: it writes a desired manager, or removes one that is not desired. */
  ghost predicate Helps(a: Action, desired: seq<ManagerSet>) {
    match a
    case Spawn(_, _) => false
    case Create(m, _) => m in desired
    case Update(m, _) => m in desired
    case Delete(k) => k.owner !in Names(desired)
  }

  lemma SameOwnerSame(desired: seq<ManagerSet>, m: ManagerSet, n: ManagerSet)
    requires UniqueOwners(desired) && m in desired && n in desired && m.owner == n.owner
    ensures m == n
  {
    var i :| 0 <= i < |desired| && desired[i] == m;
    var j :| 0 <= j < |desired| && desired[j] == n;
  }

  lemma EffectMatches(sets: Sets, a: Action, e: Envs, desired: seq<ManagerSet>, m: ManagerSet)
    requires UniqueOwners(desired) && InRange(desired) && Helps(a, desired) && m in desired
    ensures if NameOf(a) == m.owner then Matches(Effect(sets, a, e), m)
            else Matches(Effect(sets, a, e), m) <==> Matches(sets, m)
  {
    SetNameInjective(NameOf(a), m.owner);
    assert m.owner in Names(desired);
    if NameOf(a) == m.owner && !a.Delete? {
      SameOwnerSame(desired, m, a.manager);
      ReadWritten(m, e);
    }
  }

  /** Carrying out an action that helps rights exactly its own name. */
  lemma EffectRepairs(sets: Sets, a: Action, e: Envs, desired: seq<ManagerSet>)
    requires UniqueOwners(desired) && InRange(desired) && Helps(a, desired)
    ensures Wrong(Effect(sets, a, e), desired) == Wrong(sets, desired) - {KeyOf(a)}
  {
    var after := Effect(sets, a, e);
    assert a.Delete? ==> KeyOf(a) !in DesiredKeys(desired) by {
      if a.Delete? && KeyOf(a) in DesiredKeys(desired) {
        var m :| m in desired && SetName(m.owner) == KeyOf(a);
        SetNameInjective(m.owner, NameOf(a));
      }
    }
    assert after.Keys - DesiredKeys(desired) == sets.Keys - DesiredKeys(desired) - {KeyOf(a)};
    forall m | m in desired
      ensures !Matches(after, m) <==> !Matches(sets, m) && SetName(m.owner) != KeyOf(a)
    {
      EffectMatches(sets, a, e, desired, m);
      SetNameInjective(NameOf(a), m.owner);
    }
    hide Matches, Effect, DaemonSetFor;
  }

  /** The names whose DaemonSet an action wrote or removed. */
  function Taken(sets: Sets, acts: seq<Action>, endings: seq<Ending>, e: Envs): set<string>
    requires |acts| == |endings|
  {
    if acts == [] then {}
    else
      var n := |acts| - 1;
      Taken(sets, acts[..n], endings[..n], e)
      + if !acts[n].Spawn? && Takes(AfterAll(sets, acts[..n], endings[..n], e), acts[n], endings[n]) then {KeyOf(acts[n])} else {}
  }

  lemma {:induction false} WrongAfterRun(sets: Sets, acts: seq<Action>, endings: seq<Ending>, e: Envs, desired: seq<ManagerSet>)
    requires |acts| == |endings| && UniqueOwners(desired) && InRange(desired)
    requires forall a :: a in acts ==> a.Spawn? || Helps(a, desired)
    ensures Wrong(AfterAll(sets, acts, endings, e), desired) == Wrong(sets, desired) - Taken(sets, acts, endings, e)
  {
    if acts != [] {
      var n := |acts| - 1;
      assert forall a :: a in acts[..n] ==> a in acts;
      WrongAfterRun(sets, acts[..n], endings[..n], e, desired);
      assert acts[n] in acts;
      WrongAfterOne(AfterAll(sets, acts[..n], endings[..n], e), acts[n], endings[n], e, desired);
      hide Wrong, Helps, AfterOne, Takes, UniqueOwners;
    }
  }

  lemma WrongAfterOne(sets: Sets, a: Action, ending: Ending, e: Envs, desired: seq<ManagerSet>)
    requires UniqueOwners(desired) && InRange(desired) && (a.Spawn? || Helps(a, desired))
    ensures Wrong(AfterOne(sets, a, ending, e), desired) ==
            Wrong(sets, desired) - (if !a.Spawn? && Takes(sets, a, ending) then {KeyOf(a)} else {})
  {
    if !a.Spawn? {
      EffectRepairs(sets, a, e, desired);
    }
    hide Wrong, CanDo;
  }

  /** The measure of reconciliation. Whichever actions fail, with or without having written
      their DaemonSet, the wrong names afterwards are the wrong names before without those
      whose action was carried out. So their number never grows, and it falls by one for each
      action that met a wrong name. */
  lemma RunsOnlyRepair(sets: Sets, acts: seq<Action>, endings: seq<Ending>, e: Envs, desired: seq<ManagerSet>)
    requires |acts| == |endings| && UniqueOwners(desired) && InRange(desired)
    requires forall a :: a in acts ==> a.Spawn? || Helps(a, desired)
    ensures Wrong(AfterAll(sets, acts, endings, e), desired) == Wrong(sets, desired) - Taken(sets, acts, endings, e)
    ensures |Wrong(AfterAll(sets, acts, endings, e), desired)|
            == |Wrong(sets, desired)| - |Wrong(sets, desired) * Taken(sets, acts, endings, e)|
  {
    WrongAfterRun(sets, acts, endings, e, desired);
    hide Wrong, Taken, AfterAll, Helps;
    SizeWithout(Wrong(sets, desired), Taken(sets, acts, endings, e));
  }

  lemma SizeWithout(s: set<string>, gone: set<string>)
    ensures |s - gone| == |s| - |s * gone|
  {
    assert s == (s - gone) + (s * gone);
  }

  // ---------------------------------------------------------------- The whole pass

  /** `current` is what reading the cluster gives, in any order. */
  ghost predicate ReadsCluster(current: seq<ManagerSet>, sets: Sets) {
    && UniqueOwners(current)
    && (forall k :: k in sets ==> |sets[k].containers| > 0 && Read(sets[k]).Ok? && k == SetName(Read(sets[k]).value.owner))
    && (forall m :: m in current ==> SetName(m.owner) in sets && Read(sets[SetName(m.owner)]) == Ok(m))
    && (forall k :: k in sets ==> Read(sets[k]).value in current)
  }

  ghost predicate AllNetworksListed(desired: seq<ManagerSet>, conns: seq<NetState>) {
    OneStatePerName(conns) && forall m :: m in desired ==> exists c :: c in conns && c.name == m.owner
  }

  lemma PresentWhenNamed(sets: Sets, current: seq<ManagerSet>, owner: string)
    requires ReadsCluster(current, sets)
    ensures owner in Names(current) <==> SetName(owner) in sets
  {
    if owner in Names(current) {
      var m :| m in current && m.owner == owner;
    }
    if SetName(owner) in sets {
      SetNameInjective(owner, Read(sets[SetName(owner)]).value.owner);
    }
  }

  /** Every action of the difference helps, and its call is accepted. */
  lemma DiffHelps(sets: Sets, desired: seq<ManagerSet>, current: seq<ManagerSet>, conns: seq<NetState>)
    requires UniqueOwners(desired) && ReadsCluster(current, sets) && OneStatePerName(conns)
    ensures OnManagers(ManagerActions(desired, current, conns))
    ensures forall a :: a in ManagerActions(desired, current, conns) ==> Helps(a, desired) && CanDo(sets, a)
  {
    OneActionPerName(desired, current, conns);
    forall a | a in ManagerActions(desired, current, conns) ensures Helps(a, desired) && CanDo(sets, a) {
      DiffIsPlain(a, desired, current, conns);
      PresentWhenNamed(sets, current, NameOf(a));
    }
  }

  /** A desired manager that the cluster does not hold exactly is created or updated. */
  lemma UnequalIsWritten(sets: Sets, desired: seq<ManagerSet>, current: seq<ManagerSet>, conns: seq<NetState>, m: ManagerSet)
    returns (a: Action)
    requires ReadsCluster(current, sets) && AllNetworksListed(desired, conns) && m in desired
    requires SetName(m.owner) in sets ==> Read(sets[SetName(m.owner)]) != Ok(m)
    ensures a in ManagerActions(desired, current, conns) && (a.Create? || a.Update?) && a.manager == m
  {
    var net :| net in conns && net.name == m.owner;
    PresentWhenNamed(sets, current, m.owner);
    if SetName(m.owner) in sets {
      var k := Read(sets[SetName(m.owner)]).value;
      SetNameInjective(m.owner, k.owner);
      a := Update(m, net);
      assert k in current && k.owner == m.owner && k != m;
    } else {
      a := Create(m, net);
    }
    DiffIsPlain(a, desired, current, conns);
  }

  /** Every wrong name has an action. */
  lemma WrongIsActedOn(sets: Sets, desired: seq<ManagerSet>, current: seq<ManagerSet>, conns: seq<NetState>, name: string)
    requires ReadsCluster(current, sets) && AllNetworksListed(desired, conns)
    requires name in Wrong(sets, desired)
    ensures exists a :: a in ManagerActions(desired, current, conns) && KeyOf(a) == name
  {
    if name in sets && name !in DesiredKeys(desired) {
      var k := Read(sets[name]).value;
      assert k.owner !in Names(desired);
      DiffIsPlain(Delete(k), desired, current, conns);
      assert KeyOf(Delete(k)) == name;
    } else {
      var m :| m in desired && !Matches(sets, m) && SetName(m.owner) == name;
      ReadForgets(sets, m);
      hide ReadsCluster, Matches;
      var a := UnequalIsWritten(sets, desired, current, conns, m);
      assert KeyOf(a) == name;
    }
  }

  lemma ReadForgets(sets: Sets, m: ManagerSet)
    requires SetName(m.owner) in sets ==> |sets[SetName(m.owner)].containers| > 0
    requires !Matches(sets, m) || m.mappings != Of([])
    ensures SetName(m.owner) in sets ==> Read(sets[SetName(m.owner)]) != Ok(m)
  {
  }

  lemma {:induction false} AllAreTaken(sets: Sets, acts: seq<Action>, endings: seq<Ending>, e: Envs)
    requires |acts| == |endings| && OnManagers(acts)
    requires forall a :: a in acts ==> CanDo(sets, a)
    requires forall i :: 0 <= i < |endings| ==> !endings[i].FailedClean?
    ensures forall a :: a in acts ==> KeyOf(a) in Taken(sets, acts, endings, e)
  {
    hide CanDo, AfterAll;
    if acts != [] {
      var n := |acts| - 1;
      assert acts == acts[..n] + [acts[n]] && acts[n] in acts;
      AllAreTaken(sets, acts[..n], endings[..n], e);
      FindsItsName(sets, acts, endings, e, n);
    }
  }

  /** The DaemonSets are exactly the desired ones. */
  ghost predicate Settled(sets: Sets, desired: seq<ManagerSet>) {
    sets.Keys == DesiredKeys(desired) && forall m :: m in desired ==> Matches(sets, m)
  }

  lemma NothingWrong(sets: Sets, desired: seq<ManagerSet>)
    ensures Wrong(sets, desired) == {} <==> Settled(sets, desired)
  {
    hide Matches;
    if Wrong(sets, desired) == {} {
      forall m | m in desired ensures Matches(sets, m) {
        assert !Matches(sets, m) ==> SetName(m.owner) in Wrong(sets, desired);
      }
      forall name ensures name in sets <==> name in DesiredKeys(desired) {
        assert name in sets && name !in DesiredKeys(desired) ==> name in Wrong(sets, desired);
        if name in DesiredKeys(desired) {
          var m :| m in desired && SetName(m.owner) == name;
          MatchesIsThere(sets, m);
        }
      }
    }
  }

  lemma MatchesIsThere(sets: Sets, m: ManagerSet)
    requires Matches(sets, m)
    ensures SetName(m.owner) in sets
  {
  }

  lemma AllWrongTaken(sets: Sets, desired: seq<ManagerSet>, current: seq<ManagerSet>, conns: seq<NetState>, taken: set<string>)
    requires ReadsCluster(current, sets) && AllNetworksListed(desired, conns)
    requires forall a :: a in ManagerActions(desired, current, conns) ==> KeyOf(a) in taken
    ensures Wrong(sets, desired) <= taken
  {
    hide Wrong, ManagerActions, ReadsCluster, AllNetworksListed;
    forall name | name in Wrong(sets, desired) ensures name in taken {
      WrongIsActedOn(sets, desired, current, conns, name);
    }
  }

  lemma NoneFails(sets: Sets, acts: seq<Action>, endings: seq<Ending>, e: Envs)
    requires |acts| == |endings| && OnManagers(acts)
    requires (forall a :: a in acts ==> CanDo(sets, a)) && forall i :: 0 <= i < |endings| ==> endings[i].Done?
    ensures forall i :: 0 <= i < |acts| ==> !Fails(sets, acts, endings, e, i)
  {
    hide OnManagers, CanDo, AfterAll;
    forall i | 0 <= i < |acts| ensures !Fails(sets, acts, endings, e, i) {
      assert acts[i] in acts;
      FindsItsName(sets, acts, endings, e, i);
    }
  }

  /** One pass in which every action succeeds makes the DaemonSets exactly the desired ones. */
  lemma OnePassConverges(sets: Sets, desired: seq<ManagerSet>, current: seq<ManagerSet>, conns: seq<NetState>,
                         endings: seq<Ending>, e: Envs)
    requires UniqueOwners(desired) && InRange(desired) && ReadsCluster(current, sets) && AllNetworksListed(desired, conns)
    requires |endings| == |ManagerActions(desired, current, conns)|
    requires forall i :: 0 <= i < |endings| ==> endings[i].Done?
    ensures var acts := ManagerActions(desired, current, conns);
            && Settled(AfterAll(sets, acts, endings, e), desired)
            && (forall i :: 0 <= i < |acts| ==> !Fails(sets, acts, endings, e, i))
  {
    hide UniqueOwners, InRange, ReadsCluster, OneStatePerName, ManagerActions, AfterAll, Wrong, Taken, Helps, CanDo, OnManagers, Fails, Settled;
    var acts := ManagerActions(desired, current, conns);
    DiffHelps(sets, desired, current, conns);
    RunsOnlyRepair(sets, acts, endings, e, desired);
    AllAreTaken(sets, acts, endings, e);
    AllWrongTaken(sets, desired, current, conns, Taken(sets, acts, endings, e));
    NothingWrong(AfterAll(sets, acts, endings, e), desired);
    NoneFails(sets, acts, endings, e);
  }

  // ---------------------------------------------------------------- Spawns and splitting

  lemma {:induction false} AfterAllSplit(sets: Sets, acts: seq<Action>, endings: seq<Ending>, e: Envs, n: nat)
    requires n <= |acts| == |endings|
    ensures AfterAll(sets, acts, endings, e) == AfterAll(AfterAll(sets, acts[..n], endings[..n], e), acts[n..], endings[n..], e)
  {
    hide AfterOne;
    var last := |acts| - 1;
    if n == |acts| {
      assert acts[..n] == acts && endings[..n] == endings;
    } else {
      AfterAllSplit(sets, acts[..last], endings[..last], e, n);
      assert acts[..last][..n] == acts[..n] && endings[..last][..n] == endings[..n];
      assert acts[n..][..last - n] == acts[..last][n..] && endings[n..][..last - n] == endings[..last][n..];
    }
  }

  /** The spawns that come before the managers' actions do not touch DaemonSets. */
  lemma {:induction false} SpawnsTouchNothing(sets: Sets, spawns: seq<Action>, endings: seq<Ending>, e: Envs)
    requires |spawns| == |endings| && forall a :: a in spawns ==> a.Spawn?
    ensures AfterAll(sets, spawns, endings, e) == sets
  {
    if spawns != [] {
      var n := |spawns| - 1;
      assert spawns[n] in spawns && forall a :: a in spawns[..n] ==> a in spawns;
      SpawnsTouchNothing(sets, spawns[..n], endings[..n], e);
    }
  }

  // ---------------------------------------------------------------- The second pass

  lemma WrittenStays(sets: Sets, acts: seq<Action>, endings: seq<Ending>, e: Envs, a: Action)
    requires |acts| == |endings| && OnManagers(acts) && a in acts && (a.Create? || a.Update?) && CanDo(sets, a)
    requires forall i :: 0 <= i < |endings| ==> endings[i].Done?
    ensures KeyOf(a) in AfterAll(sets, acts, endings, e)
    ensures AfterAll(sets, acts, endings, e)[KeyOf(a)] == DaemonSetFor(a.manager, e)
  {
    var i :| 0 <= i < |acts| && acts[i] == a;
    FindsItsName(sets, acts, endings, e, i);
    AfterAllSplit(sets, acts, endings, e, i + 1);
    OthersAreAbout(acts, i);
    assert acts[..i + 1][..i] == acts[..i] && endings[..i + 1][..i] == endings[..i];
    hide DaemonSetFor, OnManagers;
    Untouched(AfterAll(sets, acts[..i + 1], endings[..i + 1], e), acts[i + 1..], endings[i + 1..], e, NameOf(a));
  }

  /** After a successful pass the next one creates and deletes nothing. It still updates each
      manager whose mappings are not the empty slice that reading gives, once, and to no
      effect. So the passes come to rest exactly when there is no such manager. */
  lemma SecondPass(sets: Sets, desired: seq<ManagerSet>, current: seq<ManagerSet>, conns: seq<NetState>,
                   endings: seq<Ending>, e: Envs, current': seq<ManagerSet>, conns': seq<NetState>)
    requires UniqueOwners(desired) && InRange(desired) && ReadsCluster(current, sets) && AllNetworksListed(desired, conns)
    requires |endings| == |ManagerActions(desired, current, conns)|
    requires forall i :: 0 <= i < |endings| ==> endings[i].Done?
    requires ReadsCluster(current', AfterAll(sets, ManagerActions(desired, current, conns), endings, e))
    requires AllNetworksListed(desired, conns')
    ensures var after := AfterAll(sets, ManagerActions(desired, current, conns), endings, e);
            var again := ManagerActions(desired, current', conns');
            && DistinctNames(again)
            && (forall a :: a in again ==>
                  a.Update? && a.manager in desired && a.manager.mappings != Of([]) && Effect(after, a, e) == after)
            && (forall m :: m in desired && m.mappings != Of([]) ==> exists a :: a in again && a.Update? && a.manager == m)
            && (again == [] <==> forall m :: m in desired ==> m.mappings == Of([]))
  {
    var acts := ManagerActions(desired, current, conns);
    var after := AfterAll(sets, acts, endings, e);
    var again := ManagerActions(desired, current', conns');
    OnePassConverges(sets, desired, current, conns, endings, e);
    DiffHelps(after, desired, current', conns');
    forall a | a in again
      ensures a.Update? && a.manager in desired && a.manager.mappings != Of([]) && Effect(after, a, e) == after
    {
      RepeatIsIdle(sets, desired, current, conns, endings, e, current', conns', a);
    }
    forall m | m in desired && m.mappings != Of([]) ensures exists a :: a in again && a.Update? && a.manager == m {
      assert Matches(after, m);
      ReadForgets(after, m);
      var a := UnequalIsWritten(after, desired, current', conns', m);
    }
    assert again != [] ==> again[0] in again;
  }

  lemma RepeatIsIdle(sets: Sets, desired: seq<ManagerSet>, current: seq<ManagerSet>, conns: seq<NetState>,
                     endings: seq<Ending>, e: Envs, current': seq<ManagerSet>, conns': seq<NetState>, a: Action)
    requires UniqueOwners(desired) && InRange(desired) && ReadsCluster(current, sets) && AllNetworksListed(desired, conns)
    requires |endings| == |ManagerActions(desired, current, conns)|
    requires forall i :: 0 <= i < |endings| ==> endings[i].Done?
    requires var after := AfterAll(sets, ManagerActions(desired, current, conns), endings, e);
             && ReadsCluster(current', after) && AllNetworksListed(desired, conns')
             && after.Keys == DesiredKeys(desired) && (forall m :: m in desired ==> Matches(after, m))
    requires a in ManagerActions(desired, current', conns')
    ensures var after := AfterAll(sets, ManagerActions(desired, current, conns), endings, e);
            a.Update? && a.manager in desired && a.manager.mappings != Of([]) && Effect(after, a, e) == after
  {
    hide ManagerActions, AfterAll, UniqueOwners, InRange, DaemonSetFor, ReadsCluster, Matches, AllNetworksListed;
    var after := AfterAll(sets, ManagerActions(desired, current, conns), endings, e);
    OnlyUpdates(after, desired, current', conns', a);
    FirstPassWrote(sets, desired, current, conns, endings, e, a.manager);
  }

  /** In a settled cluster a difference is an update, and is due to mappings. */
  lemma OnlyUpdates(sets: Sets, desired: seq<ManagerSet>, current: seq<ManagerSet>, conns: seq<NetState>, a: Action)
    requires ReadsCluster(current, sets) && AllNetworksListed(desired, conns)
    requires sets.Keys == DesiredKeys(desired) && forall m :: m in desired ==> Matches(sets, m)
    requires a in ManagerActions(desired, current, conns)
    ensures a.Update? && a.manager in desired && a.manager.mappings != Of([])
  {
    NamesAgree(sets, desired, current);
    DiffIsPlain(a, desired, current, conns);
    hide ManagerActions;
    assert a.Update? && Matches(sets, a.manager);
    OnlyMappingsDiffer(sets, current, a.manager);
  }

  lemma NamesAgree(sets: Sets, desired: seq<ManagerSet>, current: seq<ManagerSet>)
    requires ReadsCluster(current, sets) && sets.Keys == DesiredKeys(desired)
    ensures Names(current) == Names(desired)
  {
    forall owner ensures owner in Names(current) <==> owner in Names(desired) {
      PresentWhenNamed(sets, current, owner);
      if owner in Names(current) {
        var m :| m in desired && SetName(m.owner) == SetName(owner);
        SetNameInjective(m.owner, owner);
      }
    }
  }

  lemma OnlyMappingsDiffer(sets: Sets, current: seq<ManagerSet>, m: ManagerSet)
    requires ReadsCluster(current, sets) && Matches(sets, m)
    requires exists k :: k in current && k.owner == m.owner && k != m
    ensures m.mappings != Of([])
  {
    var k :| k in current && k.owner == m.owner && k != m;
    assert Read(sets[SetName(m.owner)]) == Ok(k);
  }

  /** A manager whose mappings cannot be read back was written by the first pass. */
  lemma FirstPassWrote(sets: Sets, desired: seq<ManagerSet>, current: seq<ManagerSet>, conns: seq<NetState>,
                       endings: seq<Ending>, e: Envs, m: ManagerSet)
    requires UniqueOwners(desired) && ReadsCluster(current, sets) && AllNetworksListed(desired, conns)
    requires |endings| == |ManagerActions(desired, current, conns)|
    requires forall i :: 0 <= i < |endings| ==> endings[i].Done?
    requires m in desired && m.mappings != Of([])
    ensures var after := AfterAll(sets, ManagerActions(desired, current, conns), endings, e);
            SetName(m.owner) in after && after[SetName(m.owner)] == DaemonSetFor(m, e)
  {
    assert SetName(m.owner) in sets ==> |sets[SetName(m.owner)].containers| > 0;
    ReadForgets(sets, m);
    DiffHelps(sets, desired, current, conns);
    var a := UnequalIsWritten(sets, desired, current, conns, m);
    WrittenStays(sets, ManagerActions(desired, current, conns), endings, e, a);
  }
}
