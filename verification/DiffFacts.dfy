/** What the difference of two manager lists amounts to, as sets. */
module DiffFacts {
  import opened Wrappers
  import opened Network
  import opened Links
  import opened ManagerCodec
  import opened Sorting
  import opened StateDiff

  ghost predicate UniqueOwners(managers: seq<ManagerSet>) {
    forall i, j :: 0 <= i < j < |managers| ==> managers[i].owner != managers[j].owner
  }

  /** No two different states carry one name. Blank entries may repeat. */
  ghost predicate OneStatePerName(conns: seq<NetState>) {
    forall a, b :: a in conns && b in conns && a.name == b.name ==> a == b
  }

  /** The plain meaning of the difference: create what is desired, missing and listed, update
      what is desired, present, listed and unequal, delete what is present and not desired. */
  ghost predicate Wanted(a: Action, desired: seq<ManagerSet>, current: seq<ManagerSet>, conns: seq<NetState>) {
    match a
    case Create(m, net) => m in desired && m.owner !in Names(current) && net in conns && net.name == m.owner
    case Update(m, net) =>
      m in desired && (exists k :: k in current && k.owner == m.owner && k != m) && net in conns && net.name == m.owner
    case Delete(k) => k in current && k.owner !in Names(desired)
    case Spawn(_, _) => false
  }

  lemma {:induction false} InForAllDesired(a: Action, desired: seq<ManagerSet>, current: seq<ManagerSet>, conns: seq<NetState>)
    ensures a in ForAllDesired(desired, current, conns) <==> exists m :: m in desired && a in ForDesired(m, current, conns)
  {
    hide ForDesired;
    if desired != [] {
      var front, last := desired[..|desired| - 1], desired[|desired| - 1];
      assert desired == front + [last];
      InForAllDesired(a, front, current, conns);
    }
  }

  lemma {:induction false} InForAllCurrent(a: Action, current: seq<ManagerSet>, desired: seq<ManagerSet>)
    ensures a in ForAllCurrent(current, desired) <==>
            a.Delete? && a.manager in current && FirstWith(desired, a.manager.owner, OwnerKey) == |desired|
  {
    if current != [] {
      var front, last := current[..|current| - 1], current[|current| - 1];
      assert current == front + [last];
      InForAllCurrent(a, front, desired);
    }
  }

  lemma MissingMeansUnnamed(managers: seq<ManagerSet>, owner: string)
    ensures FirstWith(managers, owner, OwnerKey) == |managers| <==> owner !in Names(managers)
  {
    var i := FirstWith(managers, owner, OwnerKey);
    if i < |managers| {
      assert managers[i] in managers;
    }
  }

  lemma PresentIsFirst(managers: seq<ManagerSet>, k: ManagerSet)
    requires UniqueOwners(managers) && k in managers
    ensures FirstWith(managers, k.owner, OwnerKey) < |managers|
    ensures managers[FirstWith(managers, k.owner, OwnerKey)] == k
  {
    var j :| 0 <= j < |managers| && managers[j] == k;
    assert OwnerKey(managers[j]) == k.owner;
  }

  lemma ListedIsFound(conns: seq<NetState>, net: NetState)
    requires OneStatePerName(conns)
    ensures NetworkNamed(conns, net.name) == Some(net) <==> net in conns
  {
  }

  lemma ForDesiredIsWanted(a: Action, m: ManagerSet, desired: seq<ManagerSet>, current: seq<ManagerSet>, conns: seq<NetState>)
    requires UniqueOwners(current) && OneStatePerName(conns) && m in desired
    ensures a in ForDesired(m, current, conns) ==> !a.Delete? && Wanted(a, desired, current, conns)
    ensures (a.Create? || a.Update?) && a.manager == m && Wanted(a, desired, current, conns) ==> a in ForDesired(m, current, conns)
  {
    MissingMeansUnnamed(current, m.owner);
    var i := FirstWith(current, m.owner, OwnerKey);
    if i < |current| {
      forall k | k in current && k.owner == m.owner ensures k == current[i] {
        PresentIsFirst(current, k);
      }
      assert current[i] in current;
    }
    if a.Create? || a.Update? {
      ListedIsFound(conns, a.net);
    }
  }

  /** The actions on managers are exactly the wanted ones. */
  lemma DiffIsPlain(a: Action, desired: seq<ManagerSet>, current: seq<ManagerSet>, conns: seq<NetState>)
    requires UniqueOwners(current) && OneStatePerName(conns)
    ensures a in ManagerActions(desired, current, conns) <==> Wanted(a, desired, current, conns)
  {
    InForAllDesired(a, desired, current, conns);
    InForAllCurrent(a, current, desired);
    forall m | m in desired
      ensures a in ForDesired(m, current, conns) ==> !a.Delete? && Wanted(a, desired, current, conns)
      ensures (a.Create? || a.Update?) && a.manager == m && Wanted(a, desired, current, conns) ==> a in ForDesired(m, current, conns)
    {
      ForDesiredIsWanted(a, m, desired, current, conns);
    }
    hide ForDesired;
    if a.Delete? {
      MissingMeansUnnamed(desired, a.manager.owner);
    }
  }

  // ---------------------------------------------------------------- One action per name

  function NameOf(a: Action): string {
    if a.Spawn? then a.net.name else a.manager.owner
  }

  ghost predicate DistinctNames(acts: seq<Action>) {
    forall i, j :: 0 <= i < j < |acts| ==> NameOf(acts[i]) != NameOf(acts[j])
  }

  lemma AtMostOneEach(m: ManagerSet, current: seq<ManagerSet>, conns: seq<NetState>)
    ensures |ForDesired(m, current, conns)| <= 1
    ensures forall a :: a in ForDesired(m, current, conns) ==> !a.Spawn? && NameOf(a) == m.owner
  {
  }

  lemma {:induction false} DesiredOnce(desired: seq<ManagerSet>, current: seq<ManagerSet>, conns: seq<NetState>)
    requires UniqueOwners(desired)
    ensures var acts := ForAllDesired(desired, current, conns);
            DistinctNames(acts) && forall a :: a in acts ==> !a.Spawn? && NameOf(a) in Names(desired)
  {
    hide ForDesired;
    if desired != [] {
      var front, last := desired[..|desired| - 1], desired[|desired| - 1];
      assert desired == front + [last];
      DesiredOnce(front, current, conns);
      AtMostOneEach(last, current, conns);
      forall m | m in front ensures m.owner != last.owner {
        var i :| 0 <= i < |front| && front[i] == m;
        assert desired[i] == m;
      }
      assert Names(desired) == Names(front) + {last.owner};
    }
  }

  lemma {:induction false} CurrentOnce(current: seq<ManagerSet>, desired: seq<ManagerSet>)
    requires UniqueOwners(current)
    ensures var acts := ForAllCurrent(current, desired);
            DistinctNames(acts) && forall a :: a in acts ==> a.Delete? && a.manager in current && NameOf(a) !in Names(desired)
  {
    if current != [] {
      var front, last := current[..|current| - 1], current[|current| - 1];
      assert current == front + [last];
      CurrentOnce(front, desired);
      MissingMeansUnnamed(desired, last.owner);
      forall m | m in front ensures m.owner != last.owner {
        var i :| 0 <= i < |front| && front[i] == m;
        assert current[i] == m;
      }
    }
  }

  /** No manager is the subject of two actions. */
  lemma OneActionPerName(desired: seq<ManagerSet>, current: seq<ManagerSet>, conns: seq<NetState>)
    requires UniqueOwners(desired) && UniqueOwners(current)
    ensures DistinctNames(ManagerActions(desired, current, conns))
    ensures forall a :: a in ManagerActions(desired, current, conns) ==> !a.Spawn?
  {
    DesiredOnce(desired, current, conns);
    CurrentOnce(current, desired);
    hide ForAllDesired, ForAllCurrent;
    var left, right := ForAllDesired(desired, current, conns), ForAllCurrent(current, desired);
    forall i, j | 0 <= i < j < |left + right| ensures NameOf((left + right)[i]) != NameOf((left + right)[j]) {
      if i < |left| <= j {
        assert left[i] in left && right[j - |left|] in right;
      }
    }
  }

  // ---------------------------------------------------------------- Order and blanks do not matter

  lemma SameBag(left: seq<Action>, right: seq<Action>)
    requires DistinctNames(left) && DistinctNames(right)
    requires forall a :: a in left <==> a in right
    ensures multiset(left) == multiset(right)
  {
    forall a ensures multiset(left)[a] == multiset(right)[a] {
      OnceEach(left, a);
      OnceEach(right, a);
    }
  }

  lemma {:induction false} OnceEach(acts: seq<Action>, a: Action)
    requires DistinctNames(acts)
    ensures multiset(acts)[a] == if a in acts then 1 else 0
  {
    if acts != [] {
      var front, last := acts[..|acts| - 1], acts[|acts| - 1];
      assert acts == front + [last];
      OnceEach(front, a);
    }
  }

  lemma UniqueAfterSort(before: seq<ManagerSet>, after: seq<ManagerSet>)
    requires multiset(before) == multiset(after) && UniqueOwners(before)
    ensures UniqueOwners(after)
    ensures forall m :: m in before <==> m in after
  {
    forall m ensures m in before <==> m in after {
      assert m in multiset(before) <==> m in multiset(after);
    }
    forall i, j | 0 <= i < j < |after| ensures after[i].owner != after[j].owner {
      if after[i].owner == after[j].owner {
        assert after[i] in before && after[j] in before;
        TwiceInBag(after, i, j);
        OnceInBag(before, after[i]);
      }
    }
  }

  lemma TwiceInBag(s: seq<ManagerSet>, i: nat, j: nat)
    requires i < j < |s| && s[i] == s[j]
    ensures multiset(s)[s[i]] >= 2
  {
    assert s == s[..j] + [s[j]] + s[j + 1..];
    assert s[i] in s[..j];
  }

  lemma {:induction false} OnceInBag(s: seq<ManagerSet>, m: ManagerSet)
    requires UniqueOwners(s)
    ensures multiset(s)[m] <= 1
  {
    if s != [] {
      var front, last := s[..|s| - 1], s[|s| - 1];
      assert s == front + [last];
      OnceInBag(front, m);
      forall i | 0 <= i < |front| ensures front[i] != last {
        assert s[i].owner != s[|s| - 1].owner;
      }
    }
  }

  /** Sorting the lists first, in whatever way ties are broken, gives the same actions. */
  lemma SortingIsHarmless(desired: seq<ManagerSet>, current: seq<ManagerSet>, conns: seq<NetState>,
                          desired': seq<ManagerSet>, current': seq<ManagerSet>, conns': seq<NetState>)
    requires UniqueOwners(desired) && UniqueOwners(current) && OneStatePerName(conns)
    requires multiset(desired) == multiset(desired') && multiset(current) == multiset(current')
    requires multiset(conns) == multiset(conns')
    ensures multiset(ManagerActions(desired', current', conns')) == multiset(ManagerActions(desired, current, conns))
  {
    UniqueAfterSort(desired, desired');
    UniqueAfterSort(current, current');
    forall c ensures c in conns <==> c in conns' {
      assert c in multiset(conns) <==> c in multiset(conns');
    }
    assert Names(desired) == Names(desired') && Names(current) == Names(current');
    var left, right := ManagerActions(desired, current, conns), ManagerActions(desired', current', conns');
    forall a ensures a in left <==> a in right {
      DiffIsPlain(a, desired, current, conns);
      DiffIsPlain(a, desired', current', conns');
    }
    OneActionPerName(desired, current, conns);
    OneActionPerName(desired', current', conns');
    SameBag(left, right);
  }

  /** The blank states that come first change nothing, as no network has an empty name. */
  lemma BlanksAreHarmless(desired: seq<ManagerSet>, current: seq<ManagerSet>, resources: seq<Resource>)
    requires UniqueOwners(desired) && UniqueOwners(current)
    requires "" !in Names(desired) && forall i :: 0 <= i < |resources| ==> resources[i].name != ""
    requires OneStatePerName(StatesOf(resources))
    ensures var listed := seq(|resources|, i requires 0 <= i < |resources| => StateOf(resources[i]));
            && multiset(ManagerActions(desired, current, StatesOf(resources))) == multiset(ManagerActions(desired, current, listed))
            && SpawnBag(StatesOf(resources)) == SpawnBag(listed)
  {
    var listed := seq(|resources|, i requires 0 <= i < |resources| => StateOf(resources[i]));
    var all := StatesOf(resources);
    forall c ensures c in all <==> c in listed || (c == BLANK && |resources| > 0) {
      if c in listed {
        var i :| 0 <= i < |listed| && listed[i] == c;
        assert all[|resources| + i] == c;
      }
      if c == BLANK && |resources| > 0 {
        assert all[0] == c;
      }
    }
    var left, right := ManagerActions(desired, current, all), ManagerActions(desired, current, listed);
    forall a ensures a in left <==> a in right {
      DiffIsPlain(a, desired, current, all);
      DiffIsPlain(a, desired, current, listed);
    }
    OneActionPerName(desired, current, all);
    OneActionPerName(desired, current, listed);
    SameBag(left, right);
    BlanksSpawnNothing(seq(|resources|, _ => BLANK), listed);
  }

  lemma {:induction false} BlanksSpawnNothing(blanks: seq<NetState>, conns: seq<NetState>)
    requires forall i :: 0 <= i < |blanks| ==> blanks[i] == BLANK
    ensures SpawnBag(blanks + conns) == SpawnBag(conns)
  {
    if conns == [] {
      assert blanks + conns == blanks;
      if blanks != [] {
        BlanksSpawnNothing(blanks[..|blanks| - 1], []);
        assert blanks[..|blanks| - 1] + [] == blanks[..|blanks| - 1];
        assert SpawnSet(BLANK, BLANK.links.Keys) == {};
      }
    } else {
      assert (blanks + conns)[..|blanks + conns| - 1] == blanks + conns[..|conns| - 1];
      BlanksSpawnNothing(blanks, conns[..|conns| - 1]);
    }
  }

  // ---------------------------------------------------------------- Spawns

  /** Exactly the pods that a listed network reports as not up are the subjects of spawns. */
  lemma SpawnsAreForPodsDown(resources: seq<Resource>, pod: string, net: NetState)
    ensures Spawn(pod, net) in SpawnBag(StatesOf(resources)) <==>
            exists i :: 0 <= i < |resources|
              && net == NetState(resources[i].name, resources[i].spec.vlanID, resources[i].spec.mappings, resources[i].status.links)
              && pod in resources[i].status.links && resources[i].status.links[pod] != Up
  {
    var conns := StatesOf(resources);
    SpawnsPerPod(conns, Spawn(pod, net));
    assert net in conns <==> net in multiset(conns);
    forall i | 0 <= i < |resources| ensures conns[i].links == map[] && conns[|resources| + i] == StateOf(resources[i]) {
      StatesAreThoseListed(resources, i);
    }
    if pod in DownKeys(net.links) && net in conns {
      var k :| 0 <= k < |conns| && conns[k] == net;
      assert conns[k] == StateOf(resources[k - |resources|]);
    }
    if exists i :: 0 <= i < |resources| && net == StateOf(resources[i]) {
      var i :| 0 <= i < |resources| && net == StateOf(resources[i]);
      assert conns[|resources| + i] == net;
    }
  }

  function Copies(conns: seq<NetState>, c: NetState): nat {
    multiset(conns)[c]
  }

  /** There is one spawn per listed network and pod of it that is not up, and no other. */
  lemma {:induction false} SpawnsPerPod(conns: seq<NetState>, a: Action)
    ensures SpawnBag(conns)[a] ==
            if a.Spawn? && a.pod in DownKeys(a.net.links) then Copies(conns, a.net) else 0
  {
    if conns != [] {
      var front, last := conns[..|conns| - 1], conns[|conns| - 1];
      assert conns == front + [last];
      SpawnsPerPod(front, a);
      assert a in SpawnSet(last, last.links.Keys) <==> a.Spawn? && a.net == last && a.pod in DownKeys(last.links);
    }
  }
}
