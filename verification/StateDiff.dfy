/** The difference between the managers that should run and those that do. */
module StateDiff {
  import opened Wrappers
  import opened Network
  import opened Links
  import opened ManagerCodec
  import opened Sorting

  datatype NetState = NetState(name: string, vlanID: int, mappings: Slice<IPMapping>, links: map<string, Link>)

  const BLANK := NetState("", 0, Nil, map[])

  datatype Action =
    | Spawn(pod: string, net: NetState)
    | Create(manager: ManagerSet, net: NetState)
    | Update(manager: ManagerSet, net: NetState)
    | Delete(manager: ManagerSet)

  // ---------------------------------------------------------------- Inputs

  datatype Resource = Resource(name: string, spec: Spec, status: Status)

  function StateOf(r: Resource): NetState {
    NetState(r.name, r.spec.vlanID, r.spec.mappings, r.status.links)
  }

  /** The states of the listed networks, after as many blank ones. */
  function StatesOf(resources: seq<Resource>): seq<NetState> {
    seq(|resources|, _ => BLANK) + seq(|resources|, i requires 0 <= i < |resources| => StateOf(resources[i]))
  }

  function ReadAll(sets: seq<DaemonSet>): Decoded<seq<ManagerSet>>
    requires forall d :: d in sets ==> |d.containers| > 0
  {
    if sets == [] then Ok([])
    else
      match ReadAll(sets[..|sets| - 1])
      case Err(e) => Err(e)
      case Ok(front) =>
        match Read(sets[|sets| - 1])
        case Err(e) => Err(e)
        case Ok(m) => Ok(front + [m])
  }

  function DesiredOf(resources: seq<Resource>): seq<ManagerSet> {
    seq(|resources|, i requires 0 <= i < |resources| => DesiredManager(resources[i].name, resources[i].spec))
  }

  method CreateDesiredState(networks: seq<Resource>) returns (mgrs: seq<ManagerSet>)
    ensures mgrs == DesiredOf(networks)
    ensures |mgrs| == |networks|
    ensures forall i :: 0 <= i < |networks| ==>
              && mgrs[i].owner == networks[i].name && mgrs[i].vlanID == networks[i].spec.vlanID
              && mgrs[i].gateways == networks[i].spec.gateways && mgrs[i].affinity == networks[i].spec.affinity
              && mgrs[i].mappings == networks[i].spec.mappings
  {
    mgrs := [];
    for i := 0 to |networks|
      invariant mgrs == DesiredOf(networks)[..i]
    {
      mgrs := mgrs + [DesiredManager(networks[i].name, networks[i].spec)];
    }
  }

  lemma {:induction false} ReadAllError(sets: seq<DaemonSet>, n: nat)
    requires n <= |sets| && forall d :: d in sets ==> |d.containers| > 0
    requires ReadAll(sets[..n]).Err?
    ensures ReadAll(sets) == ReadAll(sets[..n])
    decreases |sets| - n
  {
    if n == |sets| {
      assert sets[..n] == sets;
    } else {
      assert sets[..n + 1][..n] == sets[..n];
      ReadAllError(sets, n + 1);
    }
  }

  /** The blank states come first, then one with the name, number, mappings and links of each
      network. */
  lemma StatesAreThoseListed(resources: seq<Resource>, i: nat)
    requires i < |resources|
    ensures var conns := StatesOf(resources);
            && |conns| == 2 * |resources|
            && conns[i].name == "" && conns[i].vlanID == 0 && conns[i].mappings == Nil && conns[i].links == map[]
            && var conn := conns[|resources| + i];
               && conn.name == resources[i].name && conn.vlanID == resources[i].spec.vlanID
               && conn.mappings == resources[i].spec.mappings && conn.links == resources[i].status.links
  {
  }

  /** Reading a list: the readings in order, or the error of the first that cannot be read. */
  lemma {:induction false} ReadAllIs(sets: seq<DaemonSet>)
    requires forall d :: d in sets ==> |d.containers| > 0
    ensures match ReadAll(sets)
      case Ok(ms) => |ms| == |sets| && forall i :: 0 <= i < |sets| ==> Read(sets[i]) == Ok(ms[i])
      case Err(e) => exists i :: 0 <= i < |sets| && Read(sets[i]) == Err(e) && forall j :: 0 <= j < i ==> Read(sets[j]).Ok?
  {
    hide Read;
    if sets != [] {
      var front, n := sets[..|sets| - 1], |sets| - 1;
      ReadAllIs(front);
      assert forall j :: 0 <= j < n ==> front[j] == sets[j];
      if ReadAll(front).Err? {
        var i :| 0 <= i < n && Read(front[i]) == Err(ReadAll(front).error) && forall j :: 0 <= j < i ==> Read(front[j]).Ok?;
        assert Read(sets[i]) == Err(ReadAll(sets).error);
      } else if Read(sets[n]).Err? {
        assert Read(sets[n]) == Err(ReadAll(sets).error);
      }
    }
  }

  method GetCurrentState(vlans: seq<Resource>, managers: seq<DaemonSet>)
    returns (mgrs: Decoded<seq<ManagerSet>>, connStates: seq<NetState>)
    requires forall d :: d in managers ==> |d.containers| > 0
    ensures mgrs == ReadAll(managers)
    ensures mgrs.Ok? ==> connStates == StatesOf(vlans)
  {
    connStates := seq(|vlans|, _ => BLANK);
    for i := 0 to |vlans|
      invariant connStates == StatesOf(vlans)[..|vlans| + i]
    {
      connStates := connStates + [StateOf(vlans[i])];
    }
    var found: seq<ManagerSet> := [];
    for i := 0 to |managers|
      invariant ReadAll(managers[..i]) == Ok(found)
    {
      assert managers[..i + 1][..i] == managers[..i];
      var m := ManagerFromSet(managers[i]);
      if m.Err? {
        ReadAllError(managers, i + 1);
        return Err(m.error), connStates;
      }
      found := found + [m.value];
    }
    assert managers[..|managers|] == managers;
    mgrs := Ok(found);
  }

  // ---------------------------------------------------------------- The plain difference

  function Names(managers: seq<ManagerSet>): set<string> {
    set m | m in managers :: m.owner
  }

  /** The last network with the name. */
  function NetworkNamed(conns: seq<NetState>, name: string): (r: Option<NetState>)
    ensures r.Some? ==> r.value in conns && r.value.name == name
    ensures r.None? ==> forall c :: c in conns ==> c.name != name
  {
    if conns == [] then None
    else if conns[|conns| - 1].name == name then Some(conns[|conns| - 1])
    else NetworkNamed(conns[..|conns| - 1], name)
  }

  const OwnerKey := (m: ManagerSet) => m.owner
  const NameKey := (c: NetState) => c.name

  /** What to do about one desired manager. */
  function ForDesired(m: ManagerSet, current: seq<ManagerSet>, conns: seq<NetState>): seq<Action> {
    var net := NetworkNamed(conns, m.owner);
    var i := FirstWith(current, m.owner, OwnerKey);
    if net.None? then []
    else if i == |current| then [Create(m, net.value)]
    else if m != current[i] then [Update(m, net.value)]
    else []
  }

  function ForAllDesired(desired: seq<ManagerSet>, current: seq<ManagerSet>, conns: seq<NetState>): seq<Action> {
    if desired == [] then []
    else ForAllDesired(desired[..|desired| - 1], current, conns) + ForDesired(desired[|desired| - 1], current, conns)
  }

  function ForAllCurrent(current: seq<ManagerSet>, desired: seq<ManagerSet>): seq<Action> {
    if current == [] then []
    else
      var last := current[|current| - 1];
      ForAllCurrent(current[..|current| - 1], desired)
      + if FirstWith(desired, last.owner, OwnerKey) == |desired| then [Delete(last)] else []
  }

  function ManagerActions(desired: seq<ManagerSet>, current: seq<ManagerSet>, conns: seq<NetState>): seq<Action> {
    ForAllDesired(desired, current, conns) + ForAllCurrent(current, desired)
  }

  /** One spawn for each pod that is not up, in every network that lists it. */
  function SpawnBag(conns: seq<NetState>): multiset<Action> {
    if conns == [] then multiset{}
    else
      var last := conns[|conns| - 1];
      SpawnBag(conns[..|conns| - 1]) + multiset(SpawnSet(last, last.links.Keys))
  }

  // ---------------------------------------------------------------- The reconciler's version

  method SpawnActions(conns: seq<NetState>) returns (acts: seq<Action>)
    ensures multiset(acts) == SpawnBag(conns)
  {
    acts := [];
    for i := 0 to |conns|
      invariant multiset(acts) == SpawnBag(conns[..i])
    {
      assert conns[..i + 1][..i] == conns[..i];
      var more := SpawnsFor(conns[i]);
      acts := acts + more;
    }
    assert conns[..|conns|] == conns;
  }

  /** The spawns for those of `pods` that are not up. */
  function SpawnSet(conn: NetState, pods: set<string>): set<Action> {
    set pod | pod in pods && pod in DownKeys(conn.links) :: Spawn(pod, conn)
  }

  lemma SpawnOneMore(conn: NetState, pods: set<string>, pod: string)
    requires pod !in pods
    ensures multiset(SpawnSet(conn, pods + {pod})) ==
            multiset(SpawnSet(conn, pods)) + (if pod in DownKeys(conn.links) then multiset{Spawn(pod, conn)} else multiset{})
  {
    assert SpawnSet(conn, pods + {pod}) ==
           SpawnSet(conn, pods) + (if pod in DownKeys(conn.links) then {Spawn(pod, conn)} else {});
    assert Spawn(pod, conn) !in SpawnSet(conn, pods);
  }

  method SpawnsFor(conn: NetState) returns (acts: seq<Action>)
    ensures multiset(acts) == multiset(SpawnSet(conn, conn.links.Keys))
  {
    acts := [];
    var todo := conn.links.Keys;
    ghost var seen: set<string> := {};
    assert SpawnSet(conn, {}) == {};
    hide SpawnSet;
    while todo != {}
      invariant todo + seen == conn.links.Keys && todo !! seen
      invariant multiset(acts) == multiset(SpawnSet(conn, seen))
      decreases |todo|
    {
      var pod :| pod in todo;
      SpawnOneMore(conn, seen, pod);
      todo := todo - {pod};
      seen := seen + {pod};
      if conn.links[pod] != Up {
        assert pod in DownKeys(conn.links);
        acts := acts + [Spawn(pod, conn)];
      }
    }
    assert seen == conn.links.Keys;
  }

  method DiffManagers(desired: ManagerSet, current: ManagerSet, net: NetState) returns (acts: seq<Action>)
    ensures acts == if desired != current then [Update(desired, net)] else []
  {
    if desired != current {
      return [Update(desired, net)];
    }
    acts := [];
  }

  method NetworkIndex(conns: array<NetState>, name: string) returns (netIdx: int)
    ensures -1 <= netIdx < conns.Length
    ensures NetworkNamed(conns[..], name) == if netIdx == -1 then None else Some(conns[netIdx])
  {
    netIdx := -1;
    for i := 0 to conns.Length
      invariant -1 <= netIdx < i
      invariant NetworkNamed(conns[..i], name) == if netIdx == -1 then None else Some(conns[netIdx])
    {
      assert conns[..i + 1][..i] == conns[..i];
      if conns[i].name == name {
        netIdx := i;
      }
    }
    assert conns[..conns.Length] == conns[..];
  }

  method ActionsFor(m: ManagerSet, current: array<ManagerSet>, conns: array<NetState>) returns (acts: seq<Action>)
    requires SortedBy(current[..], OwnerKey)
    ensures acts == ForDesired(m, current[..], conns[..])
  {
    var idx, found := BinarySearchFunc(current, m.owner, OwnerKey);
    SearchIsLookup(current[..], m.owner, OwnerKey, idx);
    var netIdx := NetworkIndex(conns, m.owner);
    if netIdx == -1 {
      return [];
    }
    if !found {
      return [Create(m, conns[netIdx])];
    }
    acts := DiffManagers(m, current[idx], conns[netIdx]);
  }

  /** Sorts its inputs in place and compares them by binary search. The actions on managers
      are those of the plain difference of the sorted lists; the spawns come first. */
  method DiffStates(desired: array<ManagerSet>, current: array<ManagerSet>, currentConns: array<NetState>)
    returns (acts: seq<Action>, ghost spawns: seq<Action>)
    requires desired != current
    modifies desired, current, currentConns
    ensures SortedBy(desired[..], OwnerKey) && multiset(desired[..]) == multiset(old(desired[..]))
    ensures SortedBy(current[..], OwnerKey) && multiset(current[..]) == multiset(old(current[..]))
    ensures multiset(currentConns[..]) == multiset(old(currentConns[..]))
    ensures multiset(spawns) == SpawnBag(old(currentConns[..]))
    ensures acts == spawns + ManagerActions(desired[..], current[..], currentConns[..])
  {
    acts := SpawnActions(currentConns[..]);
    spawns := acts;
    SortFunc(desired, OwnerKey);
    SortFunc(current, OwnerKey);
    SortFunc(currentConns, NameKey);
    var more := CompareSorted(desired, current, currentConns);
    acts := acts + more;
  }

  method CompareSorted(desired: array<ManagerSet>, current: array<ManagerSet>, currentConns: array<NetState>)
    returns (acts: seq<Action>)
    requires SortedBy(desired[..], OwnerKey) && SortedBy(current[..], OwnerKey)
    ensures acts == ManagerActions(desired[..], current[..], currentConns[..])
  {
    acts := ActionsForDesired(desired, current, currentConns);
    var deletes := ActionsForCurrent(current, desired);
    acts := acts + deletes;
  }

  method ActionsForDesired(desired: array<ManagerSet>, current: array<ManagerSet>, currentConns: array<NetState>)
    returns (acts: seq<Action>)
    requires SortedBy(current[..], OwnerKey)
    ensures acts == ForAllDesired(desired[..], current[..], currentConns[..])
  {
    hide ForDesired, SortedBy;
    acts := [];
    for i := 0 to desired.Length
      invariant acts == ForAllDesired(desired[..i], current[..], currentConns[..])
    {
      assert desired[..i + 1][..i] == desired[..i];
      var more := ActionsFor(desired[i], current, currentConns);
      acts := acts + more;
    }
    assert desired[..desired.Length] == desired[..];
  }

  method ActionsForCurrent(current: array<ManagerSet>, desired: array<ManagerSet>) returns (acts: seq<Action>)
    requires SortedBy(desired[..], OwnerKey)
    ensures acts == ForAllCurrent(current[..], desired[..])
  {
    acts := [];
    for i := 0 to current.Length
      invariant acts == ForAllCurrent(current[..i], desired[..])
    {
      assert current[..i + 1][..i] == current[..i];
      var found := IsDesired(desired, current[i].owner);
      if !found {
        acts := acts + [Delete(current[i])];
      }
    }
    assert current[..current.Length] == current[..];
  }

  method IsDesired(desired: array<ManagerSet>, owner: string) returns (found: bool)
    requires SortedBy(desired[..], OwnerKey)
    ensures found <==> FirstWith(desired[..], owner, OwnerKey) < desired.Length
  {
    var idx;
    idx, found := BinarySearchFunc(desired, owner, OwnerKey);
    SearchIsLookup(desired[..], owner, OwnerKey, idx);
  }
}
