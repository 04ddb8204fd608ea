/** The status as the operator holds it: an object whose maps are edited in place. Every
    loop over a map takes the keys in an order of its own choosing. */
module StatusObject {
  import opened Wrappers
  import opened Kube
  import opened Network
  import opened Text
  import opened Ipam
  import opened Requeue
  import opened Links

  lemma ValueOneMore(seen: seq<EnvVar>, env: seq<EnvVar>, v: nat, name: string)
    requires v < |env|
    ensures LastValue(seen + env[..v + 1], name) ==
            if env[v].name == name then env[v].value else LastValue(seen + env[..v], name)
  {
    assert (seen + env[..v + 1])[..|seen| + v] == seen + env[..v];
  }

  lemma EnvOneMore(containers: seq<Container>, c: nat)
    requires c < |containers|
    ensures AllEnv(containers[..c + 1]) == AllEnv(containers[..c]) + containers[c].env
  {
    assert containers[..c + 1][..c] == containers[..c];
  }

  /** Reads the address out of a pod; later variables overwrite earlier ones. */
  method ExtractVlan(pod: Pod) returns (fullIp: string, found: bool)
    ensures Extracted(fullIp, found) == PodAddress(pod)
  {
    var subnet, ip := "", "";
    assert AllEnv(pod.initContainers[..0]) == [];
    assert LastValue([], "MACVLAN_IP") == "" && LastValue([], "MACVLAN_SUBNET") == "";
    hide AllEnv, LastValue;
    for c := 0 to |pod.initContainers|
      invariant ip == LastValue(AllEnv(pod.initContainers[..c]), "MACVLAN_IP")
      invariant subnet == LastValue(AllEnv(pod.initContainers[..c]), "MACVLAN_SUBNET")
    {
      var env := pod.initContainers[c].env;
      ghost var seen := AllEnv(pod.initContainers[..c]);
      assert seen + env[..0] == seen;
      for v := 0 to |env|
        invariant ip == LastValue(seen + env[..v], "MACVLAN_IP")
        invariant subnet == LastValue(seen + env[..v], "MACVLAN_SUBNET")
      {
        ValueOneMore(seen, env, v, "MACVLAN_IP");
        ValueOneMore(seen, env, v, "MACVLAN_SUBNET");
        if env[v].name == "MACVLAN_IP" {
          ip := env[v].value;
        }
        if env[v].name == "MACVLAN_SUBNET" {
          subnet := env[v].value;
        }
      }
      assert env[..|env|] == env;
      EnvOneMore(pod.initContainers, c);
    }
    assert pod.initContainers[..|pod.initContainers|] == pod.initContainers;
    fullIp := ip;
    if subnet != "" {
      fullIp := fullIp + "/" + subnet;
    }
    found := ip != "";
  }

  lemma HeldByOneMore(pods: seq<Pod>, pod: Pod)
    ensures HeldBy(pods + [pod]) == HeldBy(pods) + (if PodAddress(pod).found then {Bare(PodAddress(pod).address)} else {})
  {
    assert forall p :: p in pods + [pod] <==> p in pods || p == pod;
  }

  /** The links outside `todo` that are not up. */
  function DownOutside(links: map<string, Link>, todo: set<string>): nat {
    |DownKeys(links) - todo|
  }

  lemma CountOneMore(links: map<string, Link>, todo: set<string>, pod: string)
    requires pod in todo && pod in links
    ensures DownOutside(links, todo - {pod}) == DownOutside(links, todo) + (if links[pod] != Up then 1 else 0)
  {
    assert DownKeys(links) - (todo - {pod}) == (DownKeys(links) - todo) + (if links[pod] != Up then {pod} else {});
  }

  lemma UnhealthyWithOneDown(down: nat)
    ensures Health(down + 1) == "Unhealthy"
  {
  }

  lemma Uncounted(links: map<string, Link>)
    ensures DownOutside(links, links.Keys) == 0 && DownOutside(links, {}) == |DownKeys(links)|
  {
    assert DownKeys(links) - links.Keys == {} && DownKeys(links) - {} == DownKeys(links);
  }

  lemma RemoveOneMore<K, V>(m: map<K, V>, gone: set<K>, k: K)
    ensures m - gone - {k} == m - (gone + {k})
  {
  }

  lemma PoolNamesOneMore(pools: seq<Pool>, pool: Pool)
    ensures PoolNames(pools + [pool]) == PoolNames(pools) + {pool.name}
    ensures forall name :: name in PoolNames(pools + [pool]) ==>
              AddressesOf(pools + [pool], name) == if name == pool.name then pool.addresses else AddressesOf(pools, name)
  {
    assert forall p :: p in pools + [pool] <==> p in pools || p == pool;
    assert (pools + [pool])[..|pools|] == pools;
  }

  /** Pending maps with an empty one added for every name that has none. */
  function Opened(pending: map<string, map<string, Stamp>>, names: set<string>): map<string, map<string, Stamp>> {
    map name | name in pending.Keys + names :: if name in pending then pending[name] else map[]
  }

  /** The free lists after the pools seen so far were written over them. */
  function Overwritten(free: map<string, seq<string>>, pools: seq<Pool>): map<string, seq<string>> {
    map name | name in free.Keys + PoolNames(pools) ::
      if name in PoolNames(pools) then AddressesOf(pools, name) else free[name]
  }

  lemma OverwrittenOneMore(free: map<string, seq<string>>, pools: seq<Pool>, pool: Pool)
    ensures Overwritten(free, pools + [pool]) == Overwritten(free, pools)[pool.name := pool.addresses]
  {
    PoolNamesOneMore(pools, pool);
    hide AddressesOf, PoolNames;
    var left, right := Overwritten(free, pools + [pool]), Overwritten(free, pools)[pool.name := pool.addresses];
    assert left.Keys == right.Keys;
    assert forall name :: name in left ==> left[name] == right[name];
  }

  lemma OpenedOneMore(pending: map<string, map<string, Stamp>>, names: set<string>, name: string)
    ensures Opened(pending, names + {name}) ==
            if name in Opened(pending, names) then Opened(pending, names) else Opened(pending, names)[name := map[]]
  {
  }

  /** The free lists with those of `names` filtered. */
  function Trimmed(free: map<string, seq<string>>, names: set<string>, blocked: set<string>): map<string, seq<string>> {
    map name | name in free :: if name in names then Without(free[name], blocked) else free[name]
  }

  lemma TrimmedNone(free: map<string, seq<string>>, blocked: set<string>)
    ensures Trimmed(free, {}, blocked) == free
  {
  }

  lemma TrimmedOneMore(free: map<string, seq<string>>, names: set<string>, blocked: set<string>, name: string)
    requires name in free && name !in names
    ensures name in Trimmed(free, names, blocked) && Trimmed(free, names, blocked)[name] == free[name]
    ensures Trimmed(free, names + {name}, blocked) == Trimmed(free, names, blocked)[name := Without(free[name], blocked)]
  {
  }

  function Expired(pending: map<string, map<string, Stamp>>, held: set<string>, clock: Clock): map<string, map<string, Stamp>> {
    map name | name in pending :: SurvivingStamps(name, pending[name], held, clock)
  }

  /** The passes over the pending maps, one after the other, make up that part of the transform. */
  lemma PendingComposes(before: Status, spec: Spec, pods: seq<Pod>, daemons: seq<string>, clock: Clock)
    ensures var names := PoolNames(spec.pools);
            var started := Opened(before.pendingIPs - (before.freeIPs.Keys - names), names);
            && Expired(started, HeldBy(pods), clock).Keys == KeptPools(before, spec)
            && Expired(started, HeldBy(pods), clock) == Reconciled(before, spec, pods, daemons, clock).pendingIPs
  {
    var names := PoolNames(spec.pools);
    var started := Opened(before.pendingIPs - (before.freeIPs.Keys - names), names);
    var expected := Reconciled(before, spec, pods, daemons, clock).pendingIPs;
    var computed := Expired(started, HeldBy(pods), clock);
    assert computed.Keys == expected.Keys;
    forall name | name in started ensures computed[name] == expected[name] {
      assert started[name] == StampsIn(before, name);
    }
  }

  lemma FreeComposes(before: Status, spec: Spec, pods: seq<Pod>, daemons: seq<string>, clock: Clock)
    ensures var names := PoolNames(spec.pools);
            var full := Overwritten(before.freeIPs - (before.freeIPs.Keys - names), spec.pools);
            Trimmed(full, full.Keys, KeptPools(before, spec) + HeldBy(pods)) ==
            Reconciled(before, spec, pods, daemons, clock).freeIPs
  {
    var names := PoolNames(spec.pools);
    var full := Overwritten(before.freeIPs - (before.freeIPs.Keys - names), spec.pools);
    assert full.Keys == names;
  }

  lemma LinksCompose(before: Status, spec: Spec, pods: seq<Pod>, daemons: seq<string>, clock: Clock, links: map<string, Link>)
    requires forall pod :: pod in links <==> pod in before.links && (pod in daemons || (pod == "" && daemons != []))
    requires forall pod :: pod in links ==> links[pod] == before.links[pod]
    ensures links == Reconciled(before, spec, pods, daemons, clock).links
  {
    hide Without, AddressesOf, PoolNames, KeptPools, SurvivingStamps, StampsIn, HeldBy;
  }

  lemma KeepsSummary(before: Status, spec: Spec, pods: seq<Pod>, daemons: seq<string>, clock: Clock)
    ensures Reconciled(before, spec, pods, daemons, clock).shortState == before.shortState
  {
  }

  method AnyHolds(pods: seq<Pod>, ip: string) returns (contains: bool)
    ensures contains <==> Bare(ip) in HeldBy(pods)
  {
    contains := false;
    for i := 0 to |pods|
      invariant contains <==> Bare(ip) in HeldBy(pods[..i])
    {
      assert pods[..i + 1] == pods[..i] + [pods[i]];
      var extracted, found := ExtractVlan(pods[i]);
      if found && Bare(ip) == Bare(extracted) {
        contains := true;
      }
    }
    assert pods[..|pods|] == pods;
  }

  method CollectHeld(pods: seq<Pod>) returns (podIpList: seq<string>)
    ensures (set ip | ip in podIpList) == HeldBy(pods)
  {
    podIpList := [];
    for i := 0 to |pods|
      invariant (set ip | ip in podIpList) == HeldBy(pods[..i])
    {
      assert pods[..i + 1] == pods[..i] + [pods[i]];
      HeldByOneMore(pods[..i], pods[i]);
      var ip, found := ExtractVlan(pods[i]);
      if found {
        assert forall a :: a in podIpList + [Bare(ip)] <==> a in podIpList || a == Bare(ip);
        podIpList := podIpList + [Bare(ip)];
      }
    }
    assert pods[..|pods|] == pods;
  }

  method DeleteBlocked(addresses: seq<string>, poolNames: set<string>, podIpList: seq<string>) returns (kept: seq<string>)
    ensures kept == Without(addresses, poolNames + set ip | ip in podIpList)
  {
    kept := [];
    ghost var blocked := poolNames + set ip | ip in podIpList;
    for i := 0 to |addresses|
      invariant kept == Without(addresses[..i], blocked)
    {
      assert addresses[..i + 1][..i] == addresses[..i];
      if !(Bare(addresses[i]) in poolNames || Bare(addresses[i]) in podIpList) {
        kept := kept + [addresses[i]];
      }
    }
    assert addresses[..|addresses|] == addresses;
  }

  class NetworkStatus {
    var freeIPs: map<string, seq<string>>
    var pendingIPs: map<string, map<string, Stamp>>
    var links: map<string, Link>
    var shortState: string

    constructor (from: Status)
      ensures Value() == from
    {
      freeIPs := from.freeIPs;
      pendingIPs := from.pendingIPs;
      links := from.links;
      shortState := from.shortState;
    }

    function Value(): Status
      reads this
    {
      Status(freeIPs, pendingIPs, links, shortState)
    }

    method PruneLinks(daemons: seq<string>)
      modifies `links
      ensures forall pod ::
                pod in links <==> pod in old(links) && (pod in daemons || (pod == "" && daemons != []))
      ensures forall pod :: pod in links ==> links[pod] == old(links)[pod]
    {
      // The list starts out with blanks and is then appended to.
      var daemonNames := seq(|daemons|, _ => "");
      for i := 0 to |daemons|
        invariant |daemonNames| == |daemons| + i
        invariant forall j :: 0 <= j < |daemons| ==> daemonNames[j] == ""
        invariant forall j :: 0 <= j < i ==> daemonNames[|daemons| + j] == daemons[j]
      {
        daemonNames := daemonNames + [daemons[i]];
      }
      assert forall name :: name in daemonNames <==> name in DaemonNames(daemons) by {
        forall name ensures name in daemonNames <==> name in DaemonNames(daemons) {
          if name in daemonNames {
            var k :| 0 <= k < |daemonNames| && daemonNames[k] == name;
            assert k >= |daemons| ==> daemons[k - |daemons|] == daemonNames[|daemons| + (k - |daemons|)];
          }
          if name in daemons {
            var j :| 0 <= j < |daemons| && daemons[j] == name;
            assert daemonNames[|daemons| + j] == name;
          }
          if name == "" && |daemons| > 0 {
            assert daemonNames[0] == name;
          }
        }
      }
      var todo := links.Keys;
      while todo != {}
        invariant todo <= old(links).Keys
        invariant links == map pod | pod in old(links) && (pod in todo || pod in DaemonNames(daemons)) :: old(links)[pod]
        decreases |todo|
      {
        var pod :| pod in todo;
        todo := todo - {pod};
        if pod !in daemonNames {
          links := links - {pod};
        }
      }
    }

    method DropPools(pools: seq<Pool>)
      modifies `freeIPs, `pendingIPs
      ensures freeIPs == old(freeIPs) - (old(freeIPs).Keys - PoolNames(pools))
      ensures pendingIPs == old(pendingIPs) - (old(freeIPs).Keys - PoolNames(pools))
    {
      var todo := freeIPs.Keys;
      ghost var gone: set<string> := {};
      while todo != {}
        invariant todo <= old(freeIPs).Keys
        invariant gone == old(freeIPs).Keys - todo - PoolNames(pools)
        invariant freeIPs == old(freeIPs) - gone && pendingIPs == old(pendingIPs) - gone
        decreases |todo|
      {
        var name :| name in todo;
        todo := todo - {name};
        if !(exists p :: p in pools && p.name == name) {
          RemoveOneMore(old(freeIPs), gone, name);
          RemoveOneMore(old(pendingIPs), gone, name);
          freeIPs := freeIPs - {name};
          pendingIPs := pendingIPs - {name};
          gone := gone + {name};
        }
      }
      assert gone == old(freeIPs).Keys - PoolNames(pools);
    }

    method ResetPools(pools: seq<Pool>)
      modifies `freeIPs, `pendingIPs
      ensures freeIPs == Overwritten(old(freeIPs), pools)
      ensures pendingIPs == Opened(old(pendingIPs), PoolNames(pools))
    {
      for i := 0 to |pools|
        invariant freeIPs == Overwritten(old(freeIPs), pools[..i])
        invariant pendingIPs == Opened(old(pendingIPs), PoolNames(pools[..i]))
      {
        var pool := pools[i];
        assert pools[..i + 1] == pools[..i] + [pool];
        OverwrittenOneMore(old(freeIPs), pools[..i], pool);
        PoolNamesOneMore(pools[..i], pool);
        OpenedOneMore(old(pendingIPs), PoolNames(pools[..i]), pool.name);
        freeIPs := freeIPs[pool.name := pool.addresses];
        if pool.name !in pendingIPs {
          pendingIPs := pendingIPs[pool.name := map[]];
        }
      }
      assert pools[..|pools|] == pools;
    }

    /** Removes the stamps of one pool that do not survive. */
    method ExpireStampsOf(name: string, pods: seq<Pod>, clock: Clock)
      requires name in pendingIPs
      modifies `pendingIPs
      ensures pendingIPs == old(pendingIPs)[name := SurvivingStamps(name, old(pendingIPs)[name], HeldBy(pods), clock)]
    {
      var stamps := pendingIPs[name];
      var todo := stamps.Keys;
      ghost var before := stamps;
      while todo != {}
        invariant todo <= before.Keys
        invariant pendingIPs == old(pendingIPs)
        invariant stamps == map ip | ip in before && (ip in todo || Survives(ip, before[ip], HeldBy(pods), clock(name, ip))) :: before[ip]
        decreases |todo|
      {
        var ip :| ip in todo;
        todo := todo - {ip};
        if stamps[ip].Unreadable? {
          stamps := stamps - {ip};
        } else {
          var contains := AnyHolds(pods, ip);
          var timePassed := clock(name, ip) > Deadline(stamps[ip].sec);
          if contains || timePassed {
            stamps := stamps - {ip};
          }
        }
      }
      assert stamps == SurvivingStamps(name, before, HeldBy(pods), clock);
      pendingIPs := pendingIPs[name := stamps];
    }

    method ExpireStamps(pods: seq<Pod>, clock: Clock)
      modifies `pendingIPs
      ensures pendingIPs == Expired(old(pendingIPs), HeldBy(pods), clock)
    {
      var todo := pendingIPs.Keys;
      while todo != {}
        invariant todo <= old(pendingIPs).Keys
        invariant pendingIPs == map name | name in old(pendingIPs) ::
                    if name in todo then old(pendingIPs)[name]
                    else SurvivingStamps(name, old(pendingIPs)[name], HeldBy(pods), clock)
        decreases |todo|
      {
        var name :| name in todo;
        ExpireStampsOf(name, pods, clock);
        todo := todo - {name};
      }
    }

    method RebuildFree(podIpList: seq<string>)
      modifies `freeIPs
      ensures freeIPs == Trimmed(old(freeIPs), old(freeIPs).Keys, pendingIPs.Keys + set ip | ip in podIpList)
    {
      var todo := freeIPs.Keys;
      ghost var seen: set<string> := {};
      ghost var blocked := pendingIPs.Keys + set ip | ip in podIpList;
      TrimmedNone(freeIPs, blocked);
      hide Trimmed, Without;
      while todo != {}
        invariant todo + seen == old(freeIPs).Keys && todo !! seen
        invariant freeIPs == Trimmed(old(freeIPs), seen, blocked)
        decreases |todo|
      {
        var name :| name in todo;
        TrimmedOneMore(old(freeIPs), seen, blocked, name);
        // The keys are the names of the pools, not the addresses in them.
        var remaining := DeleteBlocked(freeIPs[name], pendingIPs.Keys, podIpList);
        freeIPs := freeIPs[name := remaining];
        todo := todo - {name};
        seen := seen + {name};
      }
      assert seen == old(freeIPs).Keys;
    }

    /** The pool delay visited last is the one that is reported. */
    method RequeueDelay(clock: Clock) returns (requeueIn: Option<int>)
      ensures PossibleDelay(pendingIPs, clock, requeueIn)
    {
      requeueIn := None;
      var todo := pendingIPs.Keys;
      while todo != {}
        invariant todo <= pendingIPs.Keys
        invariant if todo == pendingIPs.Keys then requeueIn.None?
                  else exists name :: name in pendingIPs && IsEarliest(name, pendingIPs[name], clock, requeueIn)
        decreases |todo|
      {
        var name :| name in todo;
        todo := todo - {name};
        requeueIn := EarliestOf(name, pendingIPs[name], clock);
      }
    }

    /** One pass of the reconciler over the status, with the delay it asks for. */
    method Reconcile(spec: Spec, pods: seq<Pod>, daemons: seq<string>, clock: Clock, later: Clock)
      returns (requeueIn: Option<int>)
      modifies this
      ensures Value() == Reconciled(old(Value()), spec, pods, daemons, clock)
      ensures PossibleDelay(pendingIPs, later, requeueIn)
    {
      hide Reconciled, Opened, Overwritten, Trimmed, Expired, KeptPools, HeldBy, PoolNames, PossibleDelay;
      PruneLinks(daemons);
      LinksCompose(old(Value()), spec, pods, daemons, clock, links);
      KeepsSummary(old(Value()), spec, pods, daemons, clock);
      DropPools(spec.pools);
      ResetPools(spec.pools);
      PendingComposes(old(Value()), spec, pods, daemons, clock);
      FreeComposes(old(Value()), spec, pods, daemons, clock);
      ExpireStamps(pods, clock);
      var podIpList := CollectHeld(pods);
      assert pendingIPs.Keys == KeptPools(old(Value()), spec);
      RebuildFree(podIpList);
      requeueIn := RequeueDelay(later);
    }

    /** Picks the first address of the pool that is not pending and stamps it. */
    method Grant(poolName: string, now: int) returns (picked: Option<string>)
      modifies `freeIPs, `pendingIPs
      ensures picked == Offer(old(Value()), poolName)
      ensures picked.Some? ==> Value() == Granted(old(Value()), poolName, picked.value, StampOf(now))
      ensures picked.None? ==> pendingIPs == old(pendingIPs)
      ensures picked.None? ==> freeIPs == old(freeIPs)[poolName := FreeIn(old(Value()), poolName)]
    {
      if poolName !in freeIPs {
        freeIPs := freeIPs[poolName := []];
      }
      var pool := freeIPs[poolName];
      var pendingMap := if poolName in pendingIPs then pendingIPs[poolName] else map[];
      picked := None;
      var i := 0;
      while i < |pool| && picked.None?
        invariant 0 <= i <= |pool|
        invariant picked.None? ==> FirstFree(pool, pendingMap) == FirstFree(pool[i..], pendingMap)
        invariant picked.Some? ==> picked == FirstFree(pool, pendingMap)
        decreases |pool| - i, picked.None?
      {
        if pool[i] in pendingMap {
          i := i + 1;
        } else {
          picked := Some(pool[i]);
        }
      }
      if picked.None? {
        return;
      }
      pendingMap := pendingMap[picked.value := StampOf(now)];
      pendingIPs := pendingIPs[poolName := pendingMap];
    }

    /** Recounts the links and rewrites the summary. */
    method UpdateShortState()
      modifies `shortState
      ensures shortState == ShortStateOf(links)
    {
      var state := "Healthy";
      var downCounter: nat := 0;
      assert state == Health(0);
      Uncounted(links);
      hide FormatInt, DownKeys, DownOutside, Health;
      var todo := links.Keys;
      while todo != {}
        invariant todo <= links.Keys
        invariant downCounter == DownOutside(links, todo)
        invariant state == Health(downCounter)
        decreases |todo|
      {
        var pod :| pod in todo;
        CountOneMore(links, todo, pod);
        todo := todo - {pod};
        UnhealthyWithOneDown(downCounter);
        if links[pod] != Up {
          state := "Unhealthy";
          downCounter := downCounter + 1;
        }
      }
      shortState := state + " (" + FormatInt(|links| - downCounter) + "/" + FormatInt(|links|) + ")";
    }

    /** What a manager pod or a spawn action writes. */
    method SetLink(pod: string, link: Link)
      modifies `links, `shortState
      ensures Value() == Linked(old(Value()), pod, link)
    {
      links := links[pod := link];
      UpdateShortState();
    }
  }
}
