/** The admission webhook: it reserves an address in the status of the network and then
    writes it into the pod. */
module Webhook {
  import opened Wrappers
  import opened Kube
  import opened Network
  import opened Text
  import opened Ipam
  import opened IpamFacts
  import opened PodPatch
  import opened StatusObject
  import opened ApiServer

  const NETWORK_ANNOTATION := "vlanman.dialo.ai/network"
  const POOL_ANNOTATION := "vlanman.dialo.ai/pool"

  // ---------------------------------------------------------------- The pod

  function Join(parts: seq<string>): string {
    if parts == [] then ""
    else if |parts| == 1 then parts[0]
    else Join(parts[..|parts| - 1]) + "," + parts[|parts| - 1]
  }

  function Endpoints(order: seq<string>, endpoints: map<string, string>): seq<string>
    requires forall node :: node in order ==> node in endpoints
  {
    if order == [] then []
    else Endpoints(order[..|order| - 1], endpoints) + [order[|order| - 1] + "=" + endpoints[order[|order| - 1]]]
  }

  /** `order` names every node once. */
  ghost predicate Enumerates(order: seq<string>, nodes: set<string>) {
    && (forall node :: node in order <==> node in nodes)
    && (forall i, j :: 0 <= i < j < |order| ==> order[i] != order[j])
  }

  /** The text is the list of all managers, in some order. */
  ghost predicate ListsManagers(text: string, endpoints: map<string, string>) {
    exists order :: Enumerates(order, endpoints.Keys) && text == Join(Endpoints(order, endpoints))
  }

  // What a reader of that text finds.

  /** The parts between the commas. */
  function Split(s: string): (parts: seq<string>)
    ensures |parts| > 0
  {
    if s == "" then [""]
    else if s[0] == ',' then [""] + Split(s[1..])
    else
      var rest := Split(s[1..]);
      [[s[0]] + rest[0]] + rest[1..]
  }

  lemma {:induction false} SplitPlain(s: string)
    requires ',' !in s
    ensures Split(s) == [s]
  {
    if s != "" {
      SplitPlain(s[1..]);
      assert [s[0]] + s[1..] == s;
    }
  }

  lemma {:induction false} SplitLast(front: string, last: string)
    requires ',' !in last
    ensures Split(front + "," + last) == Split(front) + [last]
  {
    var s := front + "," + last;
    if front == "" {
      assert s[1..] == last;
      SplitPlain(last);
    } else {
      assert s[0] == front[0] && s[1..] == front[1..] + "," + last;
      SplitLast(front[1..], last);
    }
  }

  lemma {:induction false} SplitJoined(parts: seq<string>)
    requires parts != [] && forall part :: part in parts ==> ',' !in part
    ensures Split(Join(parts)) == parts
  {
    if |parts| == 1 {
      SplitPlain(parts[0]);
    } else {
      var front, last := parts[..|parts| - 1], parts[|parts| - 1];
      assert parts == front + [last];
      SplitJoined(front);
      SplitLast(Join(front), last);
    }
  }

  lemma {:induction false} EndpointsAt(order: seq<string>, endpoints: map<string, string>)
    requires forall node :: node in order ==> node in endpoints
    ensures |Endpoints(order, endpoints)| == |order|
    ensures forall i :: 0 <= i < |order| ==> Endpoints(order, endpoints)[i] == order[i] + "=" + endpoints[order[i]]
  {
    if order != [] {
      EndpointsAt(order[..|order| - 1], endpoints);
    }
  }

  lemma {:induction false} OrderSize(order: seq<string>, nodes: set<string>)
    requires Enumerates(order, nodes)
    ensures |order| == |nodes|
  {
    if order != [] {
      var front, last := order[..|order| - 1], order[|order| - 1];
      assert order == front + [last];
      OrderSize(front, nodes - {last});
    }
  }

  /** Split at its commas, the list of managers has one entry `node=address` for each node with a
      manager, and no other, provided that no name or address has a comma. */
  lemma ManagersReadBack(text: string, endpoints: map<string, string>)
    requires ListsManagers(text, endpoints) && endpoints != map[]
    requires forall node :: node in endpoints ==> ',' !in node && ',' !in endpoints[node]
    ensures |Split(text)| == |endpoints|
    ensures forall entry :: entry in Split(text) <==> exists node :: node in endpoints && entry == node + "=" + endpoints[node]
  {
    var order :| Enumerates(order, endpoints.Keys) && text == Join(Endpoints(order, endpoints));
    OrderSize(order, endpoints.Keys);
    EndpointsAt(order, endpoints);
    assert |endpoints.Keys| == |endpoints| > 0;
    EntriesAre(order, endpoints);
    hide Enumerates, Endpoints, Join, Split;
    SplitJoined(Endpoints(order, endpoints));
  }

  lemma EntriesAre(order: seq<string>, endpoints: map<string, string>)
    requires Enumerates(order, endpoints.Keys)
    requires forall node :: node in endpoints ==> ',' !in node && ',' !in endpoints[node]
    ensures forall entry ::
              entry in Endpoints(order, endpoints) <==> exists node :: node in endpoints && entry == node + "=" + endpoints[node]
    ensures forall entry :: entry in Endpoints(order, endpoints) ==> ',' !in entry
  {
    var parts := Endpoints(order, endpoints);
    EndpointsAt(order, endpoints);
    hide Endpoints;
    forall entry | entry in parts
      ensures ',' !in entry && exists node :: node in endpoints && entry == node + "=" + endpoints[node]
    {
      var i :| 0 <= i < |parts| && parts[i] == entry;
      assert order[i] in endpoints;
    }
    forall node | node in endpoints ensures node + "=" + endpoints[node] in parts {
      var i :| 0 <= i < |order| && order[i] == node;
      assert parts[i] == node + "=" + endpoints[node];
    }
  }

  class WorkerPod {
    const name: string
    const annotations: map<string, string>
    var labels: map<string, string>
    var initContainers: seq<Container>
    var containers: seq<Container>
    var affinity: Option<Affinity>

    constructor (from: Pod, annotations: map<string, string>)
      ensures Value() == from && this.annotations == annotations
    {
      name := from.name;
      this.annotations := annotations;
      labels := from.labels;
      initContainers := from.initContainers;
      containers := from.containers;
      affinity := from.affinity;
    }

    function Value(): Pod
      reads this
    {
      Pod(name, labels, initContainers, containers, affinity)
    }

    method ApplyPatch(network: string, managerAffinity: Option<Affinity>, image: string, pullPolicy: string,
                      ip: string, endpoints: map<string, string>, routes: string)
      returns (ghost managers: string)
      modifies this
      ensures ListsManagers(managers, endpoints)
      ensures Value() == Patched(old(Value()), Patch(network, managerAffinity, image, pullPolicy, ip, routes, managers))
    {
      hide WithAddress, MergeAffinity, Endpoints, Join, Enumerates;
      var cut := Cut(ip);
      var subnet := cut.after;
      if !cut.found {
        subnet := "32";
      }
      if |labels| != 0 {
        labels := labels[WORKER_LABEL := network];
      } else {
        labels := map[WORKER_LABEL := network];
      }
      var list := ManagerList(endpoints);
      managers := Join(list);
      var initContainer := Container(INIT_NAME, image, pullPolicy, [
        EnvVar("VLAN_NETWORK", network),
        EnvVar("MACVLAN_IP", cut.before),
        EnvVar("MACVLAN_SUBNET", subnet),
        EnvVar("ROUTES", routes),
        EnvVar("MANAGERS", Join(list))]);
      ghost var p := Patch(network, managerAffinity, image, pullPolicy, ip, routes, managers);
      assert initContainer == InitContainer(p) by {
        assert cut.before == Bare(ip) && subnet == SubnetOf(ip);
      }
      hide InitContainer, Cut, Bare, SubnetOf;
      initContainers := [initContainer] + initContainers;
      PatchContainers(p, cut.before, subnet);
      if managerAffinity.Some? {
        affinity := Some(MergeAffinity(affinity, managerAffinity.value));
      }
    }

    method PatchContainers(ghost p: Patch, address: string, subnet: string)
      requires address == Bare(p.ip) && subnet == SubnetOf(p.ip)
      modifies `containers
      ensures containers == seq(|old(containers)|, i requires 0 <= i < |old(containers)| => WithAddress(old(containers)[i], p))
    {
      for i := 0 to |containers|
        invariant |containers| == |old(containers)|
        invariant forall j :: 0 <= j < |containers| ==>
          containers[j] == if j < i then WithAddress(old(containers)[j], p) else old(containers)[j]
      {
        var env := containers[i].env + [EnvVar("VLAN_IP", address), EnvVar("VLAN_SUBNET", subnet)];
        containers := containers[i := containers[i].(env := env)];
      }
    }
  }

  method ManagerList(endpoints: map<string, string>) returns (managers: seq<string>)
    ensures ListsManagers(Join(managers), endpoints)
  {
    managers := [];
    ghost var order: seq<string> := [];
    var todo := endpoints.Keys;
    while todo != {}
      invariant todo <= endpoints.Keys
      invariant Enumerates(order, endpoints.Keys - todo)
      invariant managers == Endpoints(order, endpoints)
      decreases |todo|
    {
      var node :| node in todo;
      todo := todo - {node};
      managers := managers + [node + "=" + endpoints[node]];
      assert (order + [node])[..|order|] == order;
      order := order + [node];
    }
    assert Enumerates(order, endpoints.Keys);
  }

  // ---------------------------------------------------------------- The webhook

  datatype ManagerPod = ManagerPod(node: string, podIP: string)

  datatype Outcome =
    | Ignored | MissingAnnotation | NoClient | NotRead | NoIPInPool | NotCommitted
    | NoManagers | Admitted(ip: string)
  {
    predicate Stamped() {
      NoManagers? || Admitted?
    }
  }

  /** The address on each node, of several managers on one node that of the last. */
  function EndpointMap(managers: seq<ManagerPod>): map<string, string> {
    if managers == [] then map[]
    else
      var last := managers[|managers| - 1];
      EndpointMap(managers[..|managers| - 1])[last.node := last.podIP]
  }

  /** Every node with a manager has an entry, that of its last manager, and no other node has. */
  lemma {:induction false} EndpointsAreLast(managers: seq<ManagerPod>, node: string)
    ensures node in EndpointMap(managers) <==> exists i :: 0 <= i < |managers| && managers[i].node == node
    ensures forall i ::
              0 <= i < |managers| && managers[i].node == node && (forall j :: i < j < |managers| ==> managers[j].node != node)
              ==> node in EndpointMap(managers) && EndpointMap(managers)[node] == managers[i].podIP
  {
    if managers != [] {
      var front, n := managers[..|managers| - 1], |managers| - 1;
      EndpointsAreLast(front, node);
      if managers[n].node != node {
        forall i | 0 <= i < |managers| && managers[i].node == node
            && forall j :: i < j < |managers| ==> managers[j].node != node
          ensures node in EndpointMap(managers) && EndpointMap(managers)[node] == managers[i].podIP
        {
          assert front[i] == managers[i] && forall j :: i < j < |front| ==> front[j].node != node;
        }
        assert forall i :: 0 <= i < n ==> front[i] == managers[i];
      }
    }
  }

  /** Collects the addresses of the managers, unless one has none yet. */
  method CollectEndpoints(managers: seq<ManagerPod>) returns (endpoints: Option<map<string, string>>)
    ensures endpoints == if ManagersReady(Some(managers)) then Some(EndpointMap(managers)) else None
  {
    if |managers| == 0 {
      return None;
    }
    var found: map<string, string> := map[];
    for i := 0 to |managers|
      invariant forall j :: 0 <= j < i ==> managers[j].podIP != ""
      invariant found == EndpointMap(managers[..i])
    {
      if managers[i].podIP == "" {
        return None;
      }
      assert managers[..i + 1][..i] == managers[..i];
      found := found[managers[i].node := managers[i].podIP];
    }
    assert managers[..|managers|] == managers;
    endpoints := Some(found);
  }

  ghost predicate ManagersReady(managers: Option<seq<ManagerPod>>) {
    managers.Some? && |managers.value| > 0 && forall i :: 0 <= i < |managers.value| ==> managers.value[i].podIP != ""
  }

  /** The record after a grant: the address carries the stamp, and nothing else is different. */
  ghost predicate IsGrant(before: Record, after: Record, pool: string, ip: string, stamp: Stamp) {
    && after.version == before.version + 1 && after.spec == before.spec
    && ip in FreeIn(before.status, pool) && ip !in StampsIn(before.status, pool)
    && after.status.pendingIPs == before.status.pendingIPs[pool := StampsIn(before.status, pool)[ip := stamp]]
    && after.status.freeIPs == before.status.freeIPs
    && after.status.links == before.status.links && after.status.shortState == before.status.shortState
  }

  function Annotation(annotations: map<string, string>, key: string): string {
    if key in annotations then annotations[key] else ""
  }

  // Everything one admission depends on. `read` is what the server answered when the network was
  // fetched, and may be outdated by the time of the update; the rest are answers of other calls.
  datatype Inputs = Inputs(hasClient: bool, read: Option<Record>, now: int, reachable: bool,
                           managers: Option<seq<ManagerPod>>, image: string, pullPolicy: string, routes: string)

  /** The update goes through: an address was picked from the record that is still the network's. */
  predicate Commits(networks: map<string, Record>, network: string, pool: string, read: Record, reachable: bool) {
    Offer(read.status, pool).Some? && reachable && network in networks && networks[network] == read
  }

  /** Which way an admission ends. */
  ghost predicate Decides(annotations: map<string, string>, networks: map<string, Record>, inputs: Inputs, outcome: Outcome) {
    var network, pool := Annotation(annotations, NETWORK_ANNOTATION), Annotation(annotations, POOL_ANNOTATION);
    var both := NETWORK_ANNOTATION in annotations && POOL_ANNOTATION in annotations;
    var fetched := both && inputs.hasClient && inputs.read.Some?;
    && (outcome.Ignored? <==> NETWORK_ANNOTATION !in annotations && POOL_ANNOTATION !in annotations)
    && (outcome.MissingAnnotation? <==> (NETWORK_ANNOTATION in annotations) != (POOL_ANNOTATION in annotations))
    && (outcome.NoClient? <==> both && !inputs.hasClient)
    && (outcome.NotRead? <==> both && inputs.hasClient && inputs.read.None?)
    && (outcome.NoIPInPool? <==> fetched && forall ip :: !Allocatable(inputs.read.value.status, pool, ip))
    && (outcome.Stamped() <==> fetched && Commits(networks, network, pool, inputs.read.value, inputs.reachable))
    && (outcome.Admitted? <==> outcome.Stamped() && ManagersReady(inputs.managers))
  }

  /** The server changes only by a commit, and that stamps, with the time of the admission, the
      first available address of the record committed at that very moment. */
  ghost predicate StoreEffect(before: map<string, Record>, after: map<string, Record>, network: string, pool: string, now: int, outcome: Outcome) {
    if outcome.Stamped() then
      && network in before && Offer(before[network].status, pool).Some? && after.Keys == before.Keys
      && (forall other :: other in before && other != network ==> after[other] == before[other])
      && IsGrant(before[network], after[network], pool, Offer(before[network].status, pool).value, StampOf(now))
      && (outcome.Admitted? ==> Some(outcome.ip) == Offer(before[network].status, pool))
    else after == before
  }

  /** The pod changes only if it is admitted. Then it carries the address, and its variables
      list the managers of the network, each once. */
  ghost predicate PodEffect(before: Pod, after: Pod, network: string, inputs: Inputs, outcome: Outcome) {
    if outcome.Admitted? then
      && inputs.read.Some? && inputs.managers.Some?
      && exists list ::
           && ListsManagers(list, EndpointMap(inputs.managers.value))
           && after == Patched(before, Patch(network, inputs.read.value.spec.affinity, inputs.image, inputs.pullPolicy,
                                             outcome.ip, inputs.routes, list))
    else after == before
  }

  /** One admission. One that fails after the commit leaves its stamp behind. */
  method Default(pod: WorkerPod, store: Store, inputs: Inputs) returns (outcome: Outcome)
    requires store.Valid()
    requires inputs.read.Some? ==> store.Served(Annotation(pod.annotations, NETWORK_ANNOTATION), inputs.read.value)
    modifies pod, store
    ensures store.Valid()
    ensures Decides(pod.annotations, old(store.networks), inputs, outcome)
    ensures outcome.Admitted? <==>
              && "vlanman.dialo.ai/network" in pod.annotations && "vlanman.dialo.ai/pool" in pod.annotations
              && inputs.hasClient && inputs.reachable && inputs.read.Some?
              && pod.annotations["vlanman.dialo.ai/network"] in old(store.networks)
              && old(store.networks)[pod.annotations["vlanman.dialo.ai/network"]] == inputs.read.value
              && (exists ip :: Allocatable(inputs.read.value.status, pod.annotations["vlanman.dialo.ai/pool"], ip))
              && inputs.managers.Some? && |inputs.managers.value| > 0
              && forall i :: 0 <= i < |inputs.managers.value| ==> inputs.managers.value[i].podIP != ""
    ensures StoreEffect(old(store.networks), store.networks, Annotation(pod.annotations, NETWORK_ANNOTATION),
                        Annotation(pod.annotations, POOL_ANNOTATION), inputs.now, outcome)
    ensures PodEffect(old(pod.Value()), pod.Value(), Annotation(pod.annotations, NETWORK_ANNOTATION), inputs, outcome)
  {
    var existsNet, existsPool := NETWORK_ANNOTATION in pod.annotations, POOL_ANNOTATION in pod.annotations;
    if !existsNet && !existsPool {
      return Ignored;
    }
    if !existsNet || !existsPool {
      return MissingAnnotation;
    }
    if !inputs.hasClient {
      return NoClient;
    }
    if inputs.read.None? {
      return NotRead;
    }
    hide Commits, Store.Valid, Store.Served, Allocatable, ManagersReady, PodEffect, Decides;
    var networkName, poolName := pod.annotations[NETWORK_ANNOTATION], pod.annotations[POOL_ANNOTATION];
    outcome := Reserve(store, networkName, inputs.read.value, poolName, inputs.now, inputs.reachable);
    AfterReserve(pod.annotations, old(store.networks), inputs, outcome);
    UnchangedPod(pod.Value(), networkName, inputs, outcome);
    if outcome.Admitted? {
      FailingLateKeepsStamp(old(store.networks), store.networks, networkName, poolName, inputs.now, outcome.ip);
      hide StoreEffect;
      var admitted := Admit(pod, networkName, inputs, outcome.ip);
      if !admitted {
        outcome := NoManagers;
      }
    }
  }

  /** The rest of an admission that has fetched its network can only turn success into NoManagers. */
  lemma AfterReserve(annotations: map<string, string>, networks: map<string, Record>, inputs: Inputs, reserved: Outcome)
    requires NETWORK_ANNOTATION in annotations && POOL_ANNOTATION in annotations && inputs.hasClient && inputs.read.Some?
    requires reserved.NoIPInPool? || reserved.NotCommitted? || reserved.Admitted?
    requires reserved.NoIPInPool? <==> forall ip :: !Allocatable(inputs.read.value.status, annotations[POOL_ANNOTATION], ip)
    requires reserved.Admitted? <==>
             Commits(networks, annotations[NETWORK_ANNOTATION], annotations[POOL_ANNOTATION], inputs.read.value, inputs.reachable)
    ensures reserved.Admitted? && !ManagersReady(inputs.managers) ==> Decides(annotations, networks, inputs, NoManagers)
    ensures (reserved.Admitted? ==> ManagersReady(inputs.managers)) ==> Decides(annotations, networks, inputs, reserved)
  {
    hide Commits, Allocatable, ManagersReady;
    var pool := Annotation(annotations, POOL_ANNOTATION);
    assert reserved.NoIPInPool? <==> forall ip :: !Allocatable(inputs.read.value.status, pool, ip);
    assert reserved.Stamped() <==> reserved.Admitted?;
  }

  lemma UnchangedPod(pod: Pod, network: string, inputs: Inputs, outcome: Outcome)
    ensures !outcome.Admitted? ==> PodEffect(pod, pod, network, inputs, outcome)
  {
  }

  lemma FailingLateKeepsStamp(before: map<string, Record>, after: map<string, Record>, network: string, pool: string, now: int, ip: string)
    requires StoreEffect(before, after, network, pool, now, Admitted(ip))
    ensures StoreEffect(before, after, network, pool, now, NoManagers)
  {
  }

  /** The part after the commit. */
  method Admit(pod: WorkerPod, network: string, inputs: Inputs, ip: string) returns (admitted: bool)
    requires inputs.read.Some?
    modifies pod
    ensures admitted <==> ManagersReady(inputs.managers)
    ensures PodEffect(old(pod.Value()), pod.Value(), network, inputs, if admitted then Admitted(ip) else NoManagers)
  {
    if inputs.managers.None? {
      return false;
    }
    var endpoints := CollectEndpoints(inputs.managers.value);
    if endpoints.None? {
      return false;
    }
    hide EndpointMap, ListsManagers, Patched;
    ghost var list := pod.ApplyPatch(network, inputs.read.value.spec.affinity, inputs.image, inputs.pullPolicy, ip,
                                     endpoints.value, inputs.routes);
    assert pod.Value() == Patched(old(pod.Value()), Patch(network, inputs.read.value.spec.affinity, inputs.image,
                                                          inputs.pullPolicy, ip, inputs.routes, list));
    admitted := true;
  }

  /** The part up to the commit. */
  method Reserve(store: Store, networkName: string, network: Record, poolName: string, now: int, reachable: bool)
    returns (outcome: Outcome)
    requires store.Valid() && store.Served(networkName, network)
    modifies store
    ensures store.Valid()
    ensures outcome.NoIPInPool? || outcome.NotCommitted? || outcome.Admitted?
    ensures outcome.NoIPInPool? <==> forall ip :: !Allocatable(network.status, poolName, ip)
    ensures outcome.Admitted? <==> Commits(old(store.networks), networkName, poolName, network, reachable)
    ensures StoreEffect(old(store.networks), store.networks, networkName, poolName, now, outcome)
  {
    hide Offer, Allocatable, Granted, IsGrant, StampsIn, FreeIn, StampOf, Grew, Store.Valid, Store.Served;
    var picked, status := Pick(network.status, poolName, now);
    if picked.None? {
      return NoIPInPool;
    }
    var answer := store.UpdateStatus(networkName, network, status, reachable);
    if !answer.Committed? {
      return NotCommitted;
    }
    CommitIsGrant(network, status, poolName, picked.value, StampOf(now));
    outcome := Admitted(picked.value);
  }

  lemma CommitIsGrant(read: Record, status: Status, pool: string, ip: string, stamp: Stamp)
    requires Offer(read.status, pool) == Some(ip) && status == Granted(read.status, pool, ip, stamp)
    ensures IsGrant(read, read.(version := read.version + 1, status := status), pool, ip, stamp)
  {
    GrantIsMinimal(read.status, pool, stamp);
  }

  /** The webhook edits its own copy of the status it fetched. */
  method Pick(from: Status, poolName: string, now: int) returns (picked: Option<string>, status: Status)
    ensures picked == Offer(from, poolName)
    ensures picked.Some? ==> status == Granted(from, poolName, picked.value, StampOf(now))
    ensures picked.None? <==> forall ip :: !Allocatable(from, poolName, ip)
  {
    var net := new NetworkStatus(from);
    picked := net.Grant(poolName, now);
    status := net.Value();
    GrantIsMinimal(from, poolName, StampOf(now));
  }
}
