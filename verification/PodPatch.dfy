/** How a granted address is written into a pod. */
module PodPatch {
  import opened Wrappers
  import opened Kube
  import opened Text
  import opened Ipam

  const WORKER_LABEL := "vlanman.dialo.ai/worker"
  const INIT_NAME := "init-vlan"

  datatype Patch = Patch(
    network: string,
    affinity: Option<Affinity>,
    image: string,
    pullPolicy: string,
    ip: string,
    routes: string,
    managers: string)

  function SubnetOf(ip: string): string {
    if Cut(ip).found then Cut(ip).after else "32"
  }

  function InitContainer(p: Patch): Container {
    Container(INIT_NAME, p.image, p.pullPolicy, [
      EnvVar("VLAN_NETWORK", p.network),
      EnvVar("MACVLAN_IP", Bare(p.ip)),
      EnvVar("MACVLAN_SUBNET", SubnetOf(p.ip)),
      EnvVar("ROUTES", p.routes),
      EnvVar("MANAGERS", p.managers)])
  }

  function WithAddress(c: Container, p: Patch): Container {
    c.(env := c.env + [EnvVar("VLAN_IP", Bare(p.ip)), EnvVar("VLAN_SUBNET", SubnetOf(p.ip))])
  }

  function Override<T>(base: Option<T>, override: Option<T>): Option<T> {
    if override.Some? then override else base
  }

  function MergeAffinity(base: Option<Affinity>, override: Affinity): Affinity {
    match base
    case None => override
    case Some(b) =>
      Affinity(Override(b.node, override.node), Override(b.pod, override.pod), Override(b.antiPod, override.antiPod))
  }

  function Patched(pod: Pod, p: Patch): Pod {
    Pod(
      pod.name,
      pod.labels[WORKER_LABEL := p.network],
      [InitContainer(p)] + pod.initContainers,
      seq(|pod.containers|, i requires 0 <= i < |pod.containers| => WithAddress(pod.containers[i], p)),
      if p.affinity.Some? then Some(MergeAffinity(pod.affinity, p.affinity.value)) else pod.affinity)
  }

  // ---------------------------------------------------------------- Reading it back

  predicate Sets(env: seq<EnvVar>, name: string) {
    exists i :: 0 <= i < |env| && env[i].name == name
  }

  /** An init container of the pod asks for an address of its own. */
  predicate ClaimsAddress(pod: Pod) {
    Sets(AllEnv(pod.initContainers), "MACVLAN_IP")
  }

  function Claim(pod: Pod): string {
    LastValue(AllEnv(pod.initContainers), "MACVLAN_IP")
  }

  predicate ClaimsSubnet(pod: Pod) {
    Sets(AllEnv(pod.initContainers), "MACVLAN_SUBNET")
  }

  lemma {:induction false} AllEnvPrepend(first: Container, rest: seq<Container>)
    ensures AllEnv([first] + rest) == first.env + AllEnv(rest)
  {
    if rest == [] {
      assert [first] + rest == [first] && [first][..0] == [];
      assert AllEnv([first]) == AllEnv([]) + first.env;
    } else {
      var front, last := rest[..|rest| - 1], rest[|rest| - 1];
      assert ([first] + rest)[..|rest|] == [first] + front;
      AllEnvPrepend(first, front);
    }
  }

  lemma {:induction false} LastValueAppend(early: seq<EnvVar>, late: seq<EnvVar>, name: string)
    ensures LastValue(early + late, name) == if Sets(late, name) then LastValue(late, name) else LastValue(early, name)
  {
    if late == [] {
      assert early + late == early;
    } else {
      var front, last := late[..|late| - 1], late[|late| - 1];
      assert (early + late)[..|early + late| - 1] == early + front;
      if last.name == name {
        assert late[|late| - 1].name == name;
      } else {
        LastValueAppend(early, front, name);
        assert Sets(late, name) ==> Sets(front, name);
        assert Sets(front, name) ==> Sets(late, name) by {
          if Sets(front, name) {
            var i :| 0 <= i < |front| && front[i].name == name;
            assert late[i].name == name;
          }
        }
      }
    }
  }

  lemma InitVariables(p: Patch)
    ensures LastValue(InitContainer(p).env, "MACVLAN_IP") == Bare(p.ip)
    ensures LastValue(InitContainer(p).env, "MACVLAN_SUBNET") == SubnetOf(p.ip)
  {
    var env := InitContainer(p).env;
    assert LastValue(env[..3], "MACVLAN_SUBNET") == SubnetOf(p.ip);
    assert LastValue(env[..2], "MACVLAN_IP") == Bare(p.ip);
    assert env[..5] == env && env[..5][..4] == env[..4] && env[..4][..3] == env[..3] && env[..3][..2] == env[..2];
    assert LastValue(env, "MACVLAN_IP") == LastValue(env[..4], "MACVLAN_IP") == LastValue(env[..3], "MACVLAN_IP");
    assert LastValue(env, "MACVLAN_SUBNET") == LastValue(env[..4], "MACVLAN_SUBNET");
  }

  /** What the reader of a patched pod ends up with: claims of the pod win. */
  lemma PatchedAddress(pod: Pod, p: Patch)
    ensures var ip := if ClaimsAddress(pod) then Claim(pod) else Bare(p.ip);
            var subnet := if ClaimsSubnet(pod) then LastValue(AllEnv(pod.initContainers), "MACVLAN_SUBNET") else SubnetOf(p.ip);
            PodAddress(Patched(pod, p)) == Extracted(WithPrefix(ip, subnet), ip != "")
  {
    AllEnvPrepend(InitContainer(p), pod.initContainers);
    LastValueAppend(InitContainer(p).env, AllEnv(pod.initContainers), "MACVLAN_IP");
    LastValueAppend(InitContainer(p).env, AllEnv(pod.initContainers), "MACVLAN_SUBNET");
    InitVariables(p);
    hide InitContainer, AllEnv, LastValue, Bare, SubnetOf, Sets;
  }

  function WithPrefix(ip: string, subnet: string): string {
    if subnet != "" then ip + "/" + subnet else ip
  }

  lemma BareWithPrefix(ip: string, subnet: string)
    ensures Bare(WithPrefix(ip, subnet)) == Bare(ip)
  {
    if subnet != "" {
      assert ip + "/" + subnet == ip + ("/" + subnet);
      BareOfJoined(ip, "/" + subnet);
    }
  }

  /** What follows a separator does not count. */
  lemma {:induction false} BareOfJoined(ip: string, rest: string)
    requires rest != "" && rest[0] == '/'
    ensures Bare(ip + rest) == Bare(ip)
  {
    var s := ip + rest;
    if ip == "" {
      assert s == rest;
    } else if ip[0] != '/' {
      assert s[0] == ip[0] && s[1..] == ip[1..] + rest;
      BareOfJoined(ip[1..], rest);
    }
  }

  /** The part of the round trip that addresses are counted by. For any pod, the reconciler
      reads the granted bare address exactly when no init container claims another one; and
      it finds an address at all exactly when the one that counts is not empty. */
  lemma PatchedReportsGrant(pod: Pod, p: Patch)
    ensures var read := PodAddress(Patched(pod, p));
            && (Bare(read.address) == Bare(p.ip) <==> (ClaimsAddress(pod) ==> Bare(Claim(pod)) == Bare(p.ip)))
            && (read.found <==> (if ClaimsAddress(pod) then Claim(pod) else Bare(p.ip)) != "")
  {
    PatchedAddress(pod, p);
    hide PodAddress, Patched, ClaimsAddress, ClaimsSubnet, Claim, AllEnv, LastValue, SubnetOf, WithPrefix;
    var ip := if ClaimsAddress(pod) then Claim(pod) else Bare(p.ip);
    var subnet := if ClaimsSubnet(pod) then LastValue(AllEnv(pod.initContainers), "MACVLAN_SUBNET") else SubnetOf(p.ip);
    BareWithPrefix(ip, subnet);
    CutPlainText(Bare(p.ip));
  }

  /** The full text. For a pod without claims of its own, the address comes back with "/32"
      added when it had no prefix length; only an address that ends in its separator is
      written back differently. */
  lemma PatchedReportsText(pod: Pod, p: Patch)
    requires !ClaimsAddress(pod) && !ClaimsSubnet(pod)
    ensures PodAddress(Patched(pod, p)).address == (if '/' in p.ip then p.ip else p.ip + "/32")
            <==> !(Cut(p.ip).found && Cut(p.ip).after == "")
  {
    PatchedAddress(pod, p);
    WrittenAsGranted(p.ip);
    hide PodAddress, Patched, Bare, SubnetOf, Cut;
  }

  /** The text of an address after it was cut and put together again. */
  lemma WrittenAsGranted(ip: string)
    ensures WithPrefix(Bare(ip), SubnetOf(ip)) == (if '/' in ip then ip else ip + "/32")
            <==> !(Cut(ip).found && Cut(ip).after == "")
  {
    if Cut(ip).found {
      CutSplits(ip);
      if Cut(ip).after == "" {
        assert |ip| == |Cut(ip).before| + 1;
      }
    }
  }

  lemma CutPlainText(s: string)
    requires '/' !in s
    ensures Bare(s) == s
  {
  }

  /** A claim decides what the pod reports, whatever was granted. */
  lemma ExistingClaimWins(pod: Pod, p: Patch)
    requires ClaimsAddress(pod)
    ensures Bare(PodAddress(Patched(pod, p)).address) == Bare(Claim(pod))
  {
    PatchedAddress(pod, p);
    BareWithPrefix(Claim(pod),
                   if ClaimsSubnet(pod) then LastValue(AllEnv(pod.initContainers), "MACVLAN_SUBNET") else SubnetOf(p.ip));
  }

  // ---------------------------------------------------------------- What the patch is made of

  /** The last variable of a name is the one that counts. */
  lemma {:induction false} LastOneCounts(env: seq<EnvVar>, i: nat)
    requires i < |env| && forall j :: i < j < |env| ==> env[j].name != env[i].name
    ensures LastValue(env, env[i].name) == env[i].value
  {
    var front := env[..|env| - 1];
    if i < |front| {
      assert front[i] == env[i];
      LastOneCounts(front, i);
    }
  }

  /** The pod keeps all it had. It gets the worker's label; a container of its own that runs
      first; and, where the network names an affinity, the network's parts in place of its own. */
  lemma PatchKeepsPod(pod: Pod, p: Patch)
    ensures var after := Patched(pod, p);
            && after.name == pod.name
            && WORKER_LABEL in after.labels && after.labels[WORKER_LABEL] == p.network
            && (forall k :: k != WORKER_LABEL ==> (k in after.labels <==> k in pod.labels))
            && (forall k :: k != WORKER_LABEL && k in pod.labels ==> after.labels[k] == pod.labels[k])
            && |after.initContainers| == |pod.initContainers| + 1 && after.initContainers[1..] == pod.initContainers
            && after.initContainers[0].name == "init-vlan"
            && after.initContainers[0].image == p.image && after.initContainers[0].pullPolicy == p.pullPolicy
            && (p.affinity.None? ==> after.affinity == pod.affinity)
            && (p.affinity.Some? ==> after.affinity.Some? && IsMerged(pod.affinity, p.affinity.value, after.affinity.value))
  {
    hide InitContainer, WithAddress;
    var first := [InitContainer(p)];
    assert (first + pod.initContainers)[1..] == pod.initContainers;
    assert InitContainer(p).name == "init-vlan" && InitContainer(p).image == p.image
        && InitContainer(p).pullPolicy == p.pullPolicy by {
      InitIsNamed(p);
    }
    if p.affinity.Some? {
      MergeTakesOverride(pod.affinity, p.affinity.value);
    }
  }

  lemma InitIsNamed(p: Patch)
    ensures InitContainer(p).name == "init-vlan"
    ensures InitContainer(p).image == p.image && InitContainer(p).pullPolicy == p.pullPolicy
  {
  }

  /** A part that the network gives counts; one that it leaves open is the pod's. */
  predicate IsMerged(own: Option<Affinity>, network: Affinity, merged: Affinity) {
    && merged.node == (if network.node.Some? then network.node else if own.Some? then own.value.node else None)
    && merged.pod == (if network.pod.Some? then network.pod else if own.Some? then own.value.pod else None)
    && merged.antiPod == (if network.antiPod.Some? then network.antiPod else if own.Some? then own.value.antiPod else None)
  }

  lemma MergeTakesOverride(own: Option<Affinity>, network: Affinity)
    ensures IsMerged(own, network, MergeAffinity(own, network))
  {
  }

  /** The init container finds the network, the routes and the managers in its variables. */
  lemma InitIsTold(p: Patch)
    ensures var env := InitContainer(p).env;
            && LastValue(env, "VLAN_NETWORK") == p.network
            && LastValue(env, "ROUTES") == p.routes && LastValue(env, "MANAGERS") == p.managers
  {
    var env := InitContainer(p).env;
    LastOneCounts(env, 0);
    LastOneCounts(env, 3);
    LastOneCounts(env, 4);
  }

  /** Every container keeps its place, its image and its variables, and finds the address in two
      more: put together with a slash they are the granted address, with "/32" if it had no
      prefix. */
  lemma ContainersAreTold(pod: Pod, p: Patch, i: nat, name: string)
    requires i < |pod.containers|
    ensures |Patched(pod, p).containers| == |pod.containers|
    ensures var before, after := pod.containers[i], Patched(pod, p).containers[i];
            && after.(env := before.env) == before && before.env <= after.env
            && (name != "VLAN_IP" && name != "VLAN_SUBNET" ==> LastValue(after.env, name) == LastValue(before.env, name))
            && '/' !in LastValue(after.env, "VLAN_IP")
            && LastValue(after.env, "VLAN_IP") + "/" + LastValue(after.env, "VLAN_SUBNET")
               == (if '/' in p.ip then p.ip else p.ip + "/32")
  {
    var before, after := pod.containers[i], Patched(pod, p).containers[i];
    assert after == WithAddress(before, p);
    var late := [EnvVar("VLAN_IP", Bare(p.ip)), EnvVar("VLAN_SUBNET", SubnetOf(p.ip))];
    LastOneCounts(late, 0);
    LastOneCounts(late, 1);
    assert late[0].name == "VLAN_IP" && late[1].name == "VLAN_SUBNET";
    hide LastValue, Patched;
    LastValueAppend(before.env, late, "VLAN_IP");
    LastValueAppend(before.env, late, "VLAN_SUBNET");
    LastValueAppend(before.env, late, name);
    if '/' in p.ip {
      CutSplits(p.ip);
    }
  }
}
