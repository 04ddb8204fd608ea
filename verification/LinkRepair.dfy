/** From a link that went down to one that is up again. */
module LinkRepair {
  import opened Network
  import opened Text
  import opened Links
  import opened StateDiff
  import opened DiffFacts

  /** The status after spawns for these pods succeeded, one after the other. */
  function Repaired(before: Status, pods: seq<string>): Status {
    if pods == [] then before else Linked(Repaired(before, pods[..|pods| - 1]), pods[|pods| - 1], Up)
  }

  lemma OneUp(links: map<string, Link>, pod: string)
    ensures DownKeys(links[pod := Up]) == DownKeys(links) - {pod}
  {
  }

  /** Whichever of the listed pods are repaired, these and no others are up afterwards, and
      the summary is that of the links. */
  lemma {:induction false} RepairedLinks(before: Status, pods: seq<string>)
    ensures var after := Repaired(before, pods);
            && DownKeys(after.links) == DownKeys(before.links) - (set p | p in pods)
            && after.links.Keys == before.links.Keys + (set p | p in pods)
            && after.freeIPs == before.freeIPs && after.pendingIPs == before.pendingIPs
            && (pods != [] ==> after.shortState == ShortStateOf(after.links))
  {
    hide ShortStateOf, DownKeys;
    if pods != [] {
      var front, last := pods[..|pods| - 1], pods[|pods| - 1];
      assert pods == front + [last];
      RepairedLinks(before, front);
      OneUp(Repaired(before, front).links, last);
      assert (set p | p in pods) == (set p | p in front) + {last};
    }
  }

  function Count(n: nat): string {
    " (" + FormatInt(n) + "/" + FormatInt(n) + ")"
  }

  /** The summary reads healthy, with all links counted, exactly when no link is down. */
  lemma HealthyMeansAllUp(links: map<string, Link>)
    ensures ShortStateOf(links) == "Healthy" + Count(|links|) <==> DownKeys(links) == {}
  {
    var down := |DownKeys(links)|;
    if down > 0 {
      assert ShortStateOf(links)[0] == 'U' && ("Healthy" + Count(|links|))[0] == 'H';
    } else {
      assert DownKeys(links) == {};
      assert ShortStateOf(links) == "Healthy" + Count(|links|);
    }
  }

  /** The pods a list of actions spawns interfaces for in one network. */
  function SpawnedPods(acts: seq<Action>, net: NetState): set<string> {
    set a | a in acts && a.Spawn? && a.net == net :: a.pod
  }

  lemma SpawnsCoverDownPods(spawns: seq<Action>, conns: seq<NetState>, net: NetState)
    requires multiset(spawns) == SpawnBag(conns) && net in conns
    ensures SpawnedPods(spawns, net) == DownKeys(net.links)
    ensures forall pod :: pod in DownKeys(net.links) ==> multiset(spawns)[Spawn(pod, net)] == Copies(conns, net)
  {
    forall pod ensures pod in SpawnedPods(spawns, net) <==> pod in DownKeys(net.links) {
      SpawnsPerPod(conns, Spawn(pod, net));
      assert Spawn(pod, net) in spawns <==> Spawn(pod, net) in multiset(spawns);
      assert pod in SpawnedPods(spawns, net) ==> Spawn(pod, net) in spawns;
    }
    forall pod | pod in DownKeys(net.links) ensures multiset(spawns)[Spawn(pod, net)] == Copies(conns, net) {
      SpawnsPerPod(conns, Spawn(pod, net));
    }
  }

  /** The whole cycle for one network. If the spawns of one difference all succeed, in any
      order and with no other writer in between, every listed pod is up. If there was one at
      all, the summary is healthy with every link counted; and the next difference spawns
      nothing more for the network. */
  lemma CycleRepairs(before: Status, net: NetState, conns: seq<NetState>, spawns: seq<Action>, order: seq<string>)
    requires net in conns && net.links == before.links
    requires multiset(spawns) == SpawnBag(conns)
    requires (set p | p in order) == SpawnedPods(spawns, net)
    ensures var after := Repaired(before, order);
            && after.links.Keys == before.links.Keys
            && (forall pod :: pod in after.links ==> after.links[pod] == Up)
            && (order != [] ==> after.shortState == "Healthy" + Count(|before.links|))
            && SpawnSet(net.(links := after.links), after.links.Keys) == {}
  {
    hide ShortStateOf, Repaired, SpawnBag, SpawnedPods, DownKeys, Count;
    SpawnsCoverDownPods(spawns, conns, net);
    RepairedLinks(before, order);
    var after := Repaired(before, order);
    assert DownKeys(after.links) == {};
    DownAreLinked(before.links);
    NoneDownMeansUp(after.links);
    NoneDownSpawnsNothing(net.(links := after.links));
    SameKeysSameSize(after.links, before.links);
    HealthyMeansAllUp(after.links);
  }

  lemma DownAreLinked(links: map<string, Link>)
    ensures DownKeys(links) <= links.Keys
  {
  }

  lemma NoneDownMeansUp(links: map<string, Link>)
    requires DownKeys(links) == {}
    ensures forall pod :: pod in links ==> links[pod] == Up
  {
    forall pod | pod in links ensures links[pod] == Up {
      assert pod !in DownKeys(links);
    }
  }

  lemma NoneDownSpawnsNothing(net: NetState)
    requires DownKeys(net.links) == {}
    ensures SpawnSet(net, net.links.Keys) == {}
  {
  }

  lemma SameKeysSameSize(a: map<string, Link>, b: map<string, Link>)
    requires a.Keys == b.Keys
    ensures |a| == |b|
  {
    assert |a.Keys| == |a| && |b.Keys| == |b|;
  }

  /** A pod that reports itself down is the subject of one spawn in the next difference. */
  lemma DownIsNoticed(before: Status, pod: string, conns: seq<NetState>, net: NetState)
    requires net.links == Linked(before, pod, Down).links && Copies(conns, net) == 1
    ensures SpawnBag(conns)[Spawn(pod, net)] == 1
  {
    SpawnsPerPod(conns, Spawn(pod, net));
  }
}
