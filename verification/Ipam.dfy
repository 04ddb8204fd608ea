/** Address bookkeeping as mathematics: what a reconcile pass and a grant make of a status.
    The objects of the operator are shown to compute exactly these values. */
module Ipam {
  import opened Wrappers
  import opened Kube
  import opened Network
  import opened Text

  // ---------------------------------------------------------------- Reading a pod

  datatype Extracted = Extracted(address: string, found: bool)

  /** The value of the last variable called `name`, or the empty text. */
  function LastValue(env: seq<EnvVar>, name: string): string {
    if env == [] then ""
    else if env[|env| - 1].name == name then env[|env| - 1].value
    else LastValue(env[..|env| - 1], name)
  }

  /** All variables of all containers, in order. */
  function AllEnv(containers: seq<Container>): seq<EnvVar> {
    if containers == [] then []
    else AllEnv(containers[..|containers| - 1]) + containers[|containers| - 1].env
  }

  function PodAddress(pod: Pod): Extracted {
    var env := AllEnv(pod.initContainers);
    var ip := LastValue(env, "MACVLAN_IP");
    var subnet := LastValue(env, "MACVLAN_SUBNET");
    Extracted(if subnet != "" then ip + "/" + subnet else ip, ip != "")
  }

  /** Bare addresses that listed pods say they hold. */
  function HeldBy(pods: seq<Pod>): set<string> {
    set p | p in pods && PodAddress(p).found :: Bare(PodAddress(p).address)
  }

  // ---------------------------------------------------------------- The reconcile transform

  /** The clock reading used for each entry; the pass reads the clock once per stamp. */
  type Clock = (string, string) -> int

  predicate Survives(ip: string, stamp: Stamp, held: set<string>, now: int) {
    stamp.At? && Bare(ip) !in held && now <= Deadline(stamp.sec)
  }

  function SurvivingStamps(pool: string, stamps: map<string, Stamp>, held: set<string>, clock: Clock): map<string, Stamp> {
    map ip | ip in stamps && Survives(ip, stamps[ip], held, clock(pool, ip)) :: stamps[ip]
  }

  /** Pools whose pending map outlives the pass. A pool outside the specification loses it
      only if it also had an entry among the free addresses. */
  function KeptPools(before: Status, spec: Spec): set<string> {
    before.pendingIPs.Keys - (before.freeIPs.Keys - PoolNames(spec.pools)) + PoolNames(spec.pools)
  }

  function StampsIn(status: Status, pool: string): map<string, Stamp> {
    if pool in status.pendingIPs then status.pendingIPs[pool] else map[]
  }

  /** The addresses whose bare part is not blocked, in order. */
  function Without(addresses: seq<string>, blocked: set<string>): seq<string> {
    if addresses == [] then []
    else
      var rest := Without(addresses[..|addresses| - 1], blocked);
      var last := addresses[|addresses| - 1];
      if Bare(last) in blocked then rest else rest + [last]
  }

  /** One blank entry per daemon comes before the real names. */
  function DaemonNames(daemons: seq<string>): set<string> {
    (set d | d in daemons) + (if |daemons| > 0 then {""} else {})
  }

  function Reconciled(before: Status, spec: Spec, pods: seq<Pod>, daemons: seq<string>, clock: Clock): Status {
    var held := HeldBy(pods);
    var kept := KeptPools(before, spec);
    Status(
      map name | name in PoolNames(spec.pools) :: Without(AddressesOf(spec.pools, name), kept + held),
      map name | name in kept :: SurvivingStamps(name, StampsIn(before, name), held, clock),
      map pod | pod in before.links && pod in DaemonNames(daemons) :: before.links[pod],
      before.shortState)
  }

  // ---------------------------------------------------------------- The grant transform

  /** The earliest entry of the pool that is not pending. */
  function FirstFree(pool: seq<string>, pending: map<string, Stamp>): (r: Option<string>)
    ensures r.None? <==> forall i | 0 <= i < |pool| :: pool[i] in pending
    ensures r.Some? ==> r.value in pool && r.value !in pending
  {
    if pool == [] then None
    else if pool[0] !in pending then Some(pool[0])
    else FirstFree(pool[1..], pending)
  }

  function FreeIn(status: Status, pool: string): seq<string> {
    if pool in status.freeIPs then status.freeIPs[pool] else []
  }

  /** The address a grant from `pool` would pick, if there is one. */
  function Offer(status: Status, pool: string): Option<string> {
    FirstFree(FreeIn(status, pool), StampsIn(status, pool))
  }

  predicate Allocatable(status: Status, pool: string, ip: string) {
    ip in FreeIn(status, pool) && ip !in StampsIn(status, pool)
  }

  function Granted(before: Status, pool: string, ip: string, stamp: Stamp): Status {
    before.(
      freeIPs := before.freeIPs[pool := FreeIn(before, pool)],
      pendingIPs := before.pendingIPs[pool := StampsIn(before, pool)[ip := stamp]])
  }
}
