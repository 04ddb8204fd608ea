/** The VlanNetwork resource: its specification and its status. */
module Network {
  import opened Wrappers
  import opened Kube

  // Time is counted in nanoseconds. A stamp is a time written with whole seconds only.
  const SECOND: int := 1_000_000_000
  const PENDING_TIMEOUT: int := 35

  datatype Stamp = At(sec: int) | Unreadable

  /** What a time turns into when it is written down: the sub-second part is lost. */
  function StampOf(time: int): Stamp {
    At(time / SECOND)
  }

  /** The last instant at which a stamp still counts. */
  function Deadline(sec: int): int {
    (sec + PENDING_TIMEOUT) * SECOND
  }

  datatype Link = Up | Down

  datatype Pool = Pool(name: string, addresses: seq<string>)

  // A Go slice. Deep equality tells the nil slice from an empty one.
  datatype Slice<+T> = Nil | Of(items: seq<T>)

  datatype Route = Route(destination: string, via: Option<string>, source: string, scopeLink: bool)

  datatype Gateway = Gateway(address: string, routes: Slice<Route>)

  datatype IPMapping = IPMapping(nodeName: string, interfaceName: string)

  datatype Spec = Spec(
    pools: seq<Pool>,
    vlanID: int,
    gateways: Slice<Gateway>,
    affinity: Option<Affinity>,
    mappings: Slice<IPMapping>)

  datatype Status = Status(
    freeIPs: map<string, seq<string>>,
    pendingIPs: map<string, map<string, Stamp>>,
    links: map<string, Link>,
    shortState: string)

  function PoolNames(pools: seq<Pool>): set<string> {
    set p | p in pools :: p.name
  }

  /** The addresses a pool name stands for: of several pools with one name the last counts. */
  function AddressesOf(pools: seq<Pool>, name: string): (addresses: seq<string>)
    requires name in PoolNames(pools)
    ensures exists p :: p in pools && p.name == name && p.addresses == addresses
  {
    var last := pools[|pools| - 1];
    if last.name == name then last.addresses
    else
      assert forall p | p in pools && p.name == name :: p in pools[..|pools| - 1];
      AddressesOf(pools[..|pools| - 1], name)
  }
}
