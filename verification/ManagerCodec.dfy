/** Managers, and the DaemonSets that store them in the cluster. */
module ManagerCodec {
  import opened Wrappers
  import opened Kube
  import opened Network
  import opened Text

  datatype ManagerSet = ManagerSet(
    owner: string,
    vlanID: int,
    gateways: Slice<Gateway>,
    affinity: Option<Affinity>,
    mappings: Slice<IPMapping>)

  /** What the operator wants for a network. */
  function DesiredManager(name: string, spec: Spec): ManagerSet {
    ManagerSet(name, spec.vlanID, spec.gateways, spec.affinity, spec.mappings)
  }

  // ---------------------------------------------------------------- JSON values

  datatype Json = JNull | JBool(b: bool) | JText(text: string) | JList(items: seq<Json>) | JRecord(fields: seq<Field>)
  datatype Field = Field(name: string, value: Json)

  type Decoded<T> = Result<T, string>

  function EncodeRoute(r: Route): Json {
    JRecord([
      Field("dest", JText(r.destination)),
      Field("via", if r.via.Some? then JText(r.via.value) else JNull),
      Field("src", JText(r.source)),
      Field("scopeLink", JBool(r.scopeLink))])
  }

  function EncodeRoutes(routes: seq<Route>): seq<Json> {
    if routes == [] then [] else [EncodeRoute(routes[0])] + EncodeRoutes(routes[1..])
  }

  function EncodeGateway(g: Gateway): Json {
    JRecord([
      Field("address", JText(g.address)),
      Field("routes", if g.routes.Nil? then JNull else JList(EncodeRoutes(g.routes.items)))])
  }

  function EncodeGateways(gateways: seq<Gateway>): seq<Json> {
    if gateways == [] then [] else [EncodeGateway(gateways[0])] + EncodeGateways(gateways[1..])
  }

  /** A nil slice is written as null. */
  function Encode(gateways: Slice<Gateway>): Json {
    if gateways.Nil? then JNull else JList(EncodeGateways(gateways.items))
  }

  // Reading: null leaves the zero value in place, unknown fields are skipped, a repeated
  // field overwrites, and a value of another kind is an error.

  function DecodeText(j: Json, zero: string): Decoded<string> {
    match j
    case JText(s) => Ok(s)
    case JNull => Ok(zero)
    case _ => Err("not a text")
  }

  function DecodeRouteFields(fields: seq<Field>, r: Route): Decoded<Route> {
    if fields == [] then Ok(r)
    else
      var f := fields[0];
      var next :=
        if f.name == "dest" then
          (match DecodeText(f.value, r.destination) case Ok(s) => Ok(r.(destination := s)) case Err(e) => Err(e))
        else if f.name == "via" then
          (match f.value
           case JNull => Ok(r.(via := None))
           case JText(s) => Ok(r.(via := Some(s)))
           case _ => Err("not a text"))
        else if f.name == "src" then
          (match DecodeText(f.value, r.source) case Ok(s) => Ok(r.(source := s)) case Err(e) => Err(e))
        else if f.name == "scopeLink" then
          (match f.value case JBool(b) => Ok(r.(scopeLink := b)) case JNull => Ok(r) case _ => Err("not a boolean"))
        else Ok(r);
      match next
      case Ok(r') => DecodeRouteFields(fields[1..], r')
      case Err(e) => Err(e)
  }

  function DecodeRoute(j: Json): Decoded<Route> {
    var zero := Route("", None, "", false);
    match j
    case JRecord(fields) => DecodeRouteFields(fields, zero)
    case JNull => Ok(zero)
    case _ => Err("not a record")
  }

  function DecodeRoutes(items: seq<Json>): Decoded<seq<Route>> {
    if items == [] then Ok([])
    else
      match (DecodeRoute(items[0]), DecodeRoutes(items[1..]))
      case (Ok(r), Ok(rest)) => Ok([r] + rest)
      case (Err(e), _) => Err(e)
      case (_, Err(e)) => Err(e)
  }

  function DecodeGatewayFields(fields: seq<Field>, g: Gateway): Decoded<Gateway> {
    if fields == [] then Ok(g)
    else
      var f := fields[0];
      var next :=
        if f.name == "address" then
          (match DecodeText(f.value, g.address) case Ok(s) => Ok(g.(address := s)) case Err(e) => Err(e))
        else if f.name == "routes" then
          (match f.value
           case JNull => Ok(g.(routes := Nil))
           case JList(items) =>
             (match DecodeRoutes(items) case Ok(routes) => Ok(g.(routes := Of(routes))) case Err(e) => Err(e))
           case _ => Err("not a list"))
        else Ok(g);
      match next
      case Ok(g') => DecodeGatewayFields(fields[1..], g')
      case Err(e) => Err(e)
  }

  function DecodeGateway(j: Json): Decoded<Gateway> {
    var zero := Gateway("", Nil);
    match j
    case JRecord(fields) => DecodeGatewayFields(fields, zero)
    case JNull => Ok(zero)
    case _ => Err("not a record")
  }

  function DecodeGateways(items: seq<Json>): Decoded<seq<Gateway>> {
    if items == [] then Ok([])
    else
      match (DecodeGateway(items[0]), DecodeGateways(items[1..]))
      case (Ok(g), Ok(rest)) => Ok([g] + rest)
      case (Err(e), _) => Err(e)
      case (_, Err(e)) => Err(e)
  }

  function Decode(j: Json): Decoded<Slice<Gateway>> {
    match j
    case JNull => Ok(Nil)
    case JList(items) => (match DecodeGateways(items) case Ok(gs) => Ok(Of(gs)) case Err(e) => Err(e))
    case _ => Err("not a list")
  }

  lemma DecodeEncodedRoute(r: Route)
    ensures DecodeRoute(EncodeRoute(r)) == Ok(r)
  {
    var fields := EncodeRoute(r).fields;
    assert fields[1..][1..] == fields[2..] && fields[2..][1..] == fields[3..] && fields[3..][1..] == [];
    var r1 := Route(r.destination, None, "", false);
    var r2 := Route(r.destination, r.via, "", false);
    var r3 := Route(r.destination, r.via, r.source, false);
    assert DecodeRouteFields(fields[3..], r3) == Ok(r);
    assert DecodeRouteFields(fields[2..], r2) == Ok(r);
    assert DecodeRouteFields(fields[1..], r1) == Ok(r);
  }

  lemma {:induction false} DecodeEncodedRoutes(routes: seq<Route>)
    ensures DecodeRoutes(EncodeRoutes(routes)) == Ok(routes)
  {
    hide EncodeRoute, DecodeRoute;
    if routes != [] {
      DecodeEncodedRoute(routes[0]);
      DecodeEncodedRoutes(routes[1..]);
      assert EncodeRoutes(routes)[1..] == EncodeRoutes(routes[1..]);
      assert routes == [routes[0]] + routes[1..];
    }
  }

  lemma DecodeEncodedGateway(g: Gateway)
    ensures DecodeGateway(EncodeGateway(g)) == Ok(g)
  {
    if g.routes.Of? {
      DecodeEncodedRoutes(g.routes.items);
    }
    hide EncodeRoutes, DecodeRoutes;
    var fields := EncodeGateway(g).fields;
    assert fields[1..][1..] == [];
    assert DecodeGatewayFields(fields[1..], Gateway(g.address, Nil)) == Ok(g);
  }

  lemma {:induction false} DecodeEncodedGateways(gateways: seq<Gateway>)
    ensures DecodeGateways(EncodeGateways(gateways)) == Ok(gateways)
  {
    hide EncodeGateway, DecodeGateway;
    if gateways != [] {
      DecodeEncodedGateway(gateways[0]);
      DecodeEncodedGateways(gateways[1..]);
      assert EncodeGateways(gateways)[1..] == EncodeGateways(gateways[1..]);
      assert gateways == [gateways[0]] + gateways[1..];
    }
  }

  /** Gateways come back as they were, nil slices as nil and empty ones as empty. */
  lemma DecodeEncoded(gateways: Slice<Gateway>)
    ensures Decode(Encode(gateways)) == Ok(gateways)
  {
    if gateways.Of? {
      DecodeEncodedGateways(gateways.items);
    }
  }

  // ---------------------------------------------------------------- DaemonSets

  const MANAGER_LABEL := "vlanman.dialo.ai/manager"
  const NAME_PREFIX := "vlan-manager-"
  const LEASE_PREFIX := "vlanman-leader-election-"

  // The text of an environment variable; a JSON text is kept as the value it spells.
  datatype EnvText = Plain(text: string) | Doc(json: Json)

  datatype SetVar = SetVar(name: string, value: EnvText)

  datatype SetContainer = SetContainer(
    name: string, image: string, pullPolicy: string, env: seq<SetVar>,
    command: seq<string>, capabilities: seq<string>, port: Option<int>)

  datatype DaemonSet = DaemonSet(
    name: string,
    namespace: string,
    labels: map<string, string>,
    selector: map<string, string>,
    updateStrategy: string,
    podLabels: map<string, string>,
    serviceAccount: string,
    hostPID: bool,
    containers: seq<SetContainer>,
    affinity: Option<Affinity>)

  datatype Envs = Envs(namespace: string, image: string, pullPolicy: string, ipMonitoring: bool, serviceAccount: string)

  function PullPolicy(pp: string): string {
    if pp == "Always" then "Always" else if pp == "Never" then "Never" else "IfNotPresent"
  }

  function SetName(owner: string): string {
    NAME_PREFIX + owner
  }

  function ManagerEnv(m: ManagerSet, e: Envs): seq<SetVar> {
    [ SetVar("VLAN_ID", Plain(FormatInt(m.vlanID))),
      SetVar("NAMESPACE", Plain(e.namespace)),
      SetVar("LOCK_NAME", Plain(LEASE_PREFIX + m.owner)),
      SetVar("OWNER_NETWORK", Plain(m.owner)),
      // Both variables hold the gateways.
      SetVar("POOLS", Doc(Encode(m.gateways))),
      SetVar("GATEWAYS", Doc(Encode(m.gateways)))]
  }

  function ManagerContainer(m: ManagerSet, e: Envs): SetContainer {
    SetContainer("vlan-manager", e.image, PullPolicy(e.pullPolicy), ManagerEnv(m, e), [], ["NET_ADMIN", "NET_RAW"], Some(61410))
  }

  const MONITOR := SetContainer("ip-monitor", "alpine:latest", "IfNotPresent", [],
    ["sh", "-c", "apk add --no-cache iproute2 && /sbin/ip monitor all"], ["NET_ADMIN", "NET_RAW"], None)

  function DaemonSetFor(m: ManagerSet, e: Envs): (d: DaemonSet)
    ensures d.name == SetName(m.owner) && |d.containers| > 0
  {
    DaemonSet(
      SetName(m.owner), e.namespace,
      map[MANAGER_LABEL := m.owner], map[MANAGER_LABEL := m.owner], "OnDelete", map[MANAGER_LABEL := m.owner],
      e.serviceAccount, true,
      [ManagerContainer(m, e)] + (if e.ipMonitoring then [MONITOR] else []),
      m.affinity)
  }

  function ParseNumber(v: EnvText): int {
    match v
    case Plain(s) => ParseInt(s)
    case Doc(_) => 0
  }

  function ParseGateways(v: EnvText): Decoded<Slice<Gateway>> {
    match v
    case Plain(_) => Err("not JSON")
    case Doc(j) => Decode(j)
  }

  datatype Settings = Settings(vlanID: int, gateways: Slice<Gateway>)

  /** What the variables say, later ones winning, up to the first that cannot be read. */
  function ReadEnv(env: seq<SetVar>): Decoded<Settings> {
    if env == [] then Ok(Settings(-1, Of([])))
    else
      var last := env[|env| - 1];
      match ReadEnv(env[..|env| - 1])
      case Err(e) => Err(e)
      case Ok(s) =>
        if last.name == "VLAN_ID" then Ok(s.(vlanID := ParseNumber(last.value)))
        else if last.name == "GATEWAYS" then
          (match ParseGateways(last.value) case Ok(gs) => Ok(s.(gateways := gs)) case Err(e) => Err(e))
        else Ok(s)
  }

  function OwnerOf(d: DaemonSet): string {
    if MANAGER_LABEL in d.labels then d.labels[MANAGER_LABEL] else ""
  }

  function Read(d: DaemonSet): Decoded<ManagerSet>
    requires |d.containers| > 0
  {
    match ReadEnv(d.containers[0].env)
    case Ok(s) => Ok(ManagerSet(OwnerOf(d), s.vlanID, s.gateways, d.affinity, Of([])))
    case Err(e) => Err(e)
  }

  lemma {:induction false} ReadEnvError(env: seq<SetVar>, n: nat)
    requires n <= |env| && ReadEnv(env[..n]).Err?
    ensures ReadEnv(env) == ReadEnv(env[..n])
    decreases |env| - n
  {
    if n == |env| {
      assert env[..n] == env;
    } else {
      assert env[..n + 1][..n] == env[..n];
      ReadEnvError(env, n + 1);
    }
  }

  method ManagerFromSet(d: DaemonSet) returns (m: Decoded<ManagerSet>)
    requires |d.containers| > 0
    ensures m == Read(d)
  {
    var env := d.containers[0].env;
    var vlanID := -1;
    var gateways: Slice<Gateway> := Of([]);
    for i := 0 to |env|
      invariant ReadEnv(env[..i]) == Ok(Settings(vlanID, gateways))
    {
      assert env[..i + 1][..i] == env[..i];
      if env[i].name == "VLAN_ID" {
        vlanID := ParseNumber(env[i].value);
      } else if env[i].name == "GATEWAYS" {
        var parsed := ParseGateways(env[i].value);
        if parsed.Err? {
          ReadEnvError(env, i + 1);
          return Err(parsed.error);
        }
        gateways := parsed.value;
      }
    }
    assert env[..|env|] == env;
    m := Ok(ManagerSet(OwnerOf(d), vlanID, gateways, d.affinity, Of([])));
  }

  // ---------------------------------------------------------------- What a DaemonSet is made of

  /** Its pods carry the label that it selects by, and may run where the network allows; the
      first container is the manager's. */
  lemma SetIsComplete(m: ManagerSet, e: Envs)
    ensures var d := DaemonSetFor(m, e);
            && d.name == "vlan-manager-" + m.owner && d.namespace == e.namespace
            && d.selector == d.podLabels == d.labels == map["vlanman.dialo.ai/manager" := m.owner]
            && d.affinity == m.affinity && d.serviceAccount == e.serviceAccount && d.hostPID && d.updateStrategy == "OnDelete"
            && |d.containers| == (if e.ipMonitoring then 2 else 1)
            && var c := d.containers[0];
               && c.name == "vlan-manager" && c.image == e.image && c.port == Some(61410) && "NET_ADMIN" in c.capabilities
               && (c.pullPolicy == e.pullPolicy || c.pullPolicy == "IfNotPresent")
  {
    hide ManagerEnv;
  }

  /** That container finds what the manager reads, each variable once. */
  lemma ManagerIsTold(m: ManagerSet, e: Envs)
    ensures var env := DaemonSetFor(m, e).containers[0].env;
            && |env| == 6
            && env[0] == SetVar("VLAN_ID", Plain(FormatInt(m.vlanID)))
            && env[1] == SetVar("NAMESPACE", Plain(e.namespace))
            && env[2] == SetVar("LOCK_NAME", Plain("vlanman-leader-election-" + m.owner))
            && env[3] == SetVar("OWNER_NETWORK", Plain(m.owner))
            && env[4] == SetVar("POOLS", Doc(Encode(m.gateways)))
            && env[5] == SetVar("GATEWAYS", Doc(Encode(m.gateways)))
  {
    hide FormatInt, Encode;
  }

  /** The names of the fields are those of the resource. */
  lemma EncodedFields(g: Gateway, r: Route)
    ensures Field("address", JText(g.address)) in EncodeGateway(g).fields
    ensures g.routes.Of? ==> Field("routes", JList(EncodeRoutes(g.routes.items))) in EncodeGateway(g).fields
    ensures g.routes.Nil? ==> Field("routes", JNull) in EncodeGateway(g).fields
    ensures Field("dest", JText(r.destination)) in EncodeRoute(r).fields
    ensures r.via.Some? ==> Field("via", JText(r.via.value)) in EncodeRoute(r).fields
    ensures r.via.None? ==> Field("via", JNull) in EncodeRoute(r).fields
    ensures Field("src", JText(r.source)) in EncodeRoute(r).fields
    ensures Field("scopeLink", JBool(r.scopeLink)) in EncodeRoute(r).fields
  {
    var route, gateway := EncodeRoute(r).fields, EncodeGateway(g).fields;
    assert route[0] in route && route[1] in route && route[2] in route && route[3] in route;
    assert gateway[0] in gateway && gateway[1] in gateway;
  }

  /** A list is encoded item by item. */
  lemma {:induction false} EncodedItems(gateways: seq<Gateway>, routes: seq<Route>)
    ensures |EncodeGateways(gateways)| == |gateways|
    ensures forall i :: 0 <= i < |gateways| ==> EncodeGateways(gateways)[i] == EncodeGateway(gateways[i])
    ensures |EncodeRoutes(routes)| == |routes|
    ensures forall i :: 0 <= i < |routes| ==> EncodeRoutes(routes)[i] == EncodeRoute(routes[i])
    decreases |gateways| + |routes|
  {
    hide EncodeGateway, EncodeRoute;
    if gateways != [] {
      EncodedItems(gateways[1..], routes);
    } else if routes != [] {
      EncodedItems(gateways, routes[1..]);
    }
  }

  /** What counts when a DaemonSet is read: the last setting of the number, and -1 without one;
      the last setting of the gateways, and the empty slice without one. */
  lemma {:induction false} LastSettingCounts(env: seq<SetVar>)
    requires ReadEnv(env).Ok?
    ensures (forall i :: 0 <= i < |env| ==> env[i].name != "GATEWAYS") ==> ReadEnv(env).value.gateways == Of([])
    ensures forall i :: 0 <= i < |env| && env[i].name == "GATEWAYS" && (forall j :: i < j < |env| ==> env[j].name != "GATEWAYS")
              ==> ParseGateways(env[i].value) == Ok(ReadEnv(env).value.gateways)
    ensures (forall i :: 0 <= i < |env| ==> env[i].name != "VLAN_ID") ==> ReadEnv(env).value.vlanID == -1
    ensures forall i :: 0 <= i < |env| && env[i].name == "VLAN_ID" && (forall j :: i < j < |env| ==> env[j].name != "VLAN_ID")
              ==> ReadEnv(env).value.vlanID == ParseNumber(env[i].value)
  {
    hide ParseNumber, ParseGateways;
    if env != [] {
      var front := env[..|env| - 1];
      LastSettingCounts(front);
      assert forall i :: 0 <= i < |front| ==> front[i] == env[i];
    }
  }

  /** The rest is read off the label and the pod template, and mappings are never there. */
  lemma ReadTakesLabel(d: DaemonSet)
    requires |d.containers| > 0 && Read(d).Ok?
    ensures var m := Read(d).value;
            && ("vlanman.dialo.ai/manager" in d.labels ==> m.owner == d.labels["vlanman.dialo.ai/manager"])
            && ("vlanman.dialo.ai/manager" !in d.labels ==> m.owner == "")
            && m.affinity == d.affinity && m.mappings == Of([])
            && ReadEnv(d.containers[0].env) == Ok(Settings(m.vlanID, m.gateways))
  {
  }

  // ---------------------------------------------------------------- Round trip

  function Forgotten(m: ManagerSet): ManagerSet {
    m.(mappings := Of([]))
  }

  lemma ReadManagerEnv(m: ManagerSet, e: Envs)
    requires IsInt64(m.vlanID)
    ensures ReadEnv(ManagerEnv(m, e)) == Ok(Settings(m.vlanID, m.gateways))
  {
    hide ParseInt, FormatInt, Encode, Decode, ReadEnv;
    ParseFormatted(m.vlanID);
    DecodeEncoded(m.gateways);
    var env := ManagerEnv(m, e);
    NamesInOrder(m, e);
    assert ParseNumber(env[0].value) == m.vlanID && ParseGateways(env[5].value) == Ok(m.gateways);
    hide ManagerEnv, ParseNumber, ParseGateways;
    OnlyTwoCount(env);
  }

  lemma NamesInOrder(m: ManagerSet, e: Envs)
    ensures var env := ManagerEnv(m, e);
            && |env| == 6 && env[0].name == "VLAN_ID" && env[5].name == "GATEWAYS"
            && forall i :: 1 <= i < 5 ==> env[i].name != "VLAN_ID" && env[i].name != "GATEWAYS"
  {
    hide FormatInt, Encode;
    assert "NAMESPACE"[0] == 'N' && "LOCK_NAME"[0] == 'L' && "OWNER_NETWORK"[0] == 'O' && "POOLS"[0] == 'P';
    assert "VLAN_ID"[0] == 'V' && "GATEWAYS"[0] == 'G';
  }

  /** Of the six variables the first and the last are looked at. */
  lemma OnlyTwoCount(env: seq<SetVar>)
    requires |env| == 6 && env[0].name == "VLAN_ID" && env[5].name == "GATEWAYS"
    requires forall i :: 1 <= i < 5 ==> env[i].name != "VLAN_ID" && env[i].name != "GATEWAYS"
    requires ParseGateways(env[5].value).Ok?
    ensures ReadEnv(env) == Ok(Settings(ParseNumber(env[0].value), ParseGateways(env[5].value).value))
  {
    var first := Ok(Settings(ParseNumber(env[0].value), Of([])));
    assert env[..1][..0] == [] && ReadEnv(env[..1]) == first;
    SkippedVariables(env, 5);
    assert env[..6] == env;
  }

  lemma {:induction false} SkippedVariables(env: seq<SetVar>, n: nat)
    requires 1 <= n <= |env| && forall i :: 1 <= i < n ==> env[i].name != "VLAN_ID" && env[i].name != "GATEWAYS"
    ensures ReadEnv(env[..n]) == ReadEnv(env[..1])
  {
    if n > 1 {
      SkippedVariables(env, n - 1);
      assert env[..n][..n - 1] == env[..n - 1];
    }
  }

  /** Reading what was written gives the manager back, with or without the monitor container;
      only the mappings are not stored, and read as an empty slice that is not nil. */
  lemma ReadWritten(m: ManagerSet, e: Envs)
    requires IsInt64(m.vlanID)
    ensures Read(DaemonSetFor(m, e)) == Ok(Forgotten(m))
  {
    ReadManagerEnv(m, e);
  }

  /** Two managers have one DaemonSet exactly when they differ in nothing but mappings. */
  lemma SameSetWhen(m: ManagerSet, n: ManagerSet, e: Envs)
    requires IsInt64(m.vlanID) && IsInt64(n.vlanID)
    ensures DaemonSetFor(m, e) == DaemonSetFor(n, e) <==> Forgotten(m) == Forgotten(n)
  {
    ReadWritten(m, e);
    ReadWritten(n, e);
  }

  lemma SetNameInjective(a: string, b: string)
    ensures SetName(a) == SetName(b) <==> a == b
  {
    assert SetName(a)[|NAME_PREFIX|..] == a && SetName(b)[|NAME_PREFIX|..] == b;
  }
}
