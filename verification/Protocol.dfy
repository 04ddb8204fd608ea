/** The allocation protocol of one network as a step system. Any number of webhooks,
    reconcilers and link writers run at once. Each reads some committed version, computes,
    and commits only if no other commit came in between. Pods and the clock move freely. */
module Protocol {
  import opened Wrappers
  import opened Kube
  import opened Network
  import opened Text
  import opened Ipam
  import opened IpamFacts
  import opened PodPatch
  import opened Links

  // ---------------------------------------------------------------- State

  datatype Version = Version(spec: Spec, status: Status)

  // Whether the pod exists in the cluster, and whether the operator's view shows it.
  datatype Life = InFlight | Live | Dead
  datatype View = NotYet | Shown | Gone

  datatype PodEntry = PodEntry(life: Life, view: View, pool: string, ip: string, granted: int, record: Pod)

  datatype Writer =
    | Granting(read: nat, seen: Version, pool: string, base: Pod)
    | Reading(read: nat, seen: Version)
    | Listed(read: nat, seen: Version, pods: seq<Pod>, listedAt: int)
    | Linking(read: nat, seen: Version)

  datatype System = System(
    history: seq<Version>,
    pods: map<nat, PodEntry>,
    writers: map<nat, Writer>,
    now: int)
  {
    function Current(): Version
      requires |history| > 0
    {
      history[|history| - 1]
    }

    /** Status().Update succeeds only for the version that is committed now. */
    predicate IsCurrent(read: nat) {
      read == |history| - 1
    }
  }

  /** What stays fixed over a run. Each bare address has one home pool and one written form.
      A granted pod shows up in the view within `visibleBy` of its stamp or never; a
      reconciler reads the clock within `lag` of listing the pods. If `claims`, pods may
      arrive with an init container that asks for an address of its own. */
  datatype Config = Config(home: string -> string, form: string -> string, visibleBy: int, lag: int, claims: bool)

  /** What keeps addresses unique. */
  predicate Safe(cfg: Config) {
    cfg.visibleBy >= 0 && cfg.lag >= 0 && cfg.visibleBy + cfg.lag <= GRACE && !cfg.claims
  }

  predicate Regular(cfg: Config, pool: string, ip: string) {
    Bare(ip) != "" && cfg.home(Bare(ip)) == pool && cfg.form(Bare(ip)) == ip
  }

  ghost predicate RegularSpec(cfg: Config, spec: Spec) {
    forall p, a :: p in spec.pools && a in p.addresses ==> Regular(cfg, p.name, a)
  }

  ghost predicate RegularFree(cfg: Config, status: Status) {
    forall pool, a :: a in FreeIn(status, pool) ==> Regular(cfg, pool, a)
  }

  // ---------------------------------------------------------------- Steps

  datatype Step =
    | ReadForGrant(w: nat, read: nat, pool: string, base: Pod)
    | CommitGrant(w: nat, pod: nat, at: int, patch: Patch, alive: bool)
    | ReadForReconcile(w: nat, read: nat)
    | ListPods(w: nat, pods: seq<Pod>)
    | CommitReconcile(w: nat, daemons: seq<string>, clock: Clock)
    | ReadForLink(w: nat, read: nat)
    | CommitLink(w: nat, manager: string, link: Link)
    | GiveUp(w: nat)
    | EditSpec(spec: Spec)
    | CreatePod(pod: nat)
    | AbortPod(pod: nat)
    | DeletePod(pod: nat)
    | ShowPod(pod: nat)
    | SkipPod(pod: nat)
    | ForgetPod(pod: nat)
    | Tick(time: int)

  ghost predicate Init(cfg: Config, s: System) {
    && |s.history| == 1
    && RegularSpec(cfg, s.Current().spec)
    && RegularFree(cfg, s.Current().status)
    && s.Current().status.freeIPs.Keys <= PoolNames(s.Current().spec.pools)
    && s.pods == map[] && s.writers == map[]
  }

  function Commit(s: System, w: nat, status: Status): System
    requires |s.history| > 0
  {
    s.(history := s.history + [Version(s.Current().spec, status)], writers := s.writers - {w})
  }

  function SetPod(s: System, pod: nat, entry: PodEntry): System {
    s.(pods := s.pods[pod := entry])
  }

  /** The listing shows every pod of the view and nothing else, in any order. */
  ghost predicate ListsView(s: System, pods: seq<Pod>) {
    && (forall id :: id in s.pods && s.pods[id].view.Shown? ==> s.pods[id].record in pods)
    && (forall p :: p in pods ==> exists id :: id in s.pods && s.pods[id].view.Shown? && s.pods[id].record == p)
  }

  predicate MayRead(s: System, w: nat, read: nat) {
    w !in s.writers && read < |s.history|
  }

  ghost predicate Enabled(cfg: Config, s: System, step: Step) {
    && |s.history| > 0
    && match step
       case ReadForGrant(w, read, pool, base) => MayRead(s, w, read) && (ClaimsAddress(base) ==> cfg.claims)
       case CommitGrant(w, pod, at, patch, alive) =>
         && w in s.writers && s.writers[w].Granting? && s.IsCurrent(s.writers[w].read)
         && Offer(s.writers[w].seen.status, s.writers[w].pool) == Some(patch.ip)
         && pod !in s.pods && at <= s.now
         && (alive ==> s.now <= at + cfg.visibleBy)
       case ReadForReconcile(w, read) => MayRead(s, w, read)
       case ListPods(w, pods) => w in s.writers && s.writers[w].Reading? && ListsView(s, pods)
       case CommitReconcile(w, daemons, clock) =>
         && w in s.writers && s.writers[w].Listed? && s.IsCurrent(s.writers[w].read)
         && forall pool, ip :: clock(pool, ip) <= s.writers[w].listedAt + cfg.lag && clock(pool, ip) <= s.now
       case ReadForLink(w, read) => MayRead(s, w, read)
       case CommitLink(w, manager, link) => w in s.writers && s.writers[w].Linking? && s.IsCurrent(s.writers[w].read)
       case GiveUp(w) => w in s.writers
       case EditSpec(spec) => RegularSpec(cfg, spec) && PoolNames(s.Current().spec.pools) <= PoolNames(spec.pools)
       case CreatePod(pod) => pod in s.pods && s.pods[pod].life.InFlight?
       case AbortPod(pod) => pod in s.pods && s.pods[pod].life.InFlight?
       case DeletePod(pod) => pod in s.pods && s.pods[pod].life.Live?
       case ShowPod(pod) => pod in s.pods && s.pods[pod].view.NotYet? && !s.pods[pod].life.InFlight?
       case SkipPod(pod) => pod in s.pods && s.pods[pod].view.NotYet? && s.pods[pod].life.Dead?
       case ForgetPod(pod) => pod in s.pods && s.pods[pod].view.Shown? && s.pods[pod].life.Dead?
       case Tick(time) => s.now < time && forall id :: id in s.pods && s.pods[id].view.NotYet? ==> time <= s.pods[id].granted + cfg.visibleBy
  }

  /** The pod a committed grant is for. A grant whose webhook fails after the commit, or
      whose pod will not make its deadline, leaves only its stamp behind. */
  function GrantedPod(writer: Writer, at: int, patch: Patch, alive: bool): PodEntry
    requires writer.Granting?
  {
    PodEntry(if alive then InFlight else Dead, if alive then NotYet else Gone,
             writer.pool, patch.ip, at, Patched(writer.base, patch))
  }

  ghost function After(cfg: Config, s: System, step: Step): System
    requires Enabled(cfg, s, step)
  {
    match step
    case ReadForGrant(w, read, pool, base) => s.(writers := s.writers[w := Granting(read, s.history[read], pool, base)])
    case CommitGrant(w, pod, at, patch, alive) =>
      var writer := s.writers[w];
      SetPod(Commit(s, w, Granted(writer.seen.status, writer.pool, patch.ip, StampOf(at))), pod,
             GrantedPod(writer, at, patch, alive))
    case ReadForReconcile(w, read) => s.(writers := s.writers[w := Reading(read, s.history[read])])
    case ListPods(w, pods) =>
      s.(writers := s.writers[w := Listed(s.writers[w].read, s.writers[w].seen, pods, s.now)])
    case CommitReconcile(w, daemons, clock) =>
      var writer := s.writers[w];
      Commit(s, w, Reconciled(writer.seen.status, writer.seen.spec, writer.pods, daemons, clock))
    case ReadForLink(w, read) => s.(writers := s.writers[w := Linking(read, s.history[read])])
    case CommitLink(w, manager, link) => Commit(s, w, Linked(s.writers[w].seen.status, manager, link))
    case GiveUp(w) => s.(writers := s.writers - {w})
    case EditSpec(spec) => s.(history := s.history + [Version(spec, s.Current().status)])
    case CreatePod(pod) => SetPod(s, pod, s.pods[pod].(life := Live))
    case AbortPod(pod) => SetPod(s, pod, s.pods[pod].(life := Dead, view := Gone))
    case DeletePod(pod) => SetPod(s, pod, s.pods[pod].(life := Dead))
    case ShowPod(pod) => SetPod(s, pod, s.pods[pod].(view := Shown))
    case SkipPod(pod) => SetPod(s, pod, s.pods[pod].(view := Gone))
    case ForgetPod(pod) => SetPod(s, pod, s.pods[pod].(view := Gone))
    case Tick(time) => s.(now := time)
  }

  ghost predicate Next(cfg: Config, s: System, step: Step, s': System) {
    Enabled(cfg, s, step) && s' == After(cfg, s, step)
  }

  // ---------------------------------------------------------------- Runs

  /** A run is its states with the steps between them. */
  ghost predicate IsRun(cfg: Config, states: seq<System>, steps: seq<Step>) {
    && |states| == |steps| + 1
    && Init(cfg, states[0])
    && forall i :: 0 <= i < |steps| ==> Next(cfg, states[i], steps[i], states[i + 1])
  }
}
