/** What the allocation protocol guarantees over whole runs. */
module ProtocolTheorems {
  import opened Network
  import opened Kube
  import opened Text
  import opened Ipam
  import opened IpamFacts
  import opened Links
  import opened Protocol
  import opened ProtocolBase
  import opened ProtocolInvariant

  // ---------------------------------------------------------------- Safety

  lemma {:induction false} RunInv(cfg: Config, states: seq<System>, steps: seq<Step>, i: nat)
    requires Safe(cfg) && IsRun(cfg, states, steps) && i < |states|
    ensures Inv(cfg, states[i])
  {
    hide Inv, Next, Init, Safe;
    if i == 0 {
      InitInv(cfg, states[0]);
    } else {
      RunInv(cfg, states, steps, i - 1);
      NextInv(cfg, states[i - 1], steps[i - 1], states[i]);
    }
  }

  /** In every state of every run, no two pods that exist or are being created hold the same
      bare address, whether one asks for the granted address or for what the pod reports. */
  lemma NoTwoPodsShareAnAddress(cfg: Config, states: seq<System>, steps: seq<Step>, i: nat, p: nat, q: nat)
    requires Safe(cfg) && IsRun(cfg, states, steps) && i < |states|
    requires p in states[i].pods && q in states[i].pods && p != q
    requires !states[i].pods[p].life.Dead? && !states[i].pods[q].life.Dead?
    ensures Bare(states[i].pods[p].ip) != Bare(states[i].pods[q].ip)
    ensures Bare(PodAddress(states[i].pods[p].record).address) != Bare(PodAddress(states[i].pods[q].record).address)
  {
    hide IsRun, Base, Holds;
    RunInv(cfg, states, steps, i);
    InvPod(cfg, states[i], p);
    InvPod(cfg, states[i], q);
    TwoPodsDiffer(cfg, states[i], p, q);
  }

  // ---------------------------------------------------------------- Commits

  // From here on nothing is asked of the run: pods may show up late and claim addresses.

  /** In every run, what a step commits is its writer's transform of the status committed just
      before; a link writer changes no address. */
  lemma CommitsAreTransforms(cfg: Config, states: seq<System>, steps: seq<Step>, i: nat)
    requires IsRun(cfg, states, steps) && i < |steps|
    ensures |states[i].history| > 0 && |states[i + 1].history| > 0
    ensures IsTransform(states[i], steps[i], states[i + 1])
    ensures steps[i].CommitLink? ==> SameAddresses(states[i].Current().status, states[i + 1].Current().status)
  {
    hide Base, Next, Init;
    RunBase(cfg, states, steps, i);
    RunBase(cfg, states, steps, i + 1);
    BaseHasHistory(cfg, states[i]);
    BaseHasHistory(cfg, states[i + 1]);
    NextBase(cfg, states[i], steps[i], states[i + 1]);
    hide IsRun, ShortStateOf;
  }

  predicate SameAddresses(before: Status, after: Status) {
    after.freeIPs == before.freeIPs && after.pendingIPs == before.pendingIPs
  }

  lemma BaseHasHistory(cfg: Config, s: System)
    requires Base(cfg, s)
    ensures |s.history| > 0 && s.Current().status.freeIPs.Keys <= PoolNames(s.Current().spec.pools)
  {
    hide WritersAgree, RegularSpec, RegularFree;
  }

  // ---------------------------------------------------------------- No grant is lost

  predicate HasStamp(s: System, pool: string, ip: string) {
    |s.history| > 0 && ip in StampsIn(s.Current().status, pool)
  }

  /** The reasons a reconcile commit has to remove a stamp. */
  predicate Doomed(s: System, step: Step, pool: string, ip: string)
    requires HasStamp(s, pool, ip)
  {
    && step.CommitReconcile? && step.w in s.writers && s.writers[step.w].Listed?
    && var stamp := StampsIn(s.Current().status, pool)[ip];
       stamp.Unreadable? || Bare(ip) in HeldBy(s.writers[step.w].pods) || step.clock(pool, ip) > Deadline(stamp.sec)
  }

  /** The stamp goes exactly if it is doomed, and otherwise is as before. */
  predicate StampFate(s: System, step: Step, s': System, pool: string, ip: string)
    requires HasStamp(s, pool, ip)
  {
    && |s'.history| > 0
    && (ip !in StampsIn(s'.Current().status, pool) <==> Doomed(s, step, pool, ip))
    && (HasStamp(s', pool, ip) ==> StampsIn(s'.Current().status, pool)[ip] == StampsIn(s.Current().status, pool)[ip])
  }

  /** In every run, a committed stamp never changes, and it goes only with the commit of a
      reconcile pass that listed a pod with the address, or read the clock past the stamp's
      deadline, or could not read the stamp. */
  lemma StampLeavesOnlyByReconcile(cfg: Config, states: seq<System>, steps: seq<Step>, i: nat, pool: string, ip: string)
    requires IsRun(cfg, states, steps) && i < |steps| && HasStamp(states[i], pool, ip)
    ensures StampFate(states[i], steps[i], states[i + 1], pool, ip)
  {
    hide Base, Next, Init, HasStamp, StampFate;
    RunBase(cfg, states, steps, i);
    StepDecidesStamp(cfg, states[i], steps[i], states[i + 1], pool, ip);
  }

  lemma StepDecidesStamp(cfg: Config, s: System, step: Step, s': System, pool: string, ip: string)
    requires Base(cfg, s) && Next(cfg, s, step, s') && HasStamp(s, pool, ip)
    ensures StampFate(s, step, s', pool, ip)
  {
    hide Base, Next, StampsIn, HeldBy, Reconciled, Granted, Linked, Offer;
    BaseHasHistory(cfg, s);
    NextBase(cfg, s, step, s');
    var status := s.Current().status;
    match step
    case CommitReconcile(w, daemons, clock) =>
      StampDroppedWhen(status, s.Current().spec, s.writers[w].pods, daemons, clock, pool, ip);
      ReconcileKeepsPool(s, step, s', pool, ip);
    case CommitGrant(w, _, at, _, _) =>
      GrantIsMinimal(status, s.writers[w].pool, StampOf(at));
    case CommitLink(_, manager, link) =>
      LinkKeepsStamps(status, manager, link, pool);
    case _ =>
  }

  /** The pools of the free lists are in the specification, so none is dropped. */
  lemma ReconcileKeepsPool(s: System, step: Step, s': System, pool: string, ip: string)
    requires |s.history| > 0 && step.CommitReconcile? && IsTransform(s, step, s')
    requires s.Current().status.freeIPs.Keys <= PoolNames(s.Current().spec.pools)
    ensures |s'.history| > 0
    ensures s'.Current().status == Reconciled(s.Current().status, s.Current().spec, s.writers[step.w].pods, step.daemons, step.clock)
    ensures !(pool in s.Current().status.freeIPs && pool !in PoolNames(s.Current().spec.pools))
  {
    hide Reconciled, PoolNames;
  }

  lemma LinkKeepsStamps(status: Status, manager: string, link: Link, pool: string)
    ensures StampsIn(Linked(status, manager, link), pool) == StampsIn(status, pool)
  {
    hide ShortStateOf;
  }

  lemma {:induction false} ClockMoves(cfg: Config, states: seq<System>, steps: seq<Step>, i: nat, j: nat)
    requires IsRun(cfg, states, steps) && i <= j < |states|
    ensures states[i].now <= states[j].now
  {
    if i < j {
      ClockMoves(cfg, states, steps, i, j - 1);
      assert Next(cfg, states[j - 1], steps[j - 1], states[j]);
    }
  }

  /** From state `i` on up to state `j` no pass is committed that listed a pod with this address. */
  ghost predicate NeverListed(states: seq<System>, steps: seq<Step>, i: nat, j: nat, ip: string)
    requires i <= j < |states| && |states| == |steps| + 1
  {
    forall k :: i <= k < j ==> Bare(ip) !in HeldBy(ListingOf(states[k], steps[k]))
  }

  /** The listing that goes into a commit. */
  function ListingOf(s: System, step: Step): seq<Pod> {
    if step.CommitReconcile? && step.w in s.writers && s.writers[step.w].Listed? then s.writers[step.w].pods else []
  }

  ghost predicate StampedAt(s: System, pool: string, ip: string, granted: int) {
    |s.history| > 0 && ip in StampsIn(s.Current().status, pool) && StampsIn(s.Current().status, pool)[ip] == StampOf(granted)
  }

  lemma StampStaysOneStep(cfg: Config, s: System, step: Step, s': System, pool: string, ip: string, granted: int)
    requires Base(cfg, s) && Next(cfg, s, step, s')
    requires StampedAt(s, pool, ip, granted)
    requires Bare(ip) !in HeldBy(ListingOf(s, step))
    requires s.now <= granted + GRACE
    ensures StampedAt(s', pool, ip, granted)
  {
    assert step.CommitReconcile? ==> step.w in s.writers && s.writers[step.w].Listed? && step.clock(pool, ip) <= s.now;
    hide Base, Next, HeldBy, Enabled, StampsIn;
    GraceIsExact(GRACE);
    assert InTime(GRACE, granted, s.now);
    StepDecidesStamp(cfg, s, step, s', pool, ip);
  }

  /** The lower bound on reclaiming: until `GRACE` has passed since the grant, its stamp stays
      in the status, however the writers interleave, if no pass saw the pod. */
  lemma {:induction false} StampStaysForGrace(cfg: Config, states: seq<System>, steps: seq<Step>, i: nat, j: nat,
                                              pool: string, ip: string, granted: int)
    requires IsRun(cfg, states, steps) && i <= j < |states|
    requires StampedAt(states[i], pool, ip, granted)
    requires NeverListed(states, steps, i, j, ip)
    requires states[j].now <= granted + GRACE
    ensures StampedAt(states[j], pool, ip, granted)
  {
    hide Base, Next, StampedAt, ListingOf, HeldBy, Init;
    if i < j {
      assert NeverListed(states, steps, i, j - 1, ip);
      ClockMoves(cfg, states, steps, j - 1, j);
      StampStaysForGrace(cfg, states, steps, i, j - 1, pool, ip, granted);
      RunBase(cfg, states, steps, j - 1);
      StampStaysOneStep(cfg, states[j - 1], steps[j - 1], states[j], pool, ip, granted);
    }
  }

  /** An address of the specification that is stamped, and that no pod in the listing of the
      committing pass holds. It is not spelled like a pool. */
  ghost predicate Abandoned(s: System, step: Step, pool: string, ip: string) {
    && HasStamp(s, pool, ip) && StampsIn(s.Current().status, pool)[ip].At?
    && step.CommitReconcile? && Bare(ip) !in HeldBy(ListingOf(s, step))
    && pool in PoolNames(s.Current().spec.pools) && ip in AddressesOf(s.Current().spec.pools, pool)
    && Bare(ip) !in KeptPools(s.Current().status, s.Current().spec)
  }

  /** The upper bound: a committed pass that reads the clock past the deadline of an abandoned
      stamp makes the address allocatable again, and the next webhook is offered something. */
  lemma PassReclaimsAbandoned(cfg: Config, states: seq<System>, steps: seq<Step>, i: nat, pool: string, ip: string)
    requires IsRun(cfg, states, steps) && i < |steps| && Abandoned(states[i], steps[i], pool, ip)
    ensures |states[i].history| > 0 && |states[i + 1].history| > 0
    ensures var before, after := states[i].Current().status, states[i + 1].Current().status;
            && (Allocatable(after, pool, ip) <==> steps[i].clock(pool, ip) > Deadline(StampsIn(before, pool)[ip].sec))
            && (Allocatable(after, pool, ip) ==> Offer(after, pool).Some?)
  {
    CommitsAreTransforms(cfg, states, steps, i);
    var s, step := states[i], steps[i];
    hide IsRun, Reconciled, Allocatable, Offer, HeldBy, KeptPools, StampsIn;
    AbandonedIsReclaimed(s.Current().status, s.Current().spec, s.writers[step.w].pods, step.daemons, step.clock, pool, ip);
  }
}
