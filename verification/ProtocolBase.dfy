/** The half of the protocol's invariant that holds in every run, however late pods show up
    and whatever they claim: the committed status fits the specification, and every writer
    remembers a version that was committed. */
module ProtocolBase {
  import opened Wrappers
  import opened Kube
  import opened Network
  import opened Ipam
  import opened IpamFacts
  import opened Links
  import opened Protocol

  ghost predicate Grounded(cfg: Config, version: Version) {
    && RegularSpec(cfg, version.spec)
    && RegularFree(cfg, version.status)
    && version.status.freeIPs.Keys <= PoolNames(version.spec.pools)
  }

  predicate WriterAgrees(history: seq<Version>, writer: Writer) {
    writer.read < |history| && writer.seen == history[writer.read]
  }

  ghost predicate WritersAgree(history: seq<Version>, writers: map<nat, Writer>) {
    forall w :: w in writers ==> WriterAgrees(history, writers[w])
  }

  ghost predicate Base(cfg: Config, s: System) {
    |s.history| > 0 && Grounded(cfg, s.Current()) && WritersAgree(s.history, s.writers)
  }

  lemma BaseWriter(cfg: Config, s: System, w: nat)
    requires Base(cfg, s) && w in s.writers
    ensures WriterAgrees(s.history, s.writers[w]) && Grounded(cfg, s.Current())
    ensures s.IsCurrent(s.writers[w].read) ==> s.writers[w].seen == s.Current()
  {
    hide Grounded;
  }

  // ---------------------------------------------------------------- Commits

  /** The version a grant commits. */
  function GrantedVersion(version: Version, pool: string, ip: string, at: int): Version {
    version.(status := Granted(version.status, pool, ip, StampOf(at)))
  }

  lemma GrantGrounded(cfg: Config, version: Version, pool: string, ip: string, at: int)
    requires Grounded(cfg, version) && Allocatable(version.status, pool, ip)
    ensures Grounded(cfg, GrantedVersion(version, pool, ip, at))
    ensures Regular(cfg, pool, ip)
  {
    var after := GrantedVersion(version, pool, ip, at);
    assert after.status.freeIPs == version.status.freeIPs;
    forall other, a | a in FreeIn(after.status, other) ensures Regular(cfg, other, a) {
      assert a in FreeIn(version.status, other);
    }
  }

  /** The version a reconciler commits. */
  function ReconciledVersion(version: Version, pods: seq<Pod>, daemons: seq<string>, clock: Clock): Version {
    version.(status := Reconciled(version.status, version.spec, pods, daemons, clock))
  }

  lemma ReconcileGrounded(cfg: Config, version: Version, pods: seq<Pod>, daemons: seq<string>, clock: Clock)
    requires Grounded(cfg, version)
    ensures Grounded(cfg, ReconciledVersion(version, pods, daemons, clock))
  {
    var after := Reconciled(version.status, version.spec, pods, daemons, clock);
    forall pool, a | a in FreeIn(after, pool) ensures Regular(cfg, pool, a) {
      WithoutKeeps(AddressesOf(version.spec.pools, pool), KeptPools(version.status, version.spec) + HeldBy(pods), a);
      var p :| p in version.spec.pools && p.name == pool && p.addresses == AddressesOf(version.spec.pools, pool);
      assert a in p.addresses;
    }
  }

  lemma SameAddressesGrounded(cfg: Config, version: Version, version': Version)
    requires version'.status.freeIPs == version.status.freeIPs
    requires PoolNames(version.spec.pools) <= PoolNames(version'.spec.pools)
    requires Grounded(cfg, version) && RegularSpec(cfg, version'.spec)
    ensures Grounded(cfg, version')
  {
    forall pool, a | a in FreeIn(version'.status, pool) ensures Regular(cfg, pool, a) {
      assert a in FreeIn(version.status, pool);
    }
  }

  // ---------------------------------------------------------------- Every step, every run

  /** What a step commits. Every commit is its writer's transform applied to the status
      committed just before, although the writer computed it from what it had read earlier;
      a link writer leaves the addresses alone. Other steps commit nothing. */
  ghost predicate IsTransform(s: System, step: Step, s': System)
    requires |s.history| > 0
  {
    match step
    case CommitGrant(w, _, at, patch, _) =>
      && w in s.writers && s.writers[w].Granting?
      && Offer(s.Current().status, s.writers[w].pool) == Some(patch.ip)
      && s'.history == s.history + [GrantedVersion(s.Current(), s.writers[w].pool, patch.ip, at)]
    case CommitReconcile(w, daemons, clock) =>
      && w in s.writers && s.writers[w].Listed?
      && s'.history == s.history + [ReconciledVersion(s.Current(), s.writers[w].pods, daemons, clock)]
    case CommitLink(w, manager, link) =>
      s'.history == s.history + [s.Current().(status := Linked(s.Current().status, manager, link))]
    case EditSpec(spec) => s'.history == s.history + [Version(spec, s.Current().status)]
    case _ => s'.history == s.history
  }

  lemma StepIsTransform(cfg: Config, s: System, step: Step, s': System)
    requires Base(cfg, s) && Next(cfg, s, step, s')
    ensures IsTransform(s, step, s')
  {
    hide Grounded, Offer, Granted, Reconciled, Linked, RegularSpec, ListsView, WritersAgree;
    if step.CommitGrant? || step.CommitReconcile? || step.CommitLink? {
      CommitterIsCurrent(cfg, s, step.w);
    }
  }

  lemma CommitterIsCurrent(cfg: Config, s: System, w: nat)
    requires Base(cfg, s) && w in s.writers && s.IsCurrent(s.writers[w].read)
    ensures s.writers[w].seen == s.Current()
  {
    BaseWriter(cfg, s, w);
  }

  /** The writers a step leaves: some of the old ones as they were, and at most one that has
      just read or goes on with what it had read. */
  ghost predicate WritersMove(s: System, s': System) {
    forall w :: w in s'.writers ==>
      || (w in s.writers && s'.writers[w].read == s.writers[w].read && s'.writers[w].seen == s.writers[w].seen)
      || WriterAgrees(s.history, s'.writers[w])
  }

  lemma StepMovesWriters(cfg: Config, s: System, step: Step, s': System)
    requires Base(cfg, s) && Next(cfg, s, step, s')
    ensures WritersMove(s, s')
  {
    hide Grounded, Offer, Granted, Reconciled, Linked, RegularSpec, ListsView, WritersAgree;
  }

  lemma MovedWritersAgree(history: seq<Version>, s: System, s': System)
    requires WritersAgree(s.history, s.writers) && WritersMove(s, s') && s.history <= history
    ensures WritersAgree(history, s'.writers)
  {
    forall w | w in s'.writers ensures WriterAgrees(history, s'.writers[w]) {
      assert WriterAgrees(s.history, s'.writers[w]) by {
        assert w in s.writers ==> WriterAgrees(s.history, s.writers[w]);
      }
      assert s.history[s'.writers[w].read] == history[s'.writers[w].read];
    }
  }

  lemma CommitIsGrounded(cfg: Config, s: System, step: Step, s': System)
    requires Base(cfg, s) && Next(cfg, s, step, s') && IsTransform(s, step, s')
    ensures |s'.history| > 0 && Grounded(cfg, s'.Current())
  {
    var version := s.Current();
    hide Next, Grounded, Offer, Granted, Reconciled, RegularFree, RegularSpec, WritersAgree, ShortStateOf;
    match step
    case CommitGrant(w, _, at, patch, _) =>
      GrantGrounded(cfg, version, s.writers[w].pool, patch.ip, at);
    case CommitReconcile(w, daemons, clock) =>
      ReconcileGrounded(cfg, version, s.writers[w].pods, daemons, clock);
    case CommitLink(_, manager, link) =>
      GroundedSpec(cfg, version);
      SameAddressesGrounded(cfg, version, version.(status := Linked(version.status, manager, link)));
    case EditSpec(spec) =>
      EditIsRegular(cfg, s, step, s');
      SameAddressesGrounded(cfg, version, Version(spec, version.status));
    case _ =>
  }

  lemma GroundedSpec(cfg: Config, version: Version)
    requires Grounded(cfg, version)
    ensures RegularSpec(cfg, version.spec)
  {
  }

  lemma EditIsRegular(cfg: Config, s: System, step: Step, s': System)
    requires Next(cfg, s, step, s') && step.EditSpec?
    ensures |s.history| > 0
    ensures RegularSpec(cfg, step.spec) && PoolNames(s.Current().spec.pools) <= PoolNames(step.spec.pools)
  {
  }

  /** Every step keeps the base, with no bound on when pods show up. */
  lemma NextBase(cfg: Config, s: System, step: Step, s': System)
    requires Base(cfg, s) && Next(cfg, s, step, s')
    ensures Base(cfg, s') && IsTransform(s, step, s')
  {
    hide Next, Grounded, IsTransform, WritersMove, WritersAgree;
    StepIsTransform(cfg, s, step, s');
    StepMovesWriters(cfg, s, step, s');
    CommitIsGrounded(cfg, s, step, s');
    HistoryGrows(s, step, s');
    MovedWritersAgree(s'.history, s, s');
  }

  lemma HistoryGrows(s: System, step: Step, s': System)
    requires |s.history| > 0 && IsTransform(s, step, s')
    ensures s.history <= s'.history
  {
  }

  lemma {:induction false} RunBase(cfg: Config, states: seq<System>, steps: seq<Step>, i: nat)
    requires IsRun(cfg, states, steps) && i < |states|
    ensures Base(cfg, states[i])
  {
    hide Base, Next, Init;
    if i == 0 {
      InitBase(cfg, states[0]);
    } else {
      RunBase(cfg, states, steps, i - 1);
      NextBase(cfg, states[i - 1], steps[i - 1], states[i]);
    }
  }

  lemma InitBase(cfg: Config, s: System)
    requires Init(cfg, s)
    ensures Base(cfg, s)
  {
  }
}
