/** The invariant of the allocation protocol, kept by every step. */
module ProtocolInvariant {
  import opened Network
  import opened Text
  import opened Ipam
  import opened IpamFacts
  import opened PodPatch
  import opened Links
  import opened Protocol
  import opened ProtocolBase

  // ---------------------------------------------------------------- The invariant

  predicate Stamped(status: Status, e: PodEntry) {
    e.ip in StampsIn(status, e.pool) && StampsIn(status, e.pool)[e.ip] == StampOf(e.granted)
  }

  /** A pod that the view may still show keeps its stamp; one that it shows is pending or
      not among the free addresses. */
  ghost predicate PodSound(cfg: Config, version: Version, now: int, e: PodEntry) {
    && Regular(cfg, e.pool, e.ip)
    && e.pool in PoolNames(version.spec.pools)
    && PodAddress(e.record).found && Bare(PodAddress(e.record).address) == Bare(e.ip)
    && (!e.life.Dead? ==> !e.view.Gone?)
    && (e.life.InFlight? ==> e.view.NotYet?)
    && (e.view.NotYet? ==> Stamped(version.status, e) && now <= e.granted + cfg.visibleBy)
    && (e.view.Shown? ==> !Allocatable(version.status, e.pool, e.ip))
  }

  ghost predicate PodsSound(cfg: Config, version: Version, now: int, pods: map<nat, PodEntry>) {
    forall id :: id in pods ==> PodSound(cfg, version, now, pods[id])
  }

  /** Every pod the view may show, now or later, has its bare address to itself. */
  ghost predicate Exclusive(pods: map<nat, PodEntry>) {
    forall i, j :: i in pods && j in pods && i != j && !pods[i].view.Gone? && !pods[j].view.Gone?
      ==> Bare(pods[i].ip) != Bare(pods[j].ip)
  }

  /** The pod was not in the listing, and the listing is too old to find its stamp lapsed. */
  predicate Missed(cfg: Config, status: Status, writer: Writer, e: PodEntry)
    requires writer.Listed?
  {
    && Bare(e.ip) !in HeldBy(writer.pods)
    && Stamped(status, e)
    && writer.listedAt <= e.granted + cfg.visibleBy
  }

  predicate ListingSound(cfg: Config, status: Status, writer: Writer, e: PodEntry)
    requires writer.Listed?
  {
    && (e.view.NotYet? ==> Missed(cfg, status, writer, e))
    && (e.view.Shown? ==> Bare(e.ip) in HeldBy(writer.pods) || Missed(cfg, status, writer, e))
  }

  ghost predicate ListedAll(cfg: Config, status: Status, writer: Writer, pods: map<nat, PodEntry>)
    requires writer.Listed?
  {
    forall id :: id in pods ==> ListingSound(cfg, status, writer, pods[id])
  }

  /** Only a listing that can still be committed has to be sound. */
  ghost predicate ListingsSound(cfg: Config, history: seq<Version>, writers: map<nat, Writer>, pods: map<nat, PodEntry>)
    requires |history| > 0
  {
    forall w :: w in writers && writers[w].Listed? && writers[w].read == |history| - 1
      ==> ListedAll(cfg, history[|history| - 1].status, writers[w], pods)
  }

  /** No webhook has a pod in hand that asks for an address of its own. */
  ghost predicate NoClaims(writers: map<nat, Writer>) {
    forall w :: w in writers && writers[w].Granting? ==> !ClaimsAddress(writers[w].base)
  }

  ghost predicate Holds(cfg: Config, history: seq<Version>, pods: map<nat, PodEntry>, writers: map<nat, Writer>, now: int)
    requires |history| > 0
  {
    && NoClaims(writers)
    && PodsSound(cfg, history[|history| - 1], now, pods)
    && Exclusive(pods)
    && ListingsSound(cfg, history, writers, pods)
  }

  ghost predicate Inv(cfg: Config, s: System) {
    Base(cfg, s) && Holds(cfg, s.history, s.pods, s.writers, s.now)
  }

  lemma InitInv(cfg: Config, s: System)
    requires Init(cfg, s)
    ensures Inv(cfg, s)
  {
    InitBase(cfg, s);
    hide Base;
  }

  // What the invariant says of one pod and one listing.

  lemma InvPod(cfg: Config, s: System, id: nat)
    requires Inv(cfg, s) && id in s.pods
    ensures PodSound(cfg, s.Current(), s.now, s.pods[id])
  {
    hide Grounded, Exclusive, WritersAgree, NoClaims, ListingsSound, PodSound;
  }

  lemma InvListing(cfg: Config, s: System, w: nat)
    requires Inv(cfg, s) && w in s.writers && s.writers[w].Listed? && s.IsCurrent(s.writers[w].read)
    ensures ListedAll(cfg, s.Current().status, s.writers[w], s.pods)
  {
    hide Grounded, Exclusive, PodsSound, WritersAgree, NoClaims, ListedAll;
  }

  lemma InvExclusive(cfg: Config, s: System)
    requires Inv(cfg, s)
    ensures Exclusive(s.pods) && PodsSound(cfg, s.Current(), s.now, s.pods) && NoClaims(s.writers)
  {
    hide Grounded, Exclusive, PodsSound, NoClaims, ListingsSound, WritersAgree;
  }

  // ---------------------------------------------------------------- Commits

  /** A commit leaves no listing current, so only the pods have to be looked at. */
  lemma CommitKeeps(cfg: Config, s: System, s': System)
    requires Inv(cfg, s) && Base(cfg, s') && |s'.history| == |s.history| + 1
    requires s'.writers.Keys <= s.writers.Keys && forall w :: w in s'.writers ==> s'.writers[w] == s.writers[w]
    requires PodsSound(cfg, s'.Current(), s'.now, s'.pods) && Exclusive(s'.pods)
    ensures Inv(cfg, s')
  {
    hide PodsSound, Exclusive, Grounded, ListedAll;
    forall w | w in s'.writers ensures s'.writers[w].read != |s'.history| - 1 {
      assert WriterAgrees(s.history, s.writers[w]);
    }
  }

  lemma GrantKeepsPod(cfg: Config, version: Version, now: int, e: PodEntry, pool: string, ip: string, stamp: Stamp)
    requires PodSound(cfg, version, now, e)
    requires Allocatable(version.status, pool, ip)
    ensures PodSound(cfg, version.(status := Granted(version.status, pool, ip, stamp)), now, e)
  {
  }

  /** A free address is claimed by no pod. */
  lemma FreeIsUnclaimed(cfg: Config, version: Version, now: int, e: PodEntry, pool: string, ip: string)
    requires Grounded(cfg, version) && PodSound(cfg, version, now, e) && !e.view.Gone?
    requires Allocatable(version.status, pool, ip)
    ensures Bare(e.ip) != Bare(ip)
  {
    assert Regular(cfg, pool, ip);
  }

  ghost predicate GrantCommits(cfg: Config, s: System, step: Step) {
    Inv(cfg, s) && step.CommitGrant? && Enabled(cfg, s, step)
  }

  /** What a committing webhook knows about the address it commits. */
  lemma GrantFacts(cfg: Config, s: System, step: Step)
    requires GrantCommits(cfg, s, step)
    ensures var writer := s.writers[step.w];
            var s' := After(cfg, s, step);
            var version := GrantedVersion(s.Current(), writer.pool, step.patch.ip, step.at);
            && writer.seen == s.Current()
            && !ClaimsAddress(writer.base)
            && Grounded(cfg, s.Current())
            && Allocatable(s.Current().status, writer.pool, step.patch.ip)
            && s'.history == s.history + [version]
            && s'.writers == s.writers - {step.w} && s'.now == s.now
            && s'.pods == s.pods[step.pod := GrantedPod(writer, step.at, step.patch, step.alive)]
  {
    InvExclusive(cfg, s);
    hide Holds, Grounded;
    BaseWriter(cfg, s, step.w);
  }

  lemma GrantedPodSound(cfg: Config, version: Version, now: int, writer: Writer, at: int, patch: Patch, alive: bool)
    requires writer.Granting? && !ClaimsAddress(writer.base)
    requires Grounded(cfg, version) && Allocatable(version.status, writer.pool, patch.ip)
    requires alive ==> now <= at + cfg.visibleBy
    ensures PodSound(cfg, GrantedVersion(version, writer.pool, patch.ip, at), now, GrantedPod(writer, at, patch, alive))
  {
    GrantGrounded(cfg, version, writer.pool, patch.ip, at);
    PatchedReportsGrant(writer.base, patch);
  }

  lemma GrantKeepsPods(cfg: Config, version: Version, now: int, pods: map<nat, PodEntry>, pool: string, ip: string, at: int)
    requires PodsSound(cfg, version, now, pods) && Allocatable(version.status, pool, ip)
    ensures PodsSound(cfg, GrantedVersion(version, pool, ip, at), now, pods)
  {
    hide PodSound;
    forall id | id in pods ensures PodSound(cfg, GrantedVersion(version, pool, ip, at), now, pods[id]) {
      GrantKeepsPod(cfg, version, now, pods[id], pool, ip, StampOf(at));
    }
  }

  lemma GrantKeepsExclusive(cfg: Config, version: Version, now: int, pods: map<nat, PodEntry>, pod: nat, entry: PodEntry)
    requires Grounded(cfg, version) && PodsSound(cfg, version, now, pods) && Exclusive(pods)
    requires Allocatable(version.status, entry.pool, entry.ip)
    ensures Exclusive(pods[pod := entry])
  {
    hide PodSound, Grounded, Allocatable;
    forall id | id in pods && !pods[id].view.Gone? ensures Bare(pods[id].ip) != Bare(entry.ip) {
      FreeIsUnclaimed(cfg, version, now, pods[id], entry.pool, entry.ip);
    }
  }

  lemma CommitGrantInv(cfg: Config, s: System, step: Step)
    requires GrantCommits(cfg, s, step)
    ensures Inv(cfg, After(cfg, s, step))
  {
    GrantFacts(cfg, s, step);
    InvExclusive(cfg, s);
    var s', writer := After(cfg, s, step), s.writers[step.w];
    var entry := GrantedPod(writer, step.at, step.patch, step.alive);
    var version := GrantedVersion(s.Current(), writer.pool, step.patch.ip, step.at);
    assert step.alive ==> s.now <= step.at + cfg.visibleBy;
    NextBase(cfg, s, step, s');
    hide Base, Holds, After, Enabled, PodSound, PodsSound, Grounded, Exclusive, Allocatable, GrantedVersion, Granted, IsTransform;
    GrantedPodSound(cfg, s.Current(), s.now, writer, step.at, step.patch, step.alive);
    GrantKeepsPods(cfg, s.Current(), s.now, s.pods, writer.pool, step.patch.ip, step.at);
    OneMoreSound(cfg, version, s.now, s.pods, step.pod, entry);
    GrantKeepsExclusive(cfg, s.Current(), s.now, s.pods, step.pod, entry);
    CommitKeeps(cfg, s, s');
  }

  /** The heart of the matter: a pass keeps the stamp of a pod it could not see, and takes
      the address of a pod it did see out of the free list. */
  lemma ReconcileKeepsPod(cfg: Config, version: Version, now: int, e: PodEntry, writer: Writer, daemons: seq<string>, clock: Clock)
    requires Safe(cfg) && PodSound(cfg, version, now, e)
    requires writer.Listed? && ListingSound(cfg, version.status, writer, e)
    requires clock(e.pool, e.ip) <= writer.listedAt + cfg.lag
    ensures PodSound(cfg, ReconciledVersion(version, writer.pods, daemons, clock), now, e)
  {
    var after := Reconciled(version.status, version.spec, writer.pods, daemons, clock);
    if !e.view.Gone? {
      if Missed(cfg, version.status, writer, e) {
        GraceIsExact(cfg.visibleBy + cfg.lag);
        assert InTime(cfg.visibleBy + cfg.lag, e.granted, clock(e.pool, e.ip));
        StampDroppedWhen(version.status, version.spec, writer.pods, daemons, clock, e.pool, e.ip);
        assert Stamped(after, e);
      } else {
        WithoutKeeps(AddressesOf(version.spec.pools, e.pool), KeptPools(version.status, version.spec) + HeldBy(writer.pods), e.ip);
      }
    }
  }

  lemma CommitReconcileInv(cfg: Config, s: System, step: Step)
    requires Safe(cfg) && Inv(cfg, s) && step.CommitReconcile? && Enabled(cfg, s, step)
    ensures Inv(cfg, After(cfg, s, step))
  {
    hide Holds, PodsSound, Base, Grounded, Exclusive, ListedAll, Reconciled, IsTransform;
    var writer, s' := s.writers[step.w], After(cfg, s, step);
    CommitterIsCurrent(cfg, s, step.w);
    InvListing(cfg, s, step.w);
    InvExclusive(cfg, s);
    NextBase(cfg, s, step, s');
    ReconcileKeepsPods(cfg, s.Current(), s.now, s.pods, writer, step.daemons, step.clock);
    CommitKeeps(cfg, s, s');
  }

  lemma ReconcileKeepsPods(cfg: Config, version: Version, now: int, pods: map<nat, PodEntry>, writer: Writer,
                           daemons: seq<string>, clock: Clock)
    requires Safe(cfg) && PodsSound(cfg, version, now, pods)
    requires writer.Listed? && ListedAll(cfg, version.status, writer, pods)
    requires forall pool, ip :: clock(pool, ip) <= writer.listedAt + cfg.lag
    ensures PodsSound(cfg, ReconciledVersion(version, writer.pods, daemons, clock), now, pods)
  {
    hide PodSound, ListingSound, Reconciled;
    forall id | id in pods
      ensures PodSound(cfg, ReconciledVersion(version, writer.pods, daemons, clock), now, pods[id])
    {
      assert PodSound(cfg, version, now, pods[id]) && ListingSound(cfg, version.status, writer, pods[id]);
      ReconcileKeepsPod(cfg, version, now, pods[id], writer, daemons, clock);
    }
  }

  /** Neither a link writer nor an edit of the specification touches what the invariant needs. */
  lemma SameAddressesPod(cfg: Config, version: Version, version': Version, now: int, e: PodEntry)
    requires version'.status.freeIPs == version.status.freeIPs && version'.status.pendingIPs == version.status.pendingIPs
    requires PoolNames(version.spec.pools) <= PoolNames(version'.spec.pools)
    requires PodSound(cfg, version, now, e)
    ensures PodSound(cfg, version', now, e)
  {
    hide Regular, PodAddress, Bare, PoolNames;
  }

  lemma SameAddressesSound(cfg: Config, version: Version, version': Version, now: int, pods: map<nat, PodEntry>)
    requires version'.status.freeIPs == version.status.freeIPs && version'.status.pendingIPs == version.status.pendingIPs
    requires PoolNames(version.spec.pools) <= PoolNames(version'.spec.pools)
    requires PodsSound(cfg, version, now, pods)
    ensures PodsSound(cfg, version', now, pods)
  {
    hide PodSound, PoolNames;
    forall id | id in pods ensures PodSound(cfg, version', now, pods[id]) {
      SameAddressesPod(cfg, version, version', now, pods[id]);
    }
  }

  lemma SameAddressesInv(cfg: Config, s: System, s': System, version': Version)
    requires Inv(cfg, s) && Base(cfg, s')
    requires version'.status.freeIPs == s.Current().status.freeIPs && version'.status.pendingIPs == s.Current().status.pendingIPs
    requires PoolNames(s.Current().spec.pools) <= PoolNames(version'.spec.pools)
    requires s'.history == s.history + [version'] && s'.pods == s.pods && s'.now == s.now
    requires s'.writers.Keys <= s.writers.Keys && forall w :: w in s'.writers ==> s'.writers[w] == s.writers[w]
    ensures Inv(cfg, s')
  {
    InvExclusive(cfg, s);
    hide PodsSound, Exclusive, Holds, Grounded, WritersAgree;
    SameAddressesSound(cfg, s.Current(), version', s.now, s.pods);
    CommitKeeps(cfg, s, s');
  }

  lemma CommitLinkInv(cfg: Config, s: System, step: Step)
    requires Inv(cfg, s) && step.CommitLink? && Enabled(cfg, s, step)
    ensures Inv(cfg, After(cfg, s, step))
  {
    hide Holds, ShortStateOf, IsTransform, Grounded, WritersAgree;
    CommitterIsCurrent(cfg, s, step.w);
    NextBase(cfg, s, step, After(cfg, s, step));
    SameAddressesInv(cfg, s, After(cfg, s, step), s.Current().(status := Linked(s.Current().status, step.manager, step.link)));
  }

  lemma EditSpecInv(cfg: Config, s: System, step: Step)
    requires Inv(cfg, s) && step.EditSpec? && Enabled(cfg, s, step)
    ensures Inv(cfg, After(cfg, s, step))
  {
    hide Holds, IsTransform, Grounded, WritersAgree;
    NextBase(cfg, s, step, After(cfg, s, step));
    SameAddressesInv(cfg, s, After(cfg, s, step), Version(step.spec, s.Current().status));
  }

  // ---------------------------------------------------------------- Reads and listings

  lemma ListingIsSound(cfg: Config, s: System, writer: Writer, id: nat)
    requires Inv(cfg, s) && id in s.pods
    requires writer.Listed? && writer.listedAt == s.now && ListsView(s, writer.pods)
    ensures ListingSound(cfg, s.Current().status, writer, s.pods[id])
  {
    hide Holds;
    InvPod(cfg, s, id);
    var e := s.pods[id];
    if e.view.Shown? {
      assert e.record in writer.pods;
    } else if e.view.NotYet? {
      forall p | p in writer.pods && PodAddress(p).found ensures Bare(PodAddress(p).address) != Bare(e.ip) {
        var other :| other in s.pods && s.pods[other].view.Shown? && s.pods[other].record == p;
        InvPod(cfg, s, other);
        TwoPodsDiffer(cfg, s, id, other);
      }
    }
  }

  lemma TwoPodsDiffer(cfg: Config, s: System, i: nat, j: nat)
    requires Inv(cfg, s) && i in s.pods && j in s.pods && i != j
    requires !s.pods[i].view.Gone? && !s.pods[j].view.Gone?
    ensures Bare(s.pods[i].ip) != Bare(s.pods[j].ip)
  {
    hide PodsSound, Grounded, WritersAgree, ListingsSound;
  }

  lemma WriterChangeKeeps(cfg: Config, s: System, w: nat, writer: Writer)
    requires Inv(cfg, s) && WriterAgrees(s.history, writer)
    requires writer.Granting? ==> !ClaimsAddress(writer.base)
    requires writer.Listed? ==> ListedAll(cfg, s.Current().status, writer, s.pods)
    ensures Inv(cfg, s.(writers := s.writers[w := writer]))
  {
    hide PodsSound, Exclusive, Grounded, ListedAll, WriterAgrees, ClaimsAddress;
  }

  lemma GiveUpInv(cfg: Config, s: System, w: nat)
    requires Inv(cfg, s)
    ensures Inv(cfg, s.(writers := s.writers - {w}))
  {
    hide PodsSound, Exclusive, Grounded, ListedAll, WriterAgrees;
  }

  lemma ListPodsInv(cfg: Config, s: System, step: Step)
    requires Inv(cfg, s) && step.ListPods? && Enabled(cfg, s, step)
    ensures Inv(cfg, After(cfg, s, step))
  {
    hide Holds, ListingSound;
    var writer := Listed(s.writers[step.w].read, s.writers[step.w].seen, step.pods, s.now);
    BaseWriter(cfg, s, step.w);
    forall id | id in s.pods ensures ListingSound(cfg, s.Current().status, writer, s.pods[id]) {
      ListingIsSound(cfg, s, writer, id);
    }
    WriterChangeKeeps(cfg, s, step.w, writer);
  }

  // ---------------------------------------------------------------- Pods and the clock

  /** A pod may move forward in the view as long as it stays sound. */
  lemma PodChangeKeeps(cfg: Config, s: System, pod: nat, life: Life, view: View)
    requires Inv(cfg, s) && pod in s.pods
    requires PodSound(cfg, s.Current(), s.now, s.pods[pod].(life := life, view := view))
    requires view.NotYet? ==> s.pods[pod].view.NotYet?
    requires view.Shown? ==> !s.pods[pod].view.Gone?
    ensures Inv(cfg, SetPod(s, pod, s.pods[pod].(life := life, view := view)))
  {
    hide PodSound, ListingSound, ListedAll, Grounded, WritersAgree, Exclusive;
    var entry := s.pods[pod].(life := life, view := view);
    OneMoreSound(cfg, s.Current(), s.now, s.pods, pod, entry);
    StillExclusive(s.pods, pod, entry);
    forall w | w in s.writers && s.writers[w].Listed? && s.writers[w].read == |s.history| - 1
      ensures ListedAll(cfg, s.Current().status, s.writers[w], s.pods[pod := entry])
    {
      StillListed(cfg, s.Current().status, s.writers[w], s.pods, pod, entry);
    }
  }

  lemma OneMoreSound(cfg: Config, version: Version, now: int, pods: map<nat, PodEntry>, pod: nat, entry: PodEntry)
    requires PodsSound(cfg, version, now, pods) && PodSound(cfg, version, now, entry)
    ensures PodsSound(cfg, version, now, pods[pod := entry])
  {
    var after := pods[pod := entry];
    forall id | id in after ensures PodSound(cfg, version, now, after[id]) {
      assert id != pod ==> PodSound(cfg, version, now, pods[id]);
    }
  }

  lemma StillExclusive(pods: map<nat, PodEntry>, pod: nat, entry: PodEntry)
    requires Exclusive(pods) && pod in pods
    requires entry.ip == pods[pod].ip && (pods[pod].view.Gone? ==> entry.view.Gone?)
    ensures Exclusive(pods[pod := entry])
  {
  }

  lemma StillListed(cfg: Config, status: Status, writer: Writer, pods: map<nat, PodEntry>, pod: nat, entry: PodEntry)
    requires writer.Listed? && ListedAll(cfg, status, writer, pods) && pod in pods
    requires entry == pods[pod].(life := entry.life, view := entry.view)
    requires entry.view.NotYet? ==> pods[pod].view.NotYet?
    requires entry.view.Shown? ==> !pods[pod].view.Gone?
    ensures ListedAll(cfg, status, writer, pods[pod := entry])
  {
    assert ListingSound(cfg, status, writer, pods[pod]);
    var after := pods[pod := entry];
    forall id | id in after ensures ListingSound(cfg, status, writer, after[id]) {
      assert id != pod ==> ListingSound(cfg, status, writer, pods[id]);
    }
  }

  lemma PodStepInv(cfg: Config, s: System, step: Step)
    requires Inv(cfg, s) && Enabled(cfg, s, step)
    requires step.CreatePod? || step.AbortPod? || step.DeletePod? || step.ShowPod? || step.SkipPod? || step.ForgetPod?
    ensures Inv(cfg, After(cfg, s, step))
  {
    hide Holds, ListsView, MayRead, Offer, Regular, PodAddress, RegularSpec;
    var before, after := s.pods[step.pod], After(cfg, s, step).pods[step.pod];
    InvPod(cfg, s, step.pod);
    PodChangeKeeps(cfg, s, step.pod, after.life, after.view);
  }

  lemma TickInv(cfg: Config, s: System, time: int)
    requires Inv(cfg, s)
    requires forall id :: id in s.pods && s.pods[id].view.NotYet? ==> time <= s.pods[id].granted + cfg.visibleBy
    ensures Inv(cfg, s.(now := time))
  {
    hide PodsSound, Exclusive, Grounded, ListingsSound, WritersAgree;
    PodsSoundLater(cfg, s.Current(), s.now, time, s.pods);
  }

  lemma PodsSoundLater(cfg: Config, version: Version, now: int, later: int, pods: map<nat, PodEntry>)
    requires PodsSound(cfg, version, now, pods)
    requires forall id :: id in pods && pods[id].view.NotYet? ==> later <= pods[id].granted + cfg.visibleBy
    ensures PodsSound(cfg, version, later, pods)
  {
    forall id | id in pods ensures PodSound(cfg, version, later, pods[id]) {
      assert PodSound(cfg, version, now, pods[id]);
    }
  }

  /** Every step keeps the invariant. */
  lemma NextInv(cfg: Config, s: System, step: Step, s': System)
    requires Safe(cfg) && Inv(cfg, s) && Next(cfg, s, step, s')
    ensures Inv(cfg, s')
  {
    hide Holds;
    match step
    case CommitGrant(_, _, _, _, _) => CommitGrantInv(cfg, s, step);
    case CommitReconcile(_, _, _) => CommitReconcileInv(cfg, s, step);
    case CommitLink(_, _, _) => CommitLinkInv(cfg, s, step);
    case EditSpec(_) => EditSpecInv(cfg, s, step);
    case ListPods(_, _) => ListPodsInv(cfg, s, step);
    case ReadForGrant(w, read, pool, base) => WriterChangeKeeps(cfg, s, w, Granting(read, s.history[read], pool, base));
    case ReadForReconcile(w, read) => WriterChangeKeeps(cfg, s, w, Reading(read, s.history[read]));
    case ReadForLink(w, read) => WriterChangeKeeps(cfg, s, w, Linking(read, s.history[read]));
    case GiveUp(w) => GiveUpInv(cfg, s, w);
    case Tick(time) => TickInv(cfg, s, time);
    case CreatePod(_) => PodStepInv(cfg, s, step);
    case AbortPod(_) => PodStepInv(cfg, s, step);
    case DeletePod(_) => PodStepInv(cfg, s, step);
    case ShowPod(_) => PodStepInv(cfg, s, step);
    case SkipPod(_) => PodStepInv(cfg, s, step);
    case ForgetPod(_) => PodStepInv(cfg, s, step);
  }
}
