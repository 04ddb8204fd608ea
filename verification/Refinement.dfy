/** What the operator commits on the server is what the steps of the allocation protocol commit. */
module Refinement {
  import opened Wrappers
  import opened Kube
  import opened Network
  import opened Text
  import opened Ipam
  import opened IpamFacts
  import opened Requeue
  import opened PodPatch
  import opened ApiServer
  import opened Webhook
  import opened Protocol
  import opened ProtocolBase

  /** A record as the protocol sees it. */
  function VersionOf(record: Record): Version {
    Version(record.spec, record.status)
  }

  // ---------------------------------------------------------------- Grants

  /** A committed admission is the protocol's grant, with the time of the admission, of the
      address that the pod gets; the other networks keep their records. */
  lemma AdmissionIsGrantStep(before: map<string, Record>, after: map<string, Record>, network: string, pool: string,
                             now: int, outcome: Outcome)
    requires StoreEffect(before, after, network, pool, now, outcome) && outcome.Stamped()
    ensures network in before && network in after
    ensures Offer(before[network].status, pool).Some?
    ensures VersionOf(after[network]) ==
            GrantedVersion(VersionOf(before[network]), pool, Offer(before[network].status, pool).value, now)
    ensures outcome.Admitted? ==> Some(outcome.ip) == Offer(before[network].status, pool)
    ensures forall other :: other != network ==> (other in after <==> other in before)
    ensures forall other :: other != network && other in before ==> after[other] == before[other]
  {
    var offer := Offer(before[network].status, pool).value;
    GrantIsMinimal(before[network].status, pool, StampOf(now));
    hide Offer;
    assert forall name :: name in after <==> name in before by {
      assert after.Keys == before.Keys;
    }
  }

  /** An admitted pod is one that the reconciler will find, with the address that was stamped
      unless the pod claims another, and whose init container knows the managers. */
  lemma AdmittedPodReports(before: Pod, after: Pod, network: string, inputs: Inputs, outcome: Outcome)
    requires PodEffect(before, after, network, inputs, outcome) && outcome.Admitted?
    ensures Bare(PodAddress(after).address) == (if ClaimsAddress(before) then Bare(Claim(before)) else Bare(outcome.ip))
    ensures "vlanman.dialo.ai/worker" in after.labels && after.labels["vlanman.dialo.ai/worker"] == network
    ensures |after.initContainers| > 0 && inputs.read.Some? && inputs.managers.Some?
    ensures LastValue(after.initContainers[0].env, "ROUTES") == inputs.routes
    ensures ListsManagers(LastValue(after.initContainers[0].env, "MANAGERS"), EndpointMap(inputs.managers.value))
  {
    var list :| ListsManagers(list, EndpointMap(inputs.managers.value))
                && after == Patched(before, Patch(network, inputs.read.value.spec.affinity, inputs.image, inputs.pullPolicy,
                                                  outcome.ip, inputs.routes, list));
    var p := Patch(network, inputs.read.value.spec.affinity, inputs.image, inputs.pullPolicy, outcome.ip, inputs.routes, list);
    PatchedReportsGrant(before, p);
    if ClaimsAddress(before) {
      ExistingClaimWins(before, p);
    }
    PatchKeepsPod(before, p);
    InitIsTold(p);
    assert after.initContainers[0] == InitContainer(p);
    hide PodAddress, ListsManagers, InitContainer, LastValue, ClaimsAddress, Claim, Bare;
  }

  // ---------------------------------------------------------------- Passes

  /** What a pass makes of one network that it committed: the protocol's reconcile of the record
      that was read, with the pods, daemons and clock of its turn. */
  lemma PassIsReconcileStep(before: map<string, Record>, now: map<string, Record>, turns: seq<Turn>, done: nat,
                            result: PassResult, i: nat)
    requires NamedOnce(turns) && Ended(before, now, turns, done, result) && i < done
    ensures var turn := turns[i];
            && turn.pods.Some? && turn.name in before && before[turn.name] == turn.read && turn.name in now
            && now[turn.name].version == turn.read.version + 1
            && VersionOf(now[turn.name]) ==
               ReconciledVersion(VersionOf(turn.read), turn.pods.value,
                                 if turn.daemons.Some? then turn.daemons.value else [], turn.clock)
  {
    hide Reconciled, Stop, StopAt, DelayOf;
    var turn := turns[i];
    ListedPrefix(turns, i, done);
    assert StopAt(before, turns, i) == None;
    StopsAsAtFirst(before, turns, i);
    FreshGoesOn(turn, before);
    assert turns[..done][i] == turn;
    TurnsAreIndependent(before, turns[..done], turn.name);
  }

  /** Networks that the pass did not get to keep their records. */
  lemma PassTouchesNoOther(before: map<string, Record>, now: map<string, Record>, turns: seq<Turn>, done: nat,
                           result: PassResult, name: string)
    requires NamedOnce(turns) && Ended(before, now, turns, done, result)
    requires forall i :: 0 <= i < done ==> turns[i].name != name
    ensures name in now <==> name in before
    ensures name in before ==> now[name] == before[name]
  {
    hide TurnRecord, StopAt, DelayOf;
    TurnsAreIndependent(before, turns[..done], name);
  }

  /** In particular: no free list of the network holds an address that one of the pods of its
      turn holds; a stamp is gone exactly if its pool was dropped, it was unreadable, such a pod
      holds the address, or the clock of the turn was past its deadline; and the specification
      is as read. */
  lemma PassHeedsItsPods(before: map<string, Record>, now: map<string, Record>, turns: seq<Turn>, done: nat,
                         result: PassResult, i: nat, pool: string, ip: string)
    requires NamedOnce(turns) && Ended(before, now, turns, done, result) && i < done
    ensures var turn := turns[i];
            && turn.pods.Some? && turn.name in now && now[turn.name].spec == turn.read.spec
            && (ip in FreeIn(now[turn.name].status, pool) ==>
                  pool in PoolNames(turn.read.spec.pools) && Bare(ip) !in HeldBy(turn.pods.value))
            && (ip in StampsIn(turn.read.status, pool) ==>
                 (ip !in StampsIn(now[turn.name].status, pool) <==>
                   var stamp := StampsIn(turn.read.status, pool)[ip];
                   || (pool in turn.read.status.freeIPs && pool !in PoolNames(turn.read.spec.pools))
                   || stamp.Unreadable?
                   || Bare(ip) in HeldBy(turn.pods.value)
                   || turn.clock(pool, ip) > Deadline(stamp.sec)))
  {
    PassIsReconcileStep(before, now, turns, done, result, i);
    hide Reconciled, Ended, HeldBy, StampsIn, FreeIn, PoolNames;
    var turn := turns[i];
    var daemons := if turn.daemons.Some? then turn.daemons.value else [];
    var status, spec := turn.read.status, turn.read.spec;
    if ip in StampsIn(status, pool) {
      StampDroppedWhen(status, spec, turn.pods.value, daemons, turn.clock, pool, ip);
    }
    if ip in FreeIn(Reconciled(status, spec, turn.pods.value, daemons, turn.clock), pool) {
      FreeIsUnheld(status, spec, turn.pods.value, daemons, turn.clock, pool, ip);
    }
  }

  /** The delay that a finished pass reports belongs to the stamps it left in the last network. */
  lemma PassReportsDelay(before: map<string, Record>, now: map<string, Record>, turns: seq<Turn>, done: nat, result: PassResult)
    requires NamedOnce(turns) && Ended(before, now, turns, done, result) && result.Finished? && turns != []
    ensures var last := turns[|turns| - 1];
            last.name in now && PossibleDelay(now[last.name].status.pendingIPs, last.later, result.delay)
  {
    DoneIsAll(before, now, turns, done, result);
    PassFinishesWhenFresh(before, now, turns, done, result);
    hide PossibleDelay, Reconciled, Progress, Passed, StopAt;
  }

  lemma DoneIsAll(before: map<string, Record>, now: map<string, Record>, turns: seq<Turn>, done: nat, result: PassResult)
    requires Ended(before, now, turns, done, result) && result.Finished?
    ensures done == |turns|
  {
    hide Progress, DelayOf, Stop;
    if done < |turns| {
      StopIsSome(before, turns, done);
    }
  }

  lemma StopIsSome(before: map<string, Record>, turns: seq<Turn>, n: nat)
    requires n < |turns|
    ensures StopAt(before, turns, n).Some? ==> !StopAt(before, turns, n).value.Finished?
  {
  }
}
