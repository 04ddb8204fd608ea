/** The API server's copy of the networks, and the operator's calls against it. */
module ApiServer {
  import opened Wrappers
  import opened Kube
  import opened Network
  import opened Ipam
  import opened Links
  import opened Requeue
  import opened StatusObject

  datatype Record = Record(version: nat, spec: Spec, status: Status)

  datatype UpdateResult = Committed | Conflict | NotFound | Unreachable

  /** How the server answers an update: a record that is not the network's any more conflicts. */
  function Answer(networks: map<string, Record>, name: string, read: Record, reachable: bool): UpdateResult {
    if !reachable then Unreachable
    else if name !in networks then NotFound
    else if networks[name] != read then Conflict
    else Committed
  }

  type History = map<string, seq<Record>>

  ghost predicate ServedIn(history: History, name: string, read: Record) {
    name in history && read.version < |history[name]| && history[name][read.version] == read
  }

  /** Nothing that was handed out is forgotten. */
  ghost predicate Grew(history: History, later: History) {
    forall name :: name in history ==> name in later && history[name] <= later[name]
  }

  lemma SameGrew(history: History)
    ensures Grew(history, history)
  {
  }

  lemma StillServed(history: History, later: History, name: string, read: Record)
    requires Grew(history, later) && ServedIn(history, name, read)
    ensures ServedIn(later, name, read)
  {
  }

  class Store {
    var networks: map<string, Record>
    // Every record a network ever had, by version.
    ghost var history: History

    ghost predicate Valid()
      reads this
    {
      && networks.Keys == history.Keys
      && forall name :: name in networks ==>
           && |history[name]| > 0
           && networks[name] == history[name][|history[name]| - 1]
           && forall i :: 0 <= i < |history[name]| ==> history[name][i].version == i
    }

    /** A record the server has handed out at some time. */
    ghost predicate Served(name: string, read: Record)
      reads this
    {
      ServedIn(history, name, read)
    }

    /** Commits a status computed from `read` if that is still the record of the network. */
    method UpdateStatus(name: string, read: Record, status: Status, reachable: bool) returns (result: UpdateResult)
      requires Valid() && Served(name, read)
      modifies this
      ensures Valid()
      ensures result == Answer(old(networks), name, read, reachable)
      ensures result.Committed? <==> reachable && name in old(networks) && old(networks)[name] == read
      ensures result.Conflict? <==> reachable && name in old(networks) && old(networks)[name] != read
      ensures result.NotFound? <==> reachable && name !in old(networks)
      ensures result.Committed? ==>
                && old(networks)[name] == read
                && networks == old(networks)[name := read.(version := read.version + 1, status := status)]
                && history == old(history)[name := old(history)[name] + [networks[name]]]
      ensures !result.Committed? ==> networks == old(networks) && history == old(history)
      ensures Grew(old(history), history)
    {
      if !reachable {
        return Unreachable;
      }
      if name !in networks {
        return NotFound;
      }
      var current := networks[name];
      if current.version != read.version {
        return Conflict;
      }
      var next := current.(version := current.version + 1, status := status);
      networks := networks[name := next];
      history := history[name := history[name] + [next]];
      result := Committed;
    }
  }

  // ---------------------------------------------------------------- Reporting a link

  /** What a manager pod that goes down and a finished spawn do: fetch the network, write one
      link and the summary, and update. A missing network or a lost race changes nothing. */
  method ReportLink(store: Store, name: string, read: Option<Record>, pod: string, link: Link, reachable: bool)
    returns (reported: bool)
    requires store.Valid() && (read.Some? ==> store.Served(name, read.value))
    modifies store
    ensures store.Valid()
    ensures reported <==> read.Some? && reachable && name in old(store.networks) && old(store.networks)[name] == read.value
    ensures store.networks ==
            if reported then
              old(store.networks)[name := read.value.(version := read.value.version + 1, status := Linked(read.value.status, pod, link))]
            else old(store.networks)
  {
    if read.None? {
      return false;
    }
    hide Linked;
    var status := WriteLink(read.value.status, pod, link);
    var answer := store.UpdateStatus(name, read.value, status, reachable);
    reported := answer.Committed?;
  }

  method WriteLink(from: Status, pod: string, link: Link) returns (status: Status)
    ensures status == Linked(from, pod, link)
  {
    var net := new NetworkStatus(from);
    net.SetLink(pod, link);
    status := net.Value();
  }

  // ---------------------------------------------------------------- One pass over all networks

  /** What one turn of the pass sees: the listed network, the pods and the daemons (unless
      listing them failed), the clock, and whether the update call gets through. */
  datatype Turn = Turn(name: string, read: Record, pods: Option<seq<Pod>>, daemons: Option<seq<string>>,
                       clock: Clock, later: Clock, reachable: bool)

  datatype PassResult = Finished(delay: Option<int>) | ListFailed | UpdateFailed(reason: UpdateResult)

  function TurnStatus(turn: Turn): Status
    requires turn.pods.Some?
  {
    Reconciled(turn.read.status, turn.read.spec, turn.pods.value, DaemonsSeen(turn), turn.clock)
  }

  /** A failed listing of the daemons is not noticed; it looks like an empty one. */
  function DaemonsSeen(turn: Turn): seq<string> {
    if turn.daemons.Some? then turn.daemons.value else []
  }

  /** So it drops every link, and only that: the addresses come out as ever, and the summary
      still counts the links that are gone. */
  lemma LostDaemonsClearLinks(turn: Turn, daemons: seq<string>)
    requires turn.pods.Some? && turn.daemons.None?
    ensures TurnStatus(turn) == TurnStatus(turn.(daemons := Some(daemons))).(links := map[])
    ensures TurnStatus(turn).shortState == turn.read.status.shortState
  {
    assert DaemonNames([]) == {};
    assert TurnStatus(turn).links == map[];
  }

  function TurnRecord(turn: Turn): Record
    requires turn.pods.Some?
  {
    turn.read.(version := turn.read.version + 1, status := TurnStatus(turn))
  }

  predicate AllListed(turns: seq<Turn>) {
    forall i :: 0 <= i < |turns| ==> turns[i].pods.Some?
  }

  /** The networks after these turns were committed in order. */
  function AfterTurns(networks: map<string, Record>, turns: seq<Turn>): map<string, Record>
    requires AllListed(turns)
  {
    if |turns| == 0 then networks
    else
      var last := turns[|turns| - 1];
      AfterTurns(networks, turns[..|turns| - 1])[last.name := TurnRecord(last)]
  }

  lemma OneMoreTurn(networks: map<string, Record>, turns: seq<Turn>, n: nat)
    requires n < |turns| && AllListed(turns[..n]) && turns[n].pods.Some?
    ensures AllListed(turns[..n + 1])
    ensures AfterTurns(networks, turns[..n + 1]) == AfterTurns(networks, turns[..n])[turns[n].name := TurnRecord(turns[n])]
  {
    hide TurnRecord;
    assert turns[..n + 1][..n] == turns[..n];
  }

  /** Networks do not get in each other's way: each has the record of its own turn, and one
      without a turn keeps its record. */
  lemma {:induction false} TurnsAreIndependent(networks: map<string, Record>, turns: seq<Turn>, name: string)
    requires AllListed(turns)
    requires forall i, j :: 0 <= i < j < |turns| ==> turns[i].name != turns[j].name
    ensures forall i :: 0 <= i < |turns| && turns[i].name == name ==>
              name in AfterTurns(networks, turns) && AfterTurns(networks, turns)[name] == TurnRecord(turns[i])
    ensures (forall i :: 0 <= i < |turns| ==> turns[i].name != name) ==>
              (name in AfterTurns(networks, turns) <==> name in networks)
              && (name in networks ==> AfterTurns(networks, turns)[name] == networks[name])
  {
    hide TurnRecord;
    if |turns| > 0 {
      TurnsAreIndependent(networks, turns[..|turns| - 1], name);
    }
  }

  method TakeTurn(store: Store, turn: Turn) returns (answer: UpdateResult, rq: Option<int>)
    requires store.Valid() && store.Served(turn.name, turn.read) && turn.pods.Some?
    modifies store
    ensures store.Valid()
    ensures Grew(old(store.history), store.history)
    ensures answer == Answer(old(store.networks), turn.name, turn.read, turn.reachable)
    ensures store.networks == if answer.Committed? then old(store.networks)[turn.name := TurnRecord(turn)] else old(store.networks)
    ensures DelayOf(turn, rq)
  {
    hide DelayOf, TurnRecord, TurnStatus, PossibleDelay, Answer, Grew, Store.Valid, Store.Served;
    var status;
    status, rq := RunPass(turn);
    PassIsTurn(turn, status, rq);
    answer := store.UpdateStatus(turn.name, turn.read, status, turn.reachable);
  }

  lemma PassIsTurn(turn: Turn, status: Status, rq: Option<int>)
    requires turn.pods.Some? && status == TurnStatus(turn) && PossibleDelay(status.pendingIPs, turn.later, rq)
    ensures TurnRecord(turn) == turn.read.(version := turn.read.version + 1, status := status) && DelayOf(turn, rq)
  {
    hide TurnStatus, PossibleDelay;
  }

  /** The pass works on its own copy of the listed network. */
  method RunPass(turn: Turn) returns (status: Status, rq: Option<int>)
    requires turn.pods.Some?
    ensures status == TurnStatus(turn)
    ensures PossibleDelay(status.pendingIPs, turn.later, rq)
  {
    var net := new NetworkStatus(turn.read.status);
    rq := net.Reconcile(turn.read.spec, turn.pods.value, DaemonsSeen(turn), turn.clock, turn.later);
    status := net.Value();
  }

  /** The first `done` networks, and only these, are committed. */
  ghost predicate Progress(before: map<string, Record>, now: map<string, Record>, turns: seq<Turn>, done: nat) {
    done <= |turns| && AllListed(turns[..done]) && now == AfterTurns(before, turns[..done])
  }

  predicate DelayOf(turn: Turn, delay: Option<int>) {
    turn.pods.Some? && PossibleDelay(TurnStatus(turn).pendingIPs, turn.later, delay)
  }

  /** Why a pass ends at this network, if it does, given the records at that moment. */
  function Stop(turn: Turn, networks: map<string, Record>): Option<PassResult> {
    if turn.pods.None? then Some(ListFailed)
    else StopFor(Answer(networks, turn.name, turn.read, turn.reachable))
  }

  function StopFor(answer: UpdateResult): Option<PassResult> {
    if answer.Committed? then None else Some(UpdateFailed(answer))
  }

  /** The pass has come to network `n`, with nothing in the way so far. */
  ghost predicate Passed(before: map<string, Record>, turns: seq<Turn>, n: nat) {
    && n <= |turns| && AllListed(turns[..n])
    && forall i :: 0 <= i < n ==> StopAt(before, turns, i) == None
  }

  /** What happens at network `n` after the ones before it were committed. */
  function StopAt(before: map<string, Record>, turns: seq<Turn>, n: nat): Option<PassResult>
    requires n < |turns|
  {
    if AllListed(turns[..n]) then Stop(turns[n], AfterTurns(before, turns[..n])) else Some(ListFailed)
  }

  /** The networks from `n` on were listed before. */
  ghost predicate WereListed(history: History, turns: seq<Turn>, n: nat) {
    forall i :: n <= i < |turns| ==> ServedIn(history, turns[i].name, turns[i].read)
  }

  lemma StillListed(history: History, later: History, turns: seq<Turn>, n: nat)
    requires Grew(history, later) && WereListed(history, turns, n)
    ensures WereListed(later, turns, n + 1)
  {
    forall i | n + 1 <= i < |turns| ensures ServedIn(later, turns[i].name, turns[i].read) {
      StillServed(history, later, turns[i].name, turns[i].read);
    }
  }

  /** Up to network `n` all went well; the last delay was `rq`. */
  ghost predicate OnTrack(before: map<string, Record>, now: map<string, Record>, turns: seq<Turn>, n: nat, rq: Option<int>) {
    && Progress(before, now, turns, n) && Passed(before, turns, n)
    && (n > 0 ==> DelayOf(turns[n - 1], rq))
  }

  /** How a pass ends: at the first network for which it must, with the networks before it and
      no others committed; or finished, with the delay of the last network. */
  ghost predicate Ended(before: map<string, Record>, now: map<string, Record>, turns: seq<Turn>, done: nat, result: PassResult) {
    && Progress(before, now, turns, done) && Passed(before, turns, done)
    && (if done < |turns| then StopAt(before, turns, done) == Some(result) else result.Finished?)
    && (result.Finished? && |turns| > 0 ==> DelayOf(turns[|turns| - 1], result.delay))
  }

  /** The networks come one after the other; after the first failure none is looked at. */
  method UpdateAllNetworkStatus(store: Store, turns: seq<Turn>) returns (result: PassResult, done: nat)
    requires store.Valid() && WereListed(store.history, turns, 0)
    modifies store
    ensures store.Valid()
    ensures Ended(old(store.networks), store.networks, turns, done, result)
  {
    var rq: Option<int> := None;
    done := 0;
    assert OnTrack(store.networks, store.networks, turns, 0, rq);
    hide *;
    while done < |turns|
      invariant done <= |turns| && store.Valid() && WereListed(store.history, turns, done)
      invariant OnTrack(old(store.networks), store.networks, turns, done, rq)
    {
      var stopped;
      stopped, rq := NextTurn(store, turns, done, old(store.networks), rq);
      if stopped.Some? {
        return stopped.value, done;
      }
      done := done + 1;
    }
    AllDone(old(store.networks), store.networks, turns, rq);
    result := Finished(rq);
  }

  method NextTurn(store: Store, turns: seq<Turn>, n: nat, ghost before: map<string, Record>, last: Option<int>)
    returns (stopped: Option<PassResult>, rq: Option<int>)
    requires n < |turns| && store.Valid() && WereListed(store.history, turns, n)
    requires OnTrack(before, store.networks, turns, n, last)
    modifies store
    ensures store.Valid() && WereListed(store.history, turns, n + 1)
    ensures stopped.Some? ==> Ended(before, store.networks, turns, n, stopped.value)
    ensures stopped.None? ==> OnTrack(before, store.networks, turns, n + 1, rq)
  {
    var turn := turns[n];
    rq := None;
    SameGrew(store.history);
    StillListed(store.history, store.history, turns, n);
    if turn.pods.None? {
      StoppedHere(before, store.networks, turns, n, last);
      return Some(ListFailed), rq;
    }
    assert store.Served(turn.name, turn.read);
    assert Stop(turn, store.networks) == StopFor(Answer(store.networks, turn.name, turn.read, turn.reachable));
    hide Stop, Answer, OnTrack, Ended, WereListed, ServedIn, Grew, DelayOf, TurnRecord, Store.Valid, Store.Served;
    var answer;
    answer, rq := TakeTurn(store, turn);
    StillListed(old(store.history), store.history, turns, n);
    stopped := StopFor(answer);
    if stopped.Some? {
      StoppedHere(before, old(store.networks), turns, n, last);
    } else {
      WentOn(before, old(store.networks), turns, n, last, store.networks, rq);
    }
  }

  lemma AllDone(before: map<string, Record>, now: map<string, Record>, turns: seq<Turn>, rq: Option<int>)
    requires OnTrack(before, now, turns, |turns|, rq)
    ensures Ended(before, now, turns, |turns|, Finished(rq))
  {
    hide Progress, Passed, DelayOf, StopAt;
  }

  /** A turn that fails ends the pass there. */
  lemma StoppedHere(before: map<string, Record>, now: map<string, Record>, turns: seq<Turn>, n: nat, last: Option<int>)
    requires n < |turns| && OnTrack(before, now, turns, n, last) && Stop(turns[n], now).Some?
    ensures Ended(before, now, turns, n, Stop(turns[n], now).value)
  {
    StopIsNotFinished(turns[n], now);
    hide DelayOf, Stop, AfterTurns;
  }

  /** A turn that is committed takes it one network further. */
  lemma WentOn(before: map<string, Record>, now: map<string, Record>, turns: seq<Turn>, n: nat, last: Option<int>,
               later: map<string, Record>, rq: Option<int>)
    requires n < |turns| && OnTrack(before, now, turns, n, last) && Stop(turns[n], now).None?
    requires turns[n].pods.Some? && later == now[turns[n].name := TurnRecord(turns[n])] && DelayOf(turns[n], rq)
    ensures OnTrack(before, later, turns, n + 1, rq)
  {
    hide DelayOf, Stop, TurnRecord, AfterTurns;
    OneMoreTurn(before, turns, n);
    OnePassedMore(before, turns, n);
  }

  lemma OnePassedMore(before: map<string, Record>, turns: seq<Turn>, n: nat)
    requires n < |turns| && Passed(before, turns, n) && AllListed(turns[..n + 1]) && StopAt(before, turns, n) == None
    ensures Passed(before, turns, n + 1)
  {
    hide StopAt;
  }

  /** Nothing is in the way of the network. */
  predicate IsFresh(turn: Turn, networks: map<string, Record>) {
    turn.pods.Some? && turn.reachable && turn.name in networks && networks[turn.name] == turn.read
  }

  lemma FreshGoesOn(turn: Turn, networks: map<string, Record>)
    ensures Stop(turn, networks) == None <==> IsFresh(turn, networks)
  {
  }

  ghost predicate NamedOnce(turns: seq<Turn>) {
    forall i, j :: 0 <= i < j < |turns| ==> turns[i].name != turns[j].name
  }

  /** Networks are independent: what happens at one is decided when the pass begins. */
  lemma StopsAsAtFirst(before: map<string, Record>, turns: seq<Turn>, n: nat)
    requires NamedOnce(turns) && n < |turns| && AllListed(turns[..n])
    ensures StopAt(before, turns, n) == Stop(turns[n], before)
  {
    TurnsAreIndependent(before, turns[..n], turns[n].name);
    hide TurnRecord;
  }

  /** A pass gets through all networks exactly when nothing is in the way of any at its
      beginning, and then every network has the record of its turn. */
  lemma PassFinishesWhenFresh(before: map<string, Record>, now: map<string, Record>, turns: seq<Turn>, done: nat, result: PassResult)
    requires NamedOnce(turns) && Ended(before, now, turns, done, result)
    ensures result.Finished? <==>
            forall i :: 0 <= i < |turns| ==>
              turns[i].pods.Some? && turns[i].reachable && turns[i].name in before && before[turns[i].name] == turns[i].read
    ensures result.Finished? ==> AllListed(turns) && forall i :: 0 <= i < |turns| ==>
              turns[i].name in now && now[turns[i].name] == TurnRecord(turns[i])
  {
    hide StopAt, Stop, TurnRecord, DelayOf;
    assert turns[..|turns|] == turns;
    forall i | 0 <= i < done ensures IsFresh(turns[i], before) {
      ListedPrefix(turns, i, done);
      StopsAsAtFirst(before, turns, i);
      FreshGoesOn(turns[i], before);
    }
    if done < |turns| {
      StopsAsAtFirst(before, turns, done);
      StopIsNotFinished(turns[done], before);
      FreshGoesOn(turns[done], before);
    } else {
      forall i | 0 <= i < |turns| ensures turns[i].name in now && now[turns[i].name] == TurnRecord(turns[i]) {
        TurnsAreIndependent(before, turns, turns[i].name);
      }
    }
  }

  lemma StopIsNotFinished(turn: Turn, networks: map<string, Record>)
    ensures Stop(turn, networks).Some? ==> !Stop(turn, networks).value.Finished?
  {
  }

  lemma ListedPrefix(turns: seq<Turn>, n: nat, m: nat)
    requires n <= m <= |turns| && AllListed(turns[..m])
    ensures AllListed(turns[..n])
  {
    assert turns[..m][..n] == turns[..n];
  }

  // ---------------------------------------------------------------- Retrying

  const MAX_RETRIES: nat := 5

  datatype Attempt = Succeeded | Conflicted | Broken

  /** Attempt number `n` ends as `attempt(n)`. Only conflicts are tried again. The number of
      attempts is that of the first one that is no conflict, or six; and an error reaches the
      caller exactly when the last of six attempts failed. Any other failure is dropped. */
  method UpdateWithRetries(attempt: nat -> Attempt) returns (attempts: nat, reported: bool)
    ensures 1 <= attempts <= 6
    ensures forall i :: 0 <= i < attempts - 1 ==> attempt(i).Conflicted?
    ensures attempts <= 5 ==> !attempt(attempts - 1).Conflicted?
    ensures reported <==> (forall i :: 0 <= i < 5 ==> attempt(i).Conflicted?) && !attempt(5).Succeeded?
  {
    var err := attempt(0);
    var ctr: nat := 1;
    while err.Conflicted? && ctr <= MAX_RETRIES
      invariant 1 <= ctr <= MAX_RETRIES + 1 && err == attempt(ctr - 1)
      invariant forall i :: 0 <= i < ctr - 1 ==> attempt(i).Conflicted?
    {
      err := attempt(ctr);
      ctr := ctr + 1;
    }
    attempts := ctr;
    reported := !err.Succeeded? && ctr == MAX_RETRIES + 1;
  }
}
