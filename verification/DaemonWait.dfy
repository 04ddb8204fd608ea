/** Waiting for a new DaemonSet: two loops that share one budget of polls. */
module DaemonWait {
  const BUDGET: nat := 30

  // The whole status is compared with the zero value; `rest` stands for its other fields, such
  // as the observed generation, and is empty when they are all zero.
  datatype SetStatus = SetStatus(scheduled: int, desired: int, unavailable: int, rest: string)
  const ZERO := SetStatus(0, 0, 0, "")

  /** The answer to one read of the DaemonSet. */
  datatype Answer = Got(status: SetStatus) | NotFound | Failed

  datatype Waited = ReadError | NeverAppeared | NeverReady(cleanup: bool) | Ready

  /** The status held after `n` polls: that of the last read that succeeded. Read 0 is the one
      before the first poll, and `created` what the create call returned. */
  function Seen(created: SetStatus, read: nat -> Answer, n: nat): SetStatus {
    if read(n).Got? then read(n).status
    else if n == 0 then created
    else Seen(created, read, n - 1)
  }

  /** After `n` polls the first loop would go on if it had budget. */
  predicate Absent(created: SetStatus, read: nat -> Answer, n: nat) {
    read(n).NotFound? || Seen(created, read, n) == ZERO
  }

  /** The DaemonSet is there for the first time after `n` polls. */
  ghost predicate Appears(created: SetStatus, read: nat -> Answer, n: nat) {
    !Absent(created, read, n) && forall i :: 0 <= i < n ==> Absent(created, read, i)
  }

  /** From poll `n` on, poll `m` is the first after which no pod is known to be unavailable,
      and no read in between failed for good. */
  ghost predicate Settles(created: SetStatus, read: nat -> Answer, n: nat, m: nat) {
    && n <= m && Seen(created, read, m).unavailable == 0
    && (forall i :: n <= i < m ==> Seen(created, read, i).unavailable != 0)
    && (forall i :: n < i <= m ==> !read(i).Failed?)
  }

  ghost predicate BecomesReady(created: SetStatus, read: nat -> Answer, polls: nat) {
    exists n: nat :: Appears(created, read, n) && read(n).Got? && Settles(created, read, n, polls)
  }

  /** The budget ran out while pods of a DaemonSet that had appeared were unavailable. */
  ghost predicate RunsOutWaiting(created: SetStatus, read: nat -> Answer) {
    exists n: nat ::
      && n < BUDGET && Appears(created, read, n) && read(n).Got?
      && (forall i :: n <= i < BUDGET ==> Seen(created, read, i).unavailable != 0)
      && (forall i :: n < i <= BUDGET ==> !read(i).Failed?)
  }

  /** `polls` counts the reads after the first. */
  method WaitForDaemonSet(created: SetStatus, read: nat -> Answer, cleanupWorks: bool)
    returns (result: Waited, polls: nat, deleted: bool)
    ensures polls <= 30
    ensures result.Ready? ==> polls < BUDGET && BecomesReady(created, read, polls)
    ensures result.Ready? <==> exists m: nat :: m < BUDGET && BecomesReady(created, read, m)
    ensures deleted <==> result.NeverReady?
    ensures deleted <==> RunsOutWaiting(created, read)
    ensures result.NeverAppeared? <==> (forall i :: 0 <= i < BUDGET ==> Absent(created, read, i)) && read(BUDGET).Got?
    ensures deleted ==> result.cleanup == cleanupWorks
  {
    deleted := false;
    var status := if read(0).Got? then read(0).status else created;
    var timeout := 1;
    while (read(timeout - 1).NotFound? || status == ZERO) && timeout <= BUDGET
      invariant 1 <= timeout <= BUDGET + 1
      invariant status == Seen(created, read, timeout - 1)
      invariant forall i :: 0 <= i < timeout - 1 ==> Absent(created, read, i)
    {
      if read(timeout).Got? {
        status := read(timeout).status;
      }
      timeout := timeout + 1;
    }
    polls := timeout - 1;
    ghost var n := polls;
    if !read(polls).Got? {
      NotBothWays(created, read, n);
      return ReadError, polls, deleted;
    }
    if timeout > BUDGET {
      NotBothWays(created, read, n);
      return NeverAppeared, polls, deleted;
    }
    assert Appears(created, read, n);
    while timeout <= BUDGET && status.unavailable != 0
      invariant n + 1 <= timeout <= BUDGET + 1
      invariant status == Seen(created, read, timeout - 1)
      invariant forall i :: n <= i < timeout - 1 ==> Seen(created, read, i).unavailable != 0
      invariant forall i :: n < i <= timeout - 1 ==> !read(i).Failed?
    {
      if read(timeout).Failed? {
        polls := timeout;
        BrokenRead(created, read, n, timeout);
        return ReadError, polls, deleted;
      }
      if read(timeout).Got? {
        status := read(timeout).status;
      }
      timeout := timeout + 1;
    }
    polls := timeout - 1;
    if timeout > BUDGET {
      deleted := true;
      TooLate(created, read, n);
      return NeverReady(cleanupWorks), polls, deleted;
    }
    assert Settles(created, read, n, polls);
    assert BecomesReady(created, read, polls);
    NotRunningOut(created, read, n, polls);
    result := Ready;
  }

  lemma AppearsOnce(created: SetStatus, read: nat -> Answer, n: nat, k: nat)
    requires Appears(created, read, n) && Appears(created, read, k)
    ensures n == k
  {
  }

  /** If the first loop ends with an error or without budget, the second is never entered. */
  lemma NotBothWays(created: SetStatus, read: nat -> Answer, n: nat)
    requires n <= BUDGET && forall i :: 0 <= i < n ==> Absent(created, read, i)
    requires n == BUDGET || (!Absent(created, read, n) && !read(n).Got?)
    ensures !RunsOutWaiting(created, read)
    ensures forall m: nat :: m < BUDGET ==> !BecomesReady(created, read, m)
  {
    forall k: nat | k < BUDGET && read(k).Got? ensures !Appears(created, read, k) {
      assert k < n ==> Absent(created, read, k);
      assert n < k ==> !Absent(created, read, n);
    }
  }

  lemma BrokenRead(created: SetStatus, read: nat -> Answer, n: nat, t: nat)
    requires n < t <= BUDGET && Appears(created, read, n) && read(t).Failed?
    requires forall i :: n <= i < t ==> Seen(created, read, i).unavailable != 0
    ensures !RunsOutWaiting(created, read)
    ensures forall m: nat :: m < BUDGET ==> !BecomesReady(created, read, m)
  {
    forall k: nat | Appears(created, read, k) ensures k == n {
      AppearsOnce(created, read, n, k);
    }
    forall m: nat ensures !Settles(created, read, n, m) {
      assert n <= m < t ==> Seen(created, read, m).unavailable != 0;
      assert t <= m ==> read(t).Failed?;
    }
  }

  lemma TooLate(created: SetStatus, read: nat -> Answer, n: nat)
    requires n < BUDGET && Appears(created, read, n) && read(n).Got?
    requires forall i :: n <= i < BUDGET ==> Seen(created, read, i).unavailable != 0
    requires forall i :: n < i <= BUDGET ==> !read(i).Failed?
    ensures RunsOutWaiting(created, read)
    ensures forall m: nat :: m < BUDGET ==> !BecomesReady(created, read, m)
  {
    forall k: nat | Appears(created, read, k) ensures k == n {
      AppearsOnce(created, read, n, k);
    }
    forall m: nat | m < BUDGET ensures !Settles(created, read, n, m) {
      assert m >= n ==> Seen(created, read, m).unavailable != 0;
    }
  }

  lemma NotRunningOut(created: SetStatus, read: nat -> Answer, n: nat, m: nat)
    requires m < BUDGET && Appears(created, read, n) && read(n).Got? && Settles(created, read, n, m)
    ensures !RunsOutWaiting(created, read)
  {
    forall k: nat | Appears(created, read, k) ensures k == n {
      AppearsOnce(created, read, n, k);
    }
  }

  // ---------------------------------------------------------------- The same by the readings alone

  predicate IsReal(answer: Answer) {
    answer.Got? && answer.status != SetStatus(0, 0, 0, "")
  }

  /** Reading `n` is the first that shows a status that is not all zero. */
  ghost predicate FirstReal(read: nat -> Answer, n: nat) {
    IsReal(read(n)) && forall i :: 0 <= i < n ==> !IsReal(read(i))
  }

  /** As long as reading works or finds nothing, the first loop ends with the first real status;
      it starts from the zero status unless the create call returned another. */
  lemma AppearsPlainly(read: nat -> Answer, n: nat)
    requires forall i :: 0 <= i < n ==> !read(i).Failed?
    ensures Appears(ZERO, read, n) && read(n).Got? <==> FirstReal(read, n)
  {
    if forall i :: 0 <= i < n ==> !IsReal(read(i)) {
      forall i | 0 <= i < n ensures Absent(ZERO, read, i) {
        SeenZero(read, i);
      }
    }
    if Appears(ZERO, read, n) && read(n).Got? {
      forall i | 0 <= i < n ensures !IsReal(read(i)) {
        assert Absent(ZERO, read, i);
      }
    }
  }

  lemma {:induction false} SeenZero(read: nat -> Answer, n: nat)
    requires forall i :: 0 <= i <= n ==> !IsReal(read(i))
    ensures Seen(ZERO, read, n) == ZERO
  {
    if n > 0 {
      SeenZero(read, n - 1);
    }
  }

  /** No reading from `n` on up to `m` shows all pods available. */
  predicate NeverAvailable(read: nat -> Answer, n: nat, m: nat) {
    forall i :: n <= i < m && read(i).Got? ==> read(i).status.unavailable != 0
  }

  lemma {:induction false} SeenUnavailable(created: SetStatus, read: nat -> Answer, n: nat, m: nat)
    requires n <= m && read(n).Got?
    ensures NeverAvailable(read, n, m) <==> forall i :: n <= i < m ==> Seen(created, read, i).unavailable != 0
  {
    if n < m {
      SeenUnavailable(created, read, n, m - 1);
      LastReading(created, read, n, m - 1);
      if NeverAvailable(read, n, m) {
        assert NeverAvailable(read, n, m - 1);
        forall i | n <= i < m ensures Seen(created, read, i).unavailable != 0 {
          assert i < m - 1 || i == m - 1;
        }
      }
    }
  }

  /** A status is that of its own reading or the one before. */
  lemma LastReading(created: SetStatus, read: nat -> Answer, n: nat, k: nat)
    requires n <= k && read(n).Got?
    ensures Seen(created, read, k) == if read(k).Got? then read(k).status else Seen(created, read, k - 1)
    ensures !read(k).Got? ==> n <= k - 1
  {
  }

  /** The jobs are reached after `m` polls exactly if poll `m` is the first to show all pods
      available once the set was there; missing readings in between do not matter. */
  lemma ReadyPlainly(read: nat -> Answer, m: nat)
    requires forall i :: 0 <= i <= m ==> !read(i).Failed?
    ensures BecomesReady(ZERO, read, m) <==>
            exists n: nat :: n <= m && FirstReal(read, n) && NeverAvailable(read, n, m)
                             && read(m).Got? && read(m).status.unavailable == 0
  {
    hide Appears, FirstReal, NeverAvailable;
    forall n: nat | n <= m
      ensures (Appears(ZERO, read, n) && read(n).Got?) <==> FirstReal(read, n)
      ensures FirstReal(read, n) ==> (Settles(ZERO, read, n, m) <==>
                NeverAvailable(read, n, m) && read(m).Got? && read(m).status.unavailable == 0)
    {
      AppearsPlainly(read, n);
      if FirstReal(read, n) {
        SettlesPlainly(read, n, m);
      }
    }
    hide Settles;
    LaterNeverSettles(read, m);
  }

  lemma LaterNeverSettles(read: nat -> Answer, m: nat)
    ensures forall n: nat :: n > m ==> !Settles(ZERO, read, n, m)
  {
  }

  lemma SettlesPlainly(read: nat -> Answer, n: nat, m: nat)
    requires n <= m && read(n).Got? && forall i :: 0 <= i <= m ==> !read(i).Failed?
    ensures Settles(ZERO, read, n, m) <==> NeverAvailable(read, n, m) && read(m).Got? && read(m).status.unavailable == 0
  {
    SeenUnavailable(ZERO, read, n, m);
    LastReading(ZERO, read, n, m);
    hide NeverAvailable;
    if Settles(ZERO, read, n, m) {
      assert m > n ==> Seen(ZERO, read, m - 1).unavailable != 0;
      assert read(m).Got?;
      assert NeverAvailable(read, n, m);
    }
    if NeverAvailable(read, n, m) && read(m).Got? && read(m).status.unavailable == 0 {
      forall i | n <= i < m ensures Seen(ZERO, read, i).unavailable != 0 {
      }
      assert Seen(ZERO, read, m).unavailable == 0;
    }
  }

  /** The cleanup is due exactly if the set appeared and none of the first 30 readings from then
      on showed all pods available. */
  lemma RunsOutPlainly(read: nat -> Answer)
    requires forall i :: 0 <= i <= 30 ==> !read(i).Failed?
    ensures RunsOutWaiting(ZERO, read) <==> exists n: nat :: n < 30 && FirstReal(read, n) && NeverAvailable(read, n, 30)
  {
    hide Appears, FirstReal, NeverAvailable, Seen;
    forall n: nat | n < 30
      ensures (Appears(ZERO, read, n) && read(n).Got?) <==> FirstReal(read, n)
      ensures read(n).Got? ==>
                (NeverAvailable(read, n, 30) <==> forall i :: n <= i < 30 ==> Seen(ZERO, read, i).unavailable != 0)
    {
      AppearsPlainly(read, n);
      if read(n).Got? {
        SeenUnavailable(ZERO, read, n, 30);
      }
    }
  }

  /** When interface jobs are started, the last status that was read has no unavailable pod. */
  lemma ReadyMeansAvailable(created: SetStatus, read: nat -> Answer, polls: nat)
    requires BecomesReady(created, read, polls)
    ensures exists i: nat ::
      i <= polls && read(i).Got? && read(i).status.unavailable == 0 && forall j :: i < j <= polls ==> read(j).NotFound?
  {
    var n :| Appears(created, read, n) && read(n).Got? && Settles(created, read, n, polls);
    var i := LastGot(created, read, n, polls);
  }

  lemma {:induction false} LastGot(created: SetStatus, read: nat -> Answer, n: nat, m: nat) returns (i: nat)
    requires n <= m && read(n).Got? && forall j :: n < j <= m ==> !read(j).Failed?
    ensures n <= i <= m && read(i).Got? && read(i).status == Seen(created, read, m)
    ensures forall j :: i < j <= m ==> read(j).NotFound?
  {
    if read(m).Got? {
      i := m;
    } else {
      i := LastGot(created, read, n, m - 1);
    }
  }
}
