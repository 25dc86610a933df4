// When calls get in each other's way: only by sharing a USER source account or an idempotency key.
module Contention {
  import opened Domain
  import opened Specification
  import opened Protocol
  import opened Invariant
  import opened Guarantees

  /** Two calls debit the same USER account. */
  predicate SharesSource(s: State, r: CallId, o: CallId)
    requires r in s.calls && o in s.calls
  {
    s.calls[r].q.source == s.calls[o].q.source && IsUser(s.db.accounts, s.calls[r].q.source)
  }

  predicate SharesKey(s: State, r: CallId, o: CallId)
    requires r in s.calls && o in s.calls
  {
    s.calls[r].q.key == s.calls[o].q.key
  }

  predicate Shares(s: State, r: CallId, o: CallId)
    requires r in s.calls && o in s.calls
  {
    SharesSource(s, r, o) || SharesKey(s, r, o)
  }

  /** The open transaction of call r overlaps another call: that one is unanswered, or it committed after the
      snapshot. */
  predicate Meets(s: State, r: CallId, o: CallId) {
    && r in s.calls && InFlight(s.calls[r].phase)
    && o in s.calls && o != r
    && (Pending(s, o) || (Succeeded(s, o) && s.calls[o].point >= s.calls[r].snap))
  }

  /** The version in an account's stamp is one that wrote its document. */
  predicate Wrote(ev: Event, a: AccountId) {
    match ev
    case Transferred(_, q, _) => q.source == a
    case Opened(b, _) => b == a
  }

  ghost predicate StampsHonest(s: State) {
    forall a | a in s.stamps :: s.stamps[a] <= |s.log| && (s.stamps[a] > 0 ==> Wrote(s.log[s.stamps[a] - 1], a))
  }

  /** A header that is in a version but not in an earlier one was committed by a call in between. */
  lemma {:induction false} HeaderOrigin(s: State, i: nat, j: nat, n: nat) returns (k: nat)
    requires Chained(s) && i <= j <= |s.log| && |s.hist[i].headers| <= n < |s.hist[j].headers|
    ensures i <= k < j && s.log[k].Transferred? && HeaderFor(s.log[k].q, s.log[k].id) == s.hist[j].headers[n]
    decreases j
  {
    assert FollowsAt(s, j - 1);
    if n < |s.hist[j - 1].headers| {
      k := HeaderOrigin(s, i, j - 1, n);
    } else {
      k := j - 1;
    }
  }

  /** An account that a snapshot holds is not opened later. */
  lemma NotOpenedLater(s: State, i: nat, k: nat, a: AccountId)
    requires Chained(s) && i <= k < |s.log| && a in s.hist[i].accounts
    ensures s.log[k].Opened? ==> s.log[k].account != a
  {
    AccountsPersist(s, i, k, a);
    assert FollowsAt(s, k);
  }

  /** Whoever commits after the snapshot of an open transaction overlaps it. */
  lemma CommitterMet(s: State, r: CallId, k: nat)
    requires Inv(s) && r in s.calls && InFlight(s.calls[r].phase)
    requires s.calls[r].snap <= k < |s.log| && s.log[k].Transferred?
    ensures Meets(s, r, s.log[k].call) && s.calls[s.log[k].call].q == s.log[k].q
  {
    assert CallOk(s, s.log[k].call, s.calls[s.log[k].call]);
  }

  lemma LocksUserSource(s: State, r: CallId)
    requires Inv(s) && r in s.calls && s.calls[r].phase.LockSource?
    ensures IsUser(s.db.accounts, s.calls[r].q.source)
  {
    assert CallOk(s, r, s.calls[r]);
    AccountsPersist(s, s.calls[r].snap, |s.log|, s.calls[r].q.source);
  }

  lemma StagedSourceHasRival(s: State, r: CallId, o: CallId)
    requires Inv(s) && r in s.calls && s.calls[r].phase.LockSource?
    requires o in s.calls && o != r && s.calls[r].q.source in s.calls[o].staged.accounts
    ensures Meets(s, r, o) && SharesSource(s, r, o)
  {
    LocksUserSource(s, r);
    StagesOnlyItsSource(s, o);
    assert s.calls[r].q.source in s.calls[o].staged.accounts.Keys;
    assert CallOk(s, o, s.calls[o]);
  }

  lemma WrittenSourceHasRival(s: State, r: CallId) returns (o: CallId)
    requires Inv(s) && StampsHonest(s) && r in s.calls && s.calls[r].phase.LockSource?
    requires var a := s.calls[r].q.source; a in s.stamps && s.stamps[a] > s.calls[r].snap
    ensures Meets(s, r, o) && SharesSource(s, r, o)
  {
    LocksUserSource(s, r);
    var c := s.calls[r];
    assert CallOk(s, r, c);
    var k := s.stamps[c.q.source] - 1;
    NotOpenedLater(s, c.snap, k, c.q.source);
    CommitterMet(s, r, k);
    o := s.log[k].call;
  }

  /** A write conflict on the source document means that another call debits the same USER account, and is
      still unanswered or committed after this call's snapshot. */
  lemma BusySourceHasRival(s: State, r: CallId) returns (o: CallId)
    requires Inv(s) && StampsHonest(s) && r in s.calls && s.calls[r].phase.LockSource?
    requires DocumentBusy(s, r, s.calls[r].q.source)
    ensures Meets(s, r, o) && SharesSource(s, r, o)
  {
    if x :| x in s.calls && x != r && s.calls[r].q.source in s.calls[x].staged.accounts {
      o := x;
      StagedSourceHasRival(s, r, o);
    } else {
      o := WrittenSourceHasRival(s, r);
    }
  }

  lemma CommittedKeyHasRival(s: State, r: CallId) returns (o: CallId)
    requires Inv(s) && r in s.calls && s.calls[r].phase.WriteHeader? && UsedKey(s.db.headers, s.calls[r].q.key)
    ensures Meets(s, r, o) && SharesKey(s, r, o)
  {
    var c := s.calls[r];
    assert CallOk(s, r, c);
    var n :| 0 <= n < |s.db.headers| && s.db.headers[n].key == c.q.key;
    LedgerGrows(s, c.snap, |s.log|);
    var k := HeaderOrigin(s, c.snap, |s.log|, n);
    CommitterMet(s, r, k);
    o := s.log[k].call;
  }

  lemma StagedKeyHasRival(s: State, r: CallId) returns (o: CallId)
    requires Inv(s) && r in s.calls && InFlight(s.calls[r].phase) && KeyStaged(s, r, s.calls[r].q.key)
    ensures Meets(s, r, o) && SharesKey(s, r, o)
  {
    o :| o in s.calls && o != r && UsedKey(s.calls[o].staged.headers, s.calls[r].q.key);
    assert CallOk(s, o, s.calls[o]);
  }

  /** A conflict on the key index, of either kind, means that another call uses the same key, and is still
      unanswered or committed after this call's snapshot. */
  lemma BusyKeyHasRival(s: State, r: CallId) returns (o: CallId)
    requires Inv(s) && r in s.calls && s.calls[r].phase.WriteHeader?
    requires KeyStaged(s, r, s.calls[r].q.key) || UsedKey(s.db.headers, s.calls[r].q.key)
    ensures Meets(s, r, o) && SharesKey(s, r, o)
  {
    if KeyStaged(s, r, s.calls[r].q.key) {
      o := StagedKeyHasRival(s, r);
    } else {
      o := CommittedKeyHasRival(s, r);
    }
  }

  /** A call has been aborted by a conflict at least once, or given up after one. */
  predicate WasAborted(c: Call) {
    c.attempts > 1 || (c.phase.Idle? && c.attempts > 0) || c.phase == Done(Refused(WriteConflict))
  }

  lemma StagesOnlyItsSource(s: State, r: CallId)
    requires Inv(s) && r in s.calls
    ensures s.calls[r].staged.accounts.Keys <= {s.calls[r].q.source}
  {
    assert CallOk(s, r, s.calls[r]);
  }

  lemma OpeningStampsHonest(s: State, a: AccountId, document: Account)
    requires StampsHonest(s)
    ensures StampsHonest(Opening(s, a, document))
  {
  }

  lemma ActKeepsStampsHonest(s: State, r: CallId, choice: Choice)
    requires StampsHonest(s) && r in s.calls && s.calls[r].staged.accounts.Keys <= {s.calls[r].q.source}
    ensures StampsHonest(Perform(FULL, s, r, choice))
  {
    if s.calls[r].phase.CommitAll? {
      CommitStampsHonest(s, r, s.calls[r].phase.header);
    } else {
      StepsAreLocal(FULL, s, r, choice);
    }
  }

  lemma StepKeepsStampsHonest(s: State, step: Step)
    requires Inv(s) && StampsHonest(s) && Enabled(s, step)
    ensures StampsHonest(Apply(FULL, s, step))
  {
    match step {
      case Submit(_, _) =>
      case Open(a, document) => OpeningStampsHonest(s, a, document);
      case Act(r, choice) =>
        StagesOnlyItsSource(s, r);
        ActKeepsStampsHonest(s, r, choice);
    }
  }

  lemma CommitStampsHonest(s: State, r: CallId, h: Header)
    requires StampsHonest(s) && r in s.calls && s.calls[r].staged.accounts.Keys <= {s.calls[r].q.source}
    ensures StampsHonest(Commit(s, r, h))
  {
    var s' := Commit(s, r, h);
    forall a | a in s'.stamps
      ensures s'.stamps[a] <= |s'.log| && (s'.stamps[a] > 0 ==> Wrote(s'.log[s'.stamps[a] - 1], a))
    {
      if a !in s.calls[r].staged.accounts {
        assert a in s.stamps && s'.stamps[a] == s.stamps[a];
      }
    }
  }

  lemma {:induction false} RunKeepsStampsHonest(s: State, steps: seq<Step>)
    requires Inv(s) && StampsHonest(s) && Legal(FULL, s, steps)
    ensures StampsHonest(Execute(FULL, s, steps))
    decreases |steps|
  {
    if steps != [] {
      StepKeepsInv(s, steps[0]);
      StepKeepsStampsHonest(s, steps[0]);
      RunKeepsStampsHonest(Apply(FULL, s, steps[0]), steps[1..]);
    }
  }

  lemma UserStaysUser(s: State, steps: seq<Step>, a: AccountId)
    requires Inv(s) && Legal(FULL, s, steps) && IsUser(s.db.accounts, a)
    ensures IsUser(Execute(FULL, s, steps).db.accounts, a)
  {
    RunAdvances(s, steps);
    var s' := Execute(FULL, s, steps);
    assert s'.hist[|s.log|] == s.db;
    AccountsPersist(s', |s.log|, |s'.log|, a);
  }

  /** The steps that abort a call for a retry. */
  lemma AbortCause(s: State, r: CallId, choice: Choice)
    requires r in s.calls && !WasAborted(s.calls[r])
    requires WasAborted(Perform(FULL, s, r, choice).calls[r])
    ensures var c := s.calls[r];
            || (c.phase.LockSource? && DocumentBusy(s, r, c.q.source))
            || (c.phase.WriteHeader? && (KeyStaged(s, r, c.q.key) || UsedKey(s.db.headers, c.q.key)))
            || (c.phase.WriteEntries? && EntriesStaged(s, r, c.phase.header))
  {
    match s.calls[r].phase {
      case Idle =>
      case CheckKey =>
      case LoadAccounts =>
      case LockSource =>
      case CheckBalance =>
      case WriteHeader =>
      case WriteEntries(h) =>
      case CommitAll(h) =>
      case Done(_) =>
    }
  }

  /** A step that leaves a call aborted, which was not before, has a rival to blame: a call that shares its
      USER source or its key, and is still unanswered or committed after this call's snapshot. */
  lemma {:induction false} NewAbortHasRival(s: State, r: CallId, choice: Choice) returns (o: CallId)
    requires Inv(s) && StampsHonest(s) && Enabled(s, Act(r, choice))
    requires !WasAborted(s.calls[r]) && WasAborted(Perform(FULL, s, r, choice).calls[r])
    ensures Meets(s, r, o) && Shares(s, r, o)
  {
    AbortCause(s, r, choice);
    if s.calls[r].phase.LockSource? {
      o := BusySourceHasRival(s, r);
    } else if s.calls[r].phase.WriteHeader? {
      o := BusyKeyHasRival(s, r);
    } else {
      EntryIndexNeverFires(s, r);
    }
  }

  /** A step changes the abort status of no call but the one that takes it. */
  lemma OnlyActorAborts(s: State, step: Step, r: CallId)
    requires Enabled(s, step)
    requires r in Apply(FULL, s, step).calls && WasAborted(Apply(FULL, s, step).calls[r])
    ensures r in s.calls && (WasAborted(s.calls[r]) || (step.Act? && step.r == r))
  {
    if step.Act? && !s.calls[step.r].phase.CommitAll? {
      StepsAreLocal(FULL, s, step.r, step.choice);
    }
  }

  // ----- Over whole runs: concurrent calls -----

  /** At the end of this run both calls are unanswered. */
  ghost predicate BothPending(db: Db, steps: seq<Step>, r: CallId, o: CallId) {
    Run(db, steps) && Pending(Final(db, steps), r) && Pending(Final(db, steps), o)
  }

  /** Two calls are concurrent if at some point of the run both are unanswered. */
  ghost predicate Concurrent(db: Db, steps: seq<Step>, r: CallId, o: CallId) {
    exists n :: 0 <= n <= |steps| && BothPending(db, steps[..n], r, o)
  }

  lemma RunPrefix(db: Db, steps: seq<Step>, n: nat)
    requires Run(db, steps) && n <= |steps|
    ensures Run(db, steps[..n])
    ensures Inv(Final(db, steps[..n])) && Advances(Final(db, steps[..n]), Final(db, steps))
    ensures Legal(FULL, Final(db, steps[..n]), steps[n..])
    ensures Execute(FULL, Final(db, steps[..n]), steps[n..]) == Final(db, steps)
  {
    assert steps == steps[..n] + steps[n..];
    ExecuteSplit(FULL, Start(db), steps[..n], steps[n..]);
    ReachableInv(db, steps[..n]);
    RunAdvances(Final(db, steps[..n]), steps[n..]);
  }

  lemma LastStep(db: Db, steps: seq<Step>)
    requires Run(db, steps) && steps != []
    ensures var n := |steps| - 1;
            && Run(db, steps[..n]) && Enabled(Final(db, steps[..n]), steps[n])
            && Final(db, steps) == Apply(FULL, Final(db, steps[..n]), steps[n])
  {
    var n := |steps| - 1;
    RunPrefix(db, steps, n);
    assert steps[n..] == [steps[n]];
    assert steps[n..][1..] == [];
  }

  lemma OnlyCommitsLog(s: State, step: Step)
    requires Enabled(s, step)
    ensures var log' := Apply(FULL, s, step).log;
            log' == s.log
            || (|log'| == |s.log| + 1
                && (log'[|s.log|].Transferred? ==>
                      step.Act? && step.r == log'[|s.log|].call && Pending(s, step.r)
                      && Apply(FULL, s, step).calls.Keys == s.calls.Keys))
  {
    if step.Act? && !s.calls[step.r].phase.CommitAll? {
      StepsAreLocal(FULL, s, step.r, step.choice);
    }
  }

  /** Step n of the run is the commit of call o that appends to the log at position k. */
  ghost predicate CommitsAt(db: Db, steps: seq<Step>, n: nat, k: nat, o: CallId) {
    && n < |steps| && Run(db, steps[..n]) && Run(db, steps[..n + 1])
    && |Final(db, steps[..n + 1]).log| == k + 1
    && Pending(Final(db, steps[..n]), o)
    && Final(db, steps[..n + 1]).calls.Keys == Final(db, steps[..n]).calls.Keys
  }

  lemma LastStepCommits(db: Db, steps: seq<Step>, k: nat)
    requires Run(db, steps) && steps != [] && Run(db, steps[..|steps| - 1])
    requires |Final(db, steps[..|steps| - 1]).log| <= k < |Final(db, steps).log|
    requires Final(db, steps).log[k].Transferred?
    ensures CommitsAt(db, steps, |steps| - 1, k, Final(db, steps).log[k].call)
  {
    LastStep(db, steps);
    OnlyCommitsLog(Final(db, steps[..|steps| - 1]), steps[|steps| - 1]);
    assert steps[..|steps|] == steps;
  }

  lemma CommitsAtInPrefix(db: Db, steps: seq<Step>, m: nat, n: nat, k: nat, o: CallId)
    requires m <= |steps| && CommitsAt(db, steps[..m], n, k, o)
    ensures CommitsAt(db, steps, n, k, o)
  {
    assert steps[..m][..n] == steps[..n] && steps[..m][..n + 1] == steps[..n + 1];
  }

  /** Every commit in the log was made by one step of the run, by a call that was unanswered until then. */
  lemma {:induction false} CommitMoment(db: Db, steps: seq<Step>, k: nat) returns (n: nat)
    requires Run(db, steps) && k < |Final(db, steps).log| && Final(db, steps).log[k].Transferred?
    ensures CommitsAt(db, steps, n, k, Final(db, steps).log[k].call)
    decreases |steps|
  {
    var m := |steps| - 1;
    RunPrefix(db, steps, m);
    if k < |Final(db, steps[..m]).log| {
      n := CommitMoment(db, steps[..m], k);
      CommitsAtInPrefix(db, steps, m, n, k, Final(db, steps).log[k].call);
    } else {
      n := m;
      LastStepCommits(db, steps, k);
    }
  }

  /** A call that is unanswered now, and was submitted before a later version, was unanswered when that version
      was about to be committed. */
  lemma PendingBefore(db: Db, steps: seq<Step>, n: nat, k: nat, o: CallId, r: CallId)
    requires Run(db, steps) && CommitsAt(db, steps, n, k, o)
    requires Pending(Final(db, steps), r) && Final(db, steps).calls[r].since <= k
    ensures Pending(Final(db, steps[..n]), r)
  {
    RunPrefix(db, steps, n + 1);
    RunPrefix(db, steps, n);
    assert r in Final(db, steps[..n + 1]).calls;
    assert Continues(Final(db, steps[..n]).calls[r], |Final(db, steps[..n]).log|,
                     Final(db, steps).calls[r], |Final(db, steps).log|);
  }

  lemma CommitterIsConcurrent(db: Db, steps: seq<Step>, r: CallId, k: nat)
    requires Run(db, steps) && Pending(Final(db, steps), r)
    requires Final(db, steps).calls[r].since <= k < |Final(db, steps).log| && Final(db, steps).log[k].Transferred?
    ensures Concurrent(db, steps, r, Final(db, steps).log[k].call)
  {
    var o := Final(db, steps).log[k].call;
    var n := CommitMoment(db, steps, k);
    PendingBefore(db, steps, n, k, o, r);
    assert BothPending(db, steps[..n], r, o);
  }

  lemma WhenTheyMet(s: State, r: CallId, o: CallId)
    requires Inv(s) && Meets(s, r, o)
    ensures Pending(s, r)
    ensures Pending(s, o)
            || (s.calls[r].since <= s.calls[o].point < |s.log| && CommitOf(s.log[s.calls[o].point], o))
  {
    assert CallOk(s, r, s.calls[r]) && CallOk(s, o, s.calls[o]);
  }

  /** Calls whose transactions overlap are concurrent. */
  lemma MeetingIsConcurrent(db: Db, steps: seq<Step>, r: CallId, o: CallId)
    requires Run(db, steps) && Meets(Final(db, steps), r, o)
    ensures Concurrent(db, steps, r, o)
  {
    var s := Final(db, steps);
    ReachableInv(db, steps);
    WhenTheyMet(s, r, o);
    if Pending(s, o) {
      assert steps[..|steps|] == steps;
    } else {
      CommitterIsConcurrent(db, steps, r, s.calls[o].point);
    }
  }

  lemma ConcurrentStays(db: Db, steps: seq<Step>, n: nat, r: CallId, o: CallId)
    requires n <= |steps| && Concurrent(db, steps[..n], r, o)
    ensures Concurrent(db, steps, r, o)
  {
    var i :| 0 <= i <= n && BothPending(db, steps[..n][..i], r, o);
    assert steps[..n][..i] == steps[..i];
  }

  lemma SharingStays(db: Db, steps: seq<Step>, n: nat, r: CallId, o: CallId)
    requires Run(db, steps) && n <= |steps| && Run(db, steps[..n])
    requires var s := Final(db, steps[..n]); r in s.calls && o in s.calls && Shares(s, r, o)
    ensures var s' := Final(db, steps); r in s'.calls && o in s'.calls && Shares(s', r, o)
  {
    RunPrefix(db, steps, n);
    var s, s' := Final(db, steps[..n]), Final(db, steps);
    assert Continues(s.calls[r], |s.log|, s'.calls[r], |s'.log|);
    assert Continues(s.calls[o], |s.log|, s'.calls[o], |s'.log|);
    if IsUser(s.db.accounts, s.calls[r].q.source) {
      UserStaysUser(s, steps[n..], s.calls[r].q.source);
    }
  }

  /** Every call that was aborted, however long ago, has a rival that shares its USER source or its key, and
      was concurrent with it. */
  lemma {:induction false} AbortedHasConcurrentRival(db: Db, steps: seq<Step>, r: CallId) returns (o: CallId)
    requires Run(db, steps) && r in Final(db, steps).calls && WasAborted(Final(db, steps).calls[r])
    ensures o in Final(db, steps).calls && o != r
    ensures Concurrent(db, steps, r, o) && Shares(Final(db, steps), r, o)
    decreases |steps|
  {
    var n := |steps| - 1;
    LastStep(db, steps);
    var before := Final(db, steps[..n]);
    OnlyActorAborts(before, steps[n], r);
    if WasAborted(before.calls[r]) {
      o := AbortedHasConcurrentRival(db, steps[..n], r);
    } else {
      StartInv(db);
      RunKeepsStampsHonest(Start(db), steps[..n]);
      ReachableInv(db, steps[..n]);
      o := NewAbortHasRival(before, r, steps[n].choice);
      MeetingIsConcurrent(db, steps[..n], r, o);
    }
    ConcurrentStays(db, steps, n, r, o);
    SharingStays(db, steps, n, r, o);
  }

  /** A call that shares neither its USER source nor its key with any concurrent call is never aborted: whatever
      else runs, before, beside or after it, it never gives up, and if it opens a transaction at all it finishes
      in that one attempt. */
  lemma NoSharingNoRetry(db: Db, steps: seq<Step>, r: CallId)
    requires Run(db, steps) && r in Final(db, steps).calls
    requires forall o | o in Final(db, steps).calls && o != r && Concurrent(db, steps, r, o) ::
               !Shares(Final(db, steps), r, o)
    ensures Final(db, steps).calls[r].attempts <= 1
    ensures Final(db, steps).calls[r].phase != Done(Refused(WriteConflict))
    ensures Succeeded(Final(db, steps), r) ==> Final(db, steps).calls[r].phase.outcome.attempts == 1
  {
    ReachableInv(db, steps);
    assert CallOk(Final(db, steps), r, Final(db, steps).calls[r]);
    if WasAborted(Final(db, steps).calls[r]) {
      var o := AbortedHasConcurrentRival(db, steps, r);
    }
  }
}
