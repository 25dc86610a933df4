// Safety of every run of the full protocol, from any sound ledger and under every interleaving.
module Guarantees {
  import opened Domain
  import opened Specification
  import opened Protocol
  import opened Invariant

  /** The state that a legal schedule reaches from a sound ledger. */
  ghost predicate Run(db: Db, steps: seq<Step>) {
    Sound(db) && Legal(FULL, Start(db), steps)
  }

  function Final(db: Db, steps: seq<Step>): State
    requires Legal(FULL, Start(db), steps)
  {
    Execute(FULL, Start(db), steps)
  }

  predicate Succeeded(s: State, r: CallId) {
    r in s.calls && s.calls[r].phase.Done? && s.calls[r].phase.outcome.Committed?
  }

  predicate Pending(s: State, r: CallId) {
    r in s.calls && !s.calls[r].phase.Done?
  }

  // ----- No overdraft -----

  /** In every version that any run commits, every USER account's balance is at least zero. */
  lemma NoRunOverdraws(db: Db, steps: seq<Step>, i: nat, a: AccountId)
    requires Run(db, steps) && i < |Final(db, steps).hist|
    requires IsUser(Final(db, steps).hist[i].accounts, a)
    ensures Balance(Final(db, steps).hist[i].entries, a) >= 0
  {
    ReachableInv(db, steps);
    VersionIsSound(Final(db, steps), i);
  }

  // ----- Accounts opened during a run -----

  /** At any point of a run an account can be opened as create_account does, for any owner and currency, and a
      SYSTEM account as provisioning does exactly if its currency has none. */
  lemma AccountsCanBeOpened(s: State, a: AccountId, owner: UserId, c: Currency)
    requires a !in s.db.accounts
    ensures Enabled(s, Open(a, Account(Some(owner), USER, c, ACTIVE, None)))
    ensures Enabled(s, Open(a, Account(None, SYSTEM, c, ACTIVE, None))) <==> !HasSystemAccount(s.db.accounts, c)
  {
  }

  // ----- Accounts that are not ACTIVE -----

  lemma InactiveIsUntouched(s: State, i: nat, k: nat, a: AccountId)
    requires Chained(s) && i <= k < |s.log|
    requires a in s.hist[i].accounts && s.hist[i].accounts[a].status != ACTIVE && s.log[k].Transferred?
    ensures s.log[k].q.source != a && s.log[k].q.destination != a
  {
    AccountsPersist(s, i, k, a);
    assert FollowsAt(s, k);
    ValidationIsExact(s.hist[k].accounts, s.log[k].q);
  }

  lemma {:induction false} UntouchedKeepsBalance(s: State, i: nat, j: nat, a: AccountId)
    requires Chained(s) && i <= j <= |s.log|
    requires forall k | i <= k < j && s.log[k].Transferred? :: s.log[k].q.source != a && s.log[k].q.destination != a
    ensures Balance(s.hist[j].entries, a) == Balance(s.hist[i].entries, a)
    decreases j
  {
    if i < j {
      UntouchedKeepsBalance(s, i, j - 1, a);
      assert FollowsAt(s, j - 1);
      var ev := s.log[j - 1];
      if ev.Transferred? {
        BalanceOfPair(s.hist[j - 1].entries, HeaderFor(ev.q, ev.id), a);
      }
    }
  }

  /** From the version on in which an account is FROZEN or CLOSED, no transfer into or out of it commits, and its
      balance stays what it is. */
  lemma InactiveAccountStaysPut(db: Db, steps: seq<Step>, i: nat, j: nat, a: AccountId)
    requires Run(db, steps) && i <= j < |Final(db, steps).hist|
    requires var accounts := Final(db, steps).hist[i].accounts; a in accounts && accounts[a].status != ACTIVE
    ensures var s := Final(db, steps);
            && Balance(s.hist[j].entries, a) == Balance(s.hist[i].entries, a)
            && forall k | i <= k < |s.log| && s.log[k].Transferred? ::
                 s.log[k].q.source != a && s.log[k].q.destination != a
  {
    var s := Final(db, steps);
    ReachableInv(db, steps);
    forall k | i <= k < |s.log| && s.log[k].Transferred?
      ensures s.log[k].q.source != a && s.log[k].q.destination != a
    {
      InactiveIsUntouched(s, i, k, a);
    }
    UntouchedKeepsBalance(s, i, j, a);
  }

  // ----- Refinement of the sequential ledger -----

  /** A sequence of operations executed one after the other, each alone. */
  function Replay(db: Db, log: seq<Event>): Db {
    if log == [] then db
    else
      var before := Replay(db, log[..|log| - 1]);
      match log[|log| - 1]
      case Transferred(_, q, id) => AtomicTransfer(before, q, id)
      case Opened(a, document) => OpenAccount(before, a, document)
  }

  /** Each operation is legal at the point where the sequential ledger executes it. */
  ghost predicate Replayable(db: Db, log: seq<Event>) {
    forall i | 0 <= i < |log| ::
      match log[i]
      case Transferred(_, q, id) =>
        Decide(Replay(db, log[..i]), q) == Accept && !UsedId(Replay(db, log[..i]).headers, id)
      case Opened(a, document) => Openable(Replay(db, log[..i]), a, document)
  }

  lemma {:induction false} VersionsReplay(s: State, i: nat)
    requires Chained(s) && i <= |s.log|
    ensures s.hist[i] == Replay(s.hist[0], s.log[..i])
  {
    if i > 0 {
      VersionsReplay(s, i - 1);
      assert FollowsAt(s, i - 1);
      assert s.log[..i][..i - 1] == s.log[..i - 1];
    }
  }

  lemma StartsFrom(s: State, steps: seq<Step>)
    requires Inv(s) && Legal(FULL, s, steps)
    ensures Inv(Execute(FULL, s, steps)) && Execute(FULL, s, steps).hist[0] == s.hist[0]
  {
    RunAdvances(s, steps);
  }

  /** The committed database is what the sequential ledger makes of the successful operations in commit
      order, each of them legal at its commit point; and the successful operations are, one to one, the
      calls that answered with success. */
  lemma {:induction false} RefinesSequentialLedger(db: Db, steps: seq<Step>)
    requires Run(db, steps)
    ensures var s := Final(db, steps);
            && s.db == Replay(db, s.log)
            && Replayable(db, s.log)
    ensures var s := Final(db, steps);
            forall i | 0 <= i < |s.log| && s.log[i].Transferred? ::
              var r := s.log[i].call;
              r in s.calls && s.calls[r].q == s.log[i].q
              && s.calls[r].phase == Done(Committed(HeaderFor(s.log[i].q, s.log[i].id), s.calls[r].attempts))
    ensures var s := Final(db, steps);
            forall r | Succeeded(s, r) ::
              exists i :: 0 <= i < |s.log| && CommitOf(s.log[i], r)
                          && forall j | 0 <= j < |s.log| && CommitOf(s.log[j], r) :: j == i
  {
    var s := Final(db, steps);
    StartInv(db);
    StartsFrom(Start(db), steps);
    VersionsReplay(s, |s.log|);
    assert s.log[..|s.log|] == s.log;
    forall i | 0 <= i < |s.log|
      ensures s.hist[i] == Replay(db, s.log[..i]) && FollowsAt(s, i)
    {
      VersionsReplay(s, i);
    }
    forall i | 0 <= i < |s.log| && s.log[i].Transferred?
      ensures var r := s.log[i].call;
              r in s.calls && s.calls[r].q == s.log[i].q
              && s.calls[r].phase == Done(Committed(HeaderFor(s.log[i].q, s.log[i].id), s.calls[r].attempts))
    {
      assert CallOk(s, s.log[i].call, s.calls[s.log[i].call]);
    }
    forall r | Succeeded(s, r)
      ensures exists i :: 0 <= i < |s.log| && CommitOf(s.log[i], r)
                          && forall j | 0 <= j < |s.log| && CommitOf(s.log[j], r) :: j == i
    {
      assert CallOk(s, r, s.calls[r]);
      assert CommitOf(s.log[s.calls[r].point], r);
    }
  }

  predicate CommitOf(ev: Event, r: CallId) {
    ev.Transferred? && ev.call == r
  }

  // ----- Time: what later states keep of earlier ones -----

  /** The oldest version on which a call's answer can still depend, or does. */
  function Floor(c: Call, now: nat): nat {
    if c.phase.Done? then c.point else if c.phase.Idle? then now else c.snap
  }

  predicate Continues(c: Call, before: nat, c': Call, after: nat) {
    && c'.q == c.q && c'.since == c.since && c'.attempts >= c.attempts
    && (c.phase.Done? ==> c' == c)
    && Floor(c, before) <= Floor(c', after)
  }

  /** Versions and the log only grow, calls stay, answers are final, and new calls are as new as they look. */
  ghost predicate Advances(s: State, s': State) {
    && s.hist <= s'.hist && s.log <= s'.log
    && (forall r | r in s.calls :: r in s'.calls && Continues(s.calls[r], |s.log|, s'.calls[r], |s'.log|))
    && (forall r | r in s'.calls && r !in s.calls :: s'.calls[r].since >= |s.log|)
  }

  lemma QuietContinues(s: State, r: CallId, choice: Choice)
    requires r in s.calls && !s.calls[r].phase.CommitAll? && SnapshotPast(s, s.calls[r])
    ensures var s' := Perform(FULL, s, r, choice);
            Continues(s.calls[r], |s.log|, s'.calls[r], |s.log|)
  {
    match s.calls[r].phase {
      case Idle =>
      case CheckKey =>
      case LoadAccounts =>
      case LockSource =>
      case CheckBalance =>
      case WriteHeader =>
      case WriteEntries(h) =>
      case Done(_) =>
    }
  }

  predicate SnapshotPast(s: State, c: Call) {
    InFlight(c.phase) ==> c.snap <= |s.log|
  }

  lemma UnchangedCallsContinue(s: State, s': State, r: CallId)
    requires r in s.calls && r in s'.calls && s'.calls[r] == s.calls[r] && |s.log| <= |s'.log|
    requires SnapshotPast(s, s.calls[r])
    ensures Continues(s.calls[r], |s.log|, s'.calls[r], |s'.log|)
  {
  }

  lemma CommitContinues(s: State, r: CallId, h: Header)
    requires r in s.calls && s.calls[r].phase == CommitAll(h) && SnapshotPast(s, s.calls[r])
    ensures Continues(s.calls[r], |s.log|, Commit(s, r, h).calls[r], |s.log| + 1)
  {
  }

  lemma ActContinues(s: State, r: CallId, choice: Choice)
    requires Enabled(s, Act(r, choice)) && SnapshotPast(s, s.calls[r])
    ensures var s' := Perform(FULL, s, r, choice);
            && (forall o | o in s.calls && o != r :: o in s'.calls && s'.calls[o] == s.calls[o])
            && s'.calls.Keys == s.calls.Keys && s.hist <= s'.hist && s.log <= s'.log
            && Continues(s.calls[r], |s.log|, s'.calls[r], |s'.log|)
  {
    if s.calls[r].phase.CommitAll? {
      CommitContinues(s, r, s.calls[r].phase.header);
    } else {
      StepsAreLocal(FULL, s, r, choice);
      QuietContinues(s, r, choice);
    }
  }

  lemma StepAdvances(s: State, step: Step)
    requires Inv(s) && Enabled(s, step)
    ensures Advances(s, Apply(FULL, s, step))
  {
    var s' := Apply(FULL, s, step);
    forall r | r in s.calls
      ensures SnapshotPast(s, s.calls[r])
    {
      assert CallOk(s, r, s.calls[r]);
    }
    if step.Act? {
      ActContinues(s, step.r, step.choice);
    }
    forall r | r in s.calls
      ensures r in s'.calls && Continues(s.calls[r], |s.log|, s'.calls[r], |s'.log|)
    {
      if !(step.Act? && step.r == r) {
        UnchangedCallsContinue(s, s', r);
      }
    }
  }

  lemma AdvancesTransitive(s: State, s': State, s'': State)
    requires Advances(s, s') && Advances(s', s'')
    ensures Advances(s, s'')
  {
  }

  lemma {:induction false} RunAdvances(s: State, steps: seq<Step>)
    requires Inv(s) && Legal(FULL, s, steps)
    ensures Inv(Execute(FULL, s, steps)) && Advances(s, Execute(FULL, s, steps))
    decreases |steps|
  {
    if steps != [] {
      var s1 := Apply(FULL, s, steps[0]);
      StepKeepsInv(s, steps[0]);
      StepAdvances(s, steps[0]);
      RunAdvances(s1, steps[1..]);
      AdvancesTransitive(s, s1, Execute(FULL, s1, steps[1..]));
    }
  }

  // ----- Linearizability -----

  /** The answer of a call is the one the sequential ledger gives at version i; success also produced
      version i + 1 by the atomic transfer. */
  ghost predicate AnswersAt(s: State, r: CallId, i: nat)
    requires Chained(s) && r in s.calls && s.calls[r].phase.Done? && i <= |s.log|
  {
    var c := s.calls[r];
    match c.phase.outcome
    case Refused(e) => Decide(s.hist[i], c.q) == Reject(e)
    case Committed(h, n) =>
      && i < |s.log| && CommitOf(s.log[i], r)
      && Decide(s.hist[i], c.q) == Accept
      && s.hist[i + 1] == AtomicTransfer(s.hist[i], c.q, h.id)
      && h == HeaderFor(c.q, h.id)
  }

  /** Every call that is submitted and answered between two states of a run, other than by giving up on
      contention, is answered as the sequential ledger answers at one instant between the two. */
  lemma Linearizable(s: State, steps: seq<Step>, r: CallId)
    requires Inv(s) && Legal(FULL, s, steps)
    requires var s' := Execute(FULL, s, steps);
             r !in s.calls && r in s'.calls && s'.calls[r].phase.Done?
             && s'.calls[r].phase.outcome != Refused(WriteConflict)
    ensures var s' := Execute(FULL, s, steps);
            Chained(s') && exists i :: |s.log| <= i <= |s'.log| && AnswersAt(s', r, i)
  {
    var s' := Execute(FULL, s, steps);
    RunAdvances(s, steps);
    AnsweredAtPoint(s', r);
  }

  lemma AnsweredAtPoint(s: State, r: CallId)
    requires Inv(s) && r in s.calls && s.calls[r].phase.Done? && s.calls[r].phase.outcome != Refused(WriteConflict)
    ensures s.calls[r].since <= s.calls[r].point <= |s.log| && AnswersAt(s, r, s.calls[r].point)
  {
    var c := s.calls[r];
    assert CallOk(s, r, c);
    if c.phase.outcome.Committed? {
      assert FollowsAt(s, c.point);
    }
  }

  // ----- Exactly once -----

  lemma CommittedHeaderIsStored(s: State, r: CallId)
    requires Inv(s) && Succeeded(s, r)
    ensures var n := |s.hist[s.calls[r].point].headers|;
            && s.calls[r].point <= |s.log|
            && n < |s.db.headers| && s.db.headers[n] == s.calls[r].phase.outcome.header
    ensures s.calls[r].phase.outcome.header.key == s.calls[r].q.key
  {
    var c := s.calls[r];
    assert CallOk(s, r, c);
    AnsweredAtPoint(s, r);
    LedgerGrows(s, c.point + 1, |s.log|);
  }

  /** Each idempotency key has at most one committed header, and at most one call answers it with success. */
  lemma ExactlyOnce(db: Db, steps: seq<Step>, r: CallId, o: CallId)
    requires Run(db, steps)
    ensures UniqueKeysAndIds(Final(db, steps).db.headers)
    ensures var s := Final(db, steps);
            Succeeded(s, r) && Succeeded(s, o) && s.calls[r].q.key == s.calls[o].q.key ==> r == o
  {
    var s := Final(db, steps);
    ReachableInv(db, steps);
    VersionIsSound(s, |s.log|);
    if Succeeded(s, r) && Succeeded(s, o) && s.calls[r].q.key == s.calls[o].q.key {
      OneCommitPerKey(s, r, o);
    }
  }

  /** A later commit finds more headers. */
  lemma CommitsGrow(s: State, i: nat, j: nat)
    requires Chained(s) && i < j < |s.log| && s.log[i].Transferred?
    ensures |s.hist[i].headers| < |s.hist[j].headers|
  {
    assert FollowsAt(s, i);
    LedgerGrows(s, i + 1, j);
  }

  lemma OneCommitPerKey(s: State, r: CallId, o: CallId)
    requires Inv(s) && UniqueKeysAndIds(s.db.headers) && Succeeded(s, r) && Succeeded(s, o)
    requires s.calls[r].q.key == s.calls[o].q.key
    ensures r == o
  {
    CommittedHeaderIsStored(s, r);
    CommittedHeaderIsStored(s, o);
    AnsweredAtPoint(s, r);
    AnsweredAtPoint(s, o);
    var i, j := s.calls[r].point, s.calls[o].point;
    if i < j {
      CommitsGrow(s, i, j);
    } else if j < i {
      CommitsGrow(s, j, i);
    }
  }

  /** Whenever a call answers DUPLICATE_SUBMISSION, a header with its key is committed. */
  lemma DuplicateIsSound(db: Db, steps: seq<Step>, r: CallId)
    requires Run(db, steps)
    requires r in Final(db, steps).calls && Final(db, steps).calls[r].phase == Done(Refused(DuplicateSubmission))
    ensures UsedKey(Final(db, steps).db.headers, Final(db, steps).calls[r].q.key)
  {
    var s := Final(db, steps);
    ReachableInv(db, steps);
    AnsweredAtPoint(s, r);
    var c := s.calls[r];
    var invalid := Validate(s.hist[c.point].accounts, c.q);
    assert UsedKey(s.hist[c.point].headers, c.q.key);
    LedgerGrows(s, c.point, |s.log|);
    var i :| 0 <= i < |s.hist[c.point].headers| && s.hist[c.point].headers[i].key == c.q.key;
    assert s.db.headers[i].key == c.q.key;
  }

  // ----- All or nothing -----

  /** An abort leaves nothing behind: a call that waits for a retry or has its answer holds no staged write. */
  lemma AbortDiscardsAll(s: State, r: CallId)
    requires Inv(s) && r in s.calls && (s.calls[r].phase.Idle? || s.calls[r].phase.Done?)
    ensures s.calls[r].staged == NOTHING
  {
    assert CallOk(s, r, s.calls[r]);
  }

  /** Only a commit and the opening of an account change the committed state; every other step, aborts
      included, changes nothing but the call that takes it. */
  lemma OnlyCommitsPublish(s: State, r: CallId, choice: Choice)
    requires Enabled(s, Act(r, choice)) && !s.calls[r].phase.CommitAll?
    ensures var s' := Apply(FULL, s, Act(r, choice));
            && s'.db == s.db && s'.stamps == s.stamps && s'.hist == s.hist && s'.log == s.log
            && s'.calls.Keys == s.calls.Keys
            && (forall o | o in s.calls && o != r :: s'.calls[o] == s.calls[o])
  {
    StepsAreLocal(FULL, s, r, choice);
  }

  /** This step runs the transaction callback of call r. */
  predicate RunsCallback(s: State, step: Step, r: CallId) {
    && step.Act? && step.r == r && r in s.calls && s.calls[r].phase.Idle?
    && !(step.choice.giveUp && s.calls[r].attempts > 0)
  }

  /** The number of times a schedule runs the transaction callback of a call. */
  function CallbackRuns(s: State, steps: seq<Step>, r: CallId): nat
    requires Legal(FULL, s, steps)
    decreases |steps|
  {
    if steps == [] then 0
    else
      (if RunsCallback(s, steps[0], r) then 1 else 0) + CallbackRuns(Apply(FULL, s, steps[0]), steps[1..], r)
  }

  function AttemptsOf(s: State, r: CallId): nat {
    if r in s.calls then s.calls[r].attempts else 0
  }

  /** Only the opening of a transaction counts an attempt. */
  lemma ActCountsAttempt(s: State, r: CallId, choice: Choice)
    requires r in s.calls
    ensures Perform(FULL, s, r, choice).calls[r].attempts
         == s.calls[r].attempts
            + if s.calls[r].phase.Idle? && !(choice.giveUp && s.calls[r].attempts > 0) then 1 else 0
  {
    match s.calls[r].phase {
      case Idle =>
      case CheckKey =>
      case LoadAccounts =>
      case LockSource =>
      case CheckBalance =>
      case WriteHeader =>
      case WriteEntries(h) =>
      case CommitAll(h) =>
      case Done(_) =>
    }
  }

  lemma StepCountsAttempt(s: State, step: Step, r: CallId)
    requires Enabled(s, step)
    ensures AttemptsOf(Apply(FULL, s, step), r) == AttemptsOf(s, r) + if RunsCallback(s, step, r) then 1 else 0
  {
    if step.Act? {
      if step.r == r {
        ActCountsAttempt(s, r, step.choice);
      } else if !s.calls[step.r].phase.CommitAll? {
        StepsAreLocal(FULL, s, step.r, step.choice);
      }
    }
  }

  lemma {:induction false} AttemptsCountCallbackRuns(s: State, steps: seq<Step>, r: CallId)
    requires Legal(FULL, s, steps)
    ensures AttemptsOf(Execute(FULL, s, steps), r) == AttemptsOf(s, r) + CallbackRuns(s, steps, r)
    decreases |steps|
  {
    if steps != [] {
      StepCountsAttempt(s, steps[0], r);
      AttemptsCountCallbackRuns(Apply(FULL, s, steps[0]), steps[1..], r);
    }
  }

  /** However many attempts were aborted: a call that raises contributes no commit, and one that returns
      contributes exactly one, with `attempts` equal to the number of callback runs. */
  lemma AllOrNothing(db: Db, steps: seq<Step>, r: CallId)
    requires Run(db, steps) && r in Final(db, steps).calls && Final(db, steps).calls[r].phase.Done?
    ensures var s := Final(db, steps);
            match s.calls[r].phase.outcome
            case Refused(_) => forall i | 0 <= i < |s.log| :: !CommitOf(s.log[i], r)
            case Committed(h, n) =>
              && n == CallbackRuns(Start(db), steps, r)
              && exists i :: 0 <= i < |s.log| && s.log[i] == Transferred(r, s.calls[r].q, h.id)
                             && forall j | 0 <= j < |s.log| && CommitOf(s.log[j], r) :: j == i
  {
    var s := Final(db, steps);
    ReachableInv(db, steps);
    assert CallOk(s, r, s.calls[r]);
    AttemptsCountCallbackRuns(Start(db), steps, r);
    if s.calls[r].phase.outcome.Committed? {
      assert s.log[s.calls[r].point] == Transferred(r, s.calls[r].q, s.calls[r].phase.outcome.header.id);
    }
  }

  // ----- Shape of the ledger over a run -----

  lemma {:induction false} PairsAt(headers: seq<Header>, i: nat)
    requires i < |headers|
    ensures |Pairs(headers)| == 2 * |headers|
    ensures Pairs(headers)[2 * i] == DebitFor(headers[i]) && Pairs(headers)[2 * i + 1] == CreditFor(headers[i])
  {
    var n := |headers| - 1;
    if n == 0 {
      assert Pairs(headers[..0]) == [];
    } else {
      PairsAt(headers[..n], if i < n then i else n - 1);
    }
  }

  lemma {:induction false} PairsLength(headers: seq<Header>)
    ensures |Pairs(headers)| == 2 * |headers|
  {
    if headers != [] {
      PairsLength(headers[..|headers| - 1]);
    }
  }

  /** In every version: header i owns the entries 2i and 2i + 1 and no others; they are one DEBIT on its source
      and one CREDIT on its destination with its amount and currency, and pass the collection validator. */
  lemma DoubleEntry(db: Db, steps: seq<Step>, v: nat, i: nat)
    requires Run(db, steps) && v < |Final(db, steps).hist| && i < |Final(db, steps).hist[v].headers|
    ensures var ledger := Final(db, steps).hist[v]; var h := ledger.headers[i];
            && |ledger.entries| == 2 * |ledger.headers|
            && ledger.entries[2 * i] == Entry(h.id, h.source, DEBIT, h.amount, -h.amount, h.currency)
            && ledger.entries[2 * i + 1] == Entry(h.id, h.destination, CREDIT, h.amount, h.amount, h.currency)
            && EntryAdmitted(ledger.entries[2 * i]) && EntryAdmitted(ledger.entries[2 * i + 1])
            && forall k | 0 <= k < |ledger.entries| :: ledger.entries[k].transaction == h.id <==> k / 2 == i
  {
    var s := Final(db, steps);
    ReachableInv(db, steps);
    VersionIsSound(s, v);
    var ledger := s.hist[v];
    PairsAt(ledger.headers, i);
    assert Fits(ledger.accounts, ledger.headers[i]);
    forall k | 0 <= k < |ledger.entries|
      ensures ledger.entries[k].transaction == ledger.headers[i].id <==> k / 2 == i
    {
      PairsAt(ledger.headers, k / 2);
      assert k == 2 * (k / 2) || k == 2 * (k / 2) + 1;
      if k / 2 < i {
        assert ledger.headers[k / 2].id != ledger.headers[i].id;
      } else if k / 2 > i {
        assert ledger.headers[i].id != ledger.headers[k / 2].id;
      }
    }
  }

  /** Committed headers and entries are never changed or removed: earlier ones are a prefix of later ones. */
  lemma LedgerIsAppendOnly(s: State, steps: seq<Step>)
    requires Inv(s) && Legal(FULL, s, steps)
    ensures s.db.headers <= Execute(FULL, s, steps).db.headers
    ensures s.db.entries <= Execute(FULL, s, steps).db.entries
  {
    RunAdvances(s, steps);
    var s' := Execute(FULL, s, steps);
    assert s'.hist[|s.log|] == s.db;
    LedgerGrows(s', |s.log|, |s'.log|);
  }

  /** The serialisation counter of a USER account is the number of committed transfers out of it, and no
      SYSTEM account ever acquires one. */
  lemma CounterCountsCommittedDebits(db: Db, steps: seq<Step>, a: AccountId)
    requires Run(db, steps) && a in Final(db, steps).db.accounts
    ensures var now := Final(db, steps).db;
            now.accounts[a].counter
            == if now.accounts[a].kind == USER && DebitCount(now.headers, a) > 0
               then Some(DebitCount(now.headers, a)) else None
  {
    ReachableInv(db, steps);
    VersionIsSound(Final(db, steps), |Final(db, steps).log|);
  }
}
