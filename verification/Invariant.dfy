// What every interleaving of the full protocol keeps. The central fact is CommitIsAtomic: when a
// transaction commits, the sequential specification accepts its request at the current version, although
// everything was checked on an older snapshot.
module Invariant {
  import opened Domain
  import opened Specification
  import opened Protocol

  function Rank(p: Phase): nat {
    match p
    case Idle => 0
    case CheckKey => 1
    case LoadAccounts => 2
    case LockSource => 3
    case CheckBalance => 4
    case WriteHeader => 5
    case WriteEntries(_) => 6
    case CommitAll(_) => 7
    case Done(_) => 8
  }

  predicate InFlight(p: Phase) {
    1 <= Rank(p) <= 7
  }

  /** The header a call has staged but not committed. */
  function StagedHeader(p: Phase): Option<Header> {
    match p
    case WriteEntries(h) => Some(h)
    case CommitAll(h) => Some(h)
    case _ => None
  }

  predicate Debits(ev: Event, a: AccountId) {
    ev.Transferred? && ev.q.source == a
  }

  // ----- History: every version follows from the one before by one atomic operation -----

  ghost predicate Follows(before: Db, after: Db, ev: Event) {
    match ev
    case Transferred(_, q, id) =>
      Decide(before, q) == Accept && !UsedId(before.headers, id) && after == AtomicTransfer(before, q, id)
    case Opened(a, document) => Openable(before, a, document) && after == OpenAccount(before, a, document)
  }

  ghost predicate FollowsAt(s: State, i: nat)
    requires |s.hist| == |s.log| + 1 && i < |s.log|
  {
    Follows(s.hist[i], s.hist[i + 1], s.log[i])
  }

  ghost predicate Chained(s: State) {
    && |s.hist| == |s.log| + 1
    && s.hist[|s.log|] == s.db
    && (forall i | 0 <= i < |s.log| :: FollowsAt(s, i))
  }

  ghost predicate History(s: State) {
    Chained(s) && Sound(s.hist[0])
  }

  /** From version n on, the document of account a has been as it is now, and no transfer debited it. */
  ghost predicate Settled(s: State, a: AccountId, n: nat)
    requires |s.hist| == |s.log| + 1
  {
    && n <= |s.log|
    && (forall i | n <= i <= |s.log| ::
          a in s.hist[i].accounts && a in s.db.accounts && s.hist[i].accounts[a] == s.db.accounts[a])
    && (forall i | n <= i < |s.log| :: !Debits(s.log[i], a))
  }

  ghost predicate Stamped(s: State)
    requires |s.hist| == |s.log| + 1
  {
    forall a | IsUser(s.db.accounts, a) :: a in s.stamps && Settled(s, a, s.stamps[a])
  }

  // ----- What is known of one call -----

  ghost predicate Placed(s: State, c: Call)
    requires |s.hist| == |s.log| + 1
  {
    && c.since <= |s.log|
    && (InFlight(c.phase) ==> c.since <= c.snap <= |s.log| && c.view == s.hist[c.snap] && c.attempts > 0)
    && (!c.phase.Done? ==> c.q.source != c.q.destination)
  }

  ghost predicate Validated(c: Call) {
    && (2 <= Rank(c.phase) <= 7 ==> !UsedKey(c.view.headers, c.q.key))
    && (3 <= Rank(c.phase) <= 7 ==> Validate(c.view.accounts, c.q) == None)
    && (3 <= Rank(c.phase) <= 4 ==> IsUser(c.view.accounts, c.q.source))
  }

  /** The call holds the serialisation write on its USER source. */
  predicate HoldsSource(c: Call) {
    4 <= Rank(c.phase) <= 7 && IsUser(c.view.accounts, c.q.source)
  }

  ghost predicate Locked(s: State, c: Call) {
    && c.staged.accounts == (if HoldsSource(c)
                             then map[c.q.source := Incremented(c.view.accounts[c.q.source])] else map[])
    && (HoldsSource(c) ==> c.q.source in s.stamps && s.stamps[c.q.source] <= c.snap)
  }

  ghost predicate Funded(c: Call) {
    5 <= Rank(c.phase) <= 7 && IsUser(c.view.accounts, c.q.source) ==>
      Balance(c.view.entries, c.q.source) >= c.q.amount
  }

  /** What a call has staged in the ledger, by phase. */
  predicate Staging(c: Call) {
    match StagedHeader(c.phase)
    case None => c.staged.headers == [] && c.staged.entries == []
    case Some(h) =>
      && WellFormed(c.q)
      && h == HeaderFor(c.q, h.id)
      && c.staged.headers == [h]
      && c.staged.entries == (if c.phase.CommitAll? then [DebitFor(h), CreditFor(h)] else [])
  }

  ghost predicate Prepared(s: State, c: Call) {
    && Staging(c)
    && match StagedHeader(c.phase)
       case None => true
       case Some(h) => h.id in s.issued && !UsedId(s.db.headers, h.id) && !UsedKey(s.db.headers, c.q.key)
  }

  ghost predicate Answered(s: State, r: CallId, c: Call)
    requires |s.hist| == |s.log| + 1
  {
    c.phase.Done? ==>
      && c.since <= c.point <= c.ended <= |s.log|
      && match c.phase.outcome
         case Committed(h, n) =>
           && c.point < c.ended
           && s.log[c.point] == Transferred(r, c.q, h.id)
           && h == HeaderFor(c.q, h.id)
           && n == c.attempts > 0
         case Refused(e) =>
           e == WriteConflict || Decide(s.hist[c.point], c.q) == Reject(e)
  }

  ghost predicate CallOk(s: State, r: CallId, c: Call)
    requires |s.hist| == |s.log| + 1
  {
    && Placed(s, c)
    && Validated(c)
    && Locked(s, c)
    && Funded(c)
    && Prepared(s, c)
    && Answered(s, r, c)
  }

  ghost predicate CallsOk(s: State)
    requires |s.hist| == |s.log| + 1
  {
    forall r | r in s.calls :: CallOk(s, r, s.calls[r])
  }

  // ----- Mutual exclusion and the log -----

  /** Two calls never hold the same account document, key or transaction id. */
  ghost predicate Apart(c: Call, d: Call) {
    && c.staged.accounts.Keys !! d.staged.accounts.Keys
    && (c.staged.headers != [] && d.staged.headers != [] ==>
          c.staged.headers[0].key != d.staged.headers[0].key && c.staged.headers[0].id != d.staged.headers[0].id)
  }

  ghost predicate Exclusive(s: State) {
    forall r, o | r in s.calls && o in s.calls && r != o :: Apart(s.calls[r], s.calls[o])
  }

  ghost predicate Logged(s: State) {
    forall i | 0 <= i < |s.log| && s.log[i].Transferred? ::
      var r := s.log[i].call;
      r in s.calls && s.calls[r].phase.Done? && s.calls[r].phase.outcome.Committed? && s.calls[r].point == i
  }

  ghost predicate IdsIssued(s: State) {
    forall i | 0 <= i < |s.db.headers| :: s.db.headers[i].id in s.issued
  }

  ghost predicate Inv(s: State) {
    && History(s)
    && Stamped(s)
    && CallsOk(s)
    && Exclusive(s)
    && Logged(s)
    && IdsIssued(s)
  }

  lemma StartInv(db: Db)
    requires Sound(db)
    ensures Inv(Start(db))
  {
  }

  // ----- What versions keep from one another -----

  /** Accounts never disappear and never change owner, type, currency or status. */
  lemma {:induction false} AccountsPersist(s: State, i: nat, j: nat, a: AccountId)
    requires Chained(s) && i <= j <= |s.log| && a in s.hist[i].accounts
    ensures a in s.hist[j].accounts
    ensures s.hist[j].accounts[a].(counter := None) == s.hist[i].accounts[a].(counter := None)
    decreases j
  {
    if i < j {
      AccountsPersist(s, i, j - 1, a);
      assert FollowsAt(s, j - 1);
    }
  }

  /** Earlier headers and entries are a prefix of later ones. */
  lemma {:induction false} LedgerGrows(s: State, i: nat, j: nat)
    requires Chained(s) && i <= j <= |s.log|
    ensures s.hist[i].headers <= s.hist[j].headers && s.hist[i].entries <= s.hist[j].entries
    decreases j
  {
    if i < j {
      LedgerGrows(s, i, j - 1);
      assert FollowsAt(s, j - 1);
    }
  }

  /** Without a debit of the account in between, its balance does not fall. */
  lemma {:induction false} BalanceHoldsUp(s: State, i: nat, j: nat, a: AccountId)
    requires Chained(s) && i <= j <= |s.log|
    requires forall k | i <= k < j :: !Debits(s.log[k], a)
    ensures Balance(s.hist[i].entries, a) <= Balance(s.hist[j].entries, a)
    decreases j
  {
    if i < j {
      BalanceHoldsUp(s, i, j - 1, a);
      assert FollowsAt(s, j - 1);
      var ev := s.log[j - 1];
      if ev.Transferred? {
        BalanceOfPair(s.hist[j - 1].entries, HeaderFor(ev.q, ev.id), a);
      }
    }
  }

  /** Every version of a run is sound. */
  lemma {:induction false} VersionIsSound(s: State, i: nat)
    requires History(s) && i <= |s.log|
    ensures Sound(s.hist[i])
    decreases i
  {
    if i > 0 {
      VersionIsSound(s, i - 1);
      assert FollowsAt(s, i - 1);
      match s.log[i - 1] {
        case Transferred(_, q, id) => TransferKeepsSound(s.hist[i - 1], q, id);
        case Opened(a, document) => OpeningKeepsSound(s.hist[i - 1], a, document);
      }
    }
  }

  lemma ValidityPersists(s: State, i: nat, j: nat, q: Request)
    requires Chained(s) && i <= j <= |s.log| && Validate(s.hist[i].accounts, q) == None
    ensures Validate(s.hist[j].accounts, q) == None
    ensures IsUser(s.hist[j].accounts, q.source) == IsUser(s.hist[i].accounts, q.source)
  {
    AccountsPersist(s, i, j, q.source);
    AccountsPersist(s, i, j, q.destination);
  }

  /** The guarantee of the serialisation write: while a call holds its source, no other debit of that source
      has committed since the call's snapshot, the document is unchanged, and the balance that was checked is
      still there. */
  lemma SourceIsStable(s: State, r: CallId)
    requires Inv(s) && r in s.calls && HoldsSource(s.calls[r])
    ensures var c := s.calls[r];
            && (forall i | c.snap <= i < |s.log| :: !Debits(s.log[i], c.q.source))
            && c.q.source in s.db.accounts && s.db.accounts[c.q.source] == c.view.accounts[c.q.source]
            && Balance(c.view.entries, c.q.source) <= Balance(s.db.entries, c.q.source)
  {
    var c := s.calls[r];
    assert CallOk(s, r, c);
    var a := c.q.source;
    AccountsPersist(s, c.snap, |s.log|, a);
    assert IsUser(s.db.accounts, a);
    assert Settled(s, a, s.stamps[a]);
    BalanceHoldsUp(s, c.snap, |s.log|, a);
  }

  lemma CommitIsAccepted(s: State, r: CallId)
    requires Inv(s) && r in s.calls && s.calls[r].phase.CommitAll?
    ensures Decide(s.db, s.calls[r].q) == Accept
  {
    var c := s.calls[r];
    assert CallOk(s, r, c);
    ValidityPersists(s, c.snap, |s.log|, c.q);
    if IsUser(c.view.accounts, c.q.source) {
      SourceIsStable(s, r);
      assert Funded(c);
    }
  }

  lemma MergeIsTransfer(db: Db, q: Request, h: Header, staged: Db)
    requires h == HeaderFor(q, h.id) && staged.headers == [h] && staged.entries == [DebitFor(h), CreditFor(h)]
    requires staged.accounts == if IsUser(db.accounts, q.source)
                                then map[q.source := Incremented(db.accounts[q.source])] else map[]
    ensures Merge(db, staged) == AtomicTransfer(db, q, h.id)
  {
    if !IsUser(db.accounts, q.source) {
      assert db.accounts + map[] == db.accounts;
    }
  }

  lemma CommitMergesTransfer(s: State, r: CallId)
    requires Inv(s) && r in s.calls && s.calls[r].phase.CommitAll?
    ensures Merge(s.db, s.calls[r].staged) == AtomicTransfer(s.db, s.calls[r].q, s.calls[r].phase.header.id)
  {
    var c := s.calls[r];
    assert CallOk(s, r, c);
    ValidityPersists(s, c.snap, |s.log|, c.q);
    if HoldsSource(c) {
      SourceIsStable(s, r);
    }
    MergeIsTransfer(s.db, c.q, c.phase.header, c.staged);
  }

  /** At the moment of commit the sequential specification accepts the request at the current version, and
      publishing the staged writes has exactly the effect of the atomic transfer. */
  lemma CommitIsAtomic(s: State, r: CallId)
    requires Inv(s) && r in s.calls && s.calls[r].phase.CommitAll?
    ensures var c := s.calls[r]; var h := c.phase.header;
            && Decide(s.db, c.q) == Accept && !UsedId(s.db.headers, h.id)
            && Merge(s.db, c.staged) == AtomicTransfer(s.db, c.q, h.id)
  {
    CommitIsAccepted(s, r);
    CommitMergesTransfer(s, r);
    assert CallOk(s, r, s.calls[r]);
    assert Prepared(s, s.calls[r]);
  }

  // ----- Steps that change one call only -----

  lemma HistoryFrame(s: State, s': State)
    requires History(s)
    requires s'.db == s.db && s'.hist == s.hist && s'.log == s.log
    ensures History(s')
  {
    forall i | 0 <= i < |s'.log|
      ensures FollowsAt(s', i)
    {
      assert FollowsAt(s, i);
    }
  }

  lemma StampsFrame(s: State, s': State)
    requires |s.hist| == |s.log| + 1 && Stamped(s)
    requires s'.db == s.db && s'.stamps == s.stamps && s'.hist == s.hist && s'.log == s.log
    ensures Stamped(s')
  {
    forall a | IsUser(s'.db.accounts, a)
      ensures a in s'.stamps && Settled(s', a, s'.stamps[a])
    {
      assert IsUser(s.db.accounts, a);
      assert Settled(s, a, s.stamps[a]);
    }
  }

  lemma CallFrame(s: State, s': State, o: CallId, c: Call)
    requires |s.hist| == |s.log| + 1 && CallOk(s, o, c)
    requires s'.db == s.db && s'.stamps == s.stamps && s'.hist == s.hist && s'.log == s.log
    requires s.issued <= s'.issued
    ensures CallOk(s', o, c)
  {
  }

  lemma LoggedFrame(s: State, r: CallId, c': Call, s': State)
    requires Logged(s) && (r in s.calls ==> !s.calls[r].phase.Done?)
    requires s'.log == s.log && s'.calls == s.calls[r := c']
    ensures Logged(s')
  {
  }

  lemma ExclusiveFrame(s: State, r: CallId, c': Call, s': State)
    requires Exclusive(s) && s'.calls == s.calls[r := c']
    requires forall o | o in s.calls && o != r :: Apart(c', s.calls[o])
    ensures Exclusive(s')
  {
    forall x, y | x in s'.calls && y in s'.calls && x != y
      ensures Apart(s'.calls[x], s'.calls[y])
    {
      if x != r && y != r {
        assert Apart(s.calls[x], s.calls[y]);
      } else if y == r {
        assert Apart(c', s.calls[x]);
      }
    }
  }

  /** A step that touches nothing but one unfinished call keeps the invariant if it keeps it for that call. */
  lemma LocalStep(s: State, r: CallId, c': Call, s': State)
    requires Inv(s)
    requires r in s.calls ==> !s.calls[r].phase.Done?
    requires s' == Put(s, r, c').(issued := s'.issued) && s.issued <= s'.issued
    requires CallOk(s', r, c')
    requires forall o | o in s.calls && o != r :: Apart(c', s.calls[o])
    ensures Inv(s')
  {
    HistoryFrame(s, s');
    StampsFrame(s, s');
    LoggedFrame(s, r, c', s');
    ExclusiveFrame(s, r, c', s');
    forall o | o in s'.calls
      ensures CallOk(s', o, s'.calls[o])
    {
      if o != r {
        CallFrame(s, s', o, s.calls[o]);
      }
    }
    assert CallsOk(s');
  }

  /** An answer with an error is right if the specification gives that error at the recorded version. */
  lemma RefuseKeepsInv(s: State, r: CallId, error: Error, point: nat)
    requires Inv(s) && r in s.calls && !s.calls[r].phase.Done?
    requires s.calls[r].since <= point <= |s.log|
    requires error == WriteConflict || Decide(s.hist[point], s.calls[r].q) == Reject(error)
    ensures Inv(Refuse(s, r, error, point))
  {
    assert CallOk(s, r, s.calls[r]);
    var s' := Refuse(s, r, error, point);
    LocalStep(s, r, s'.calls[r], s');
  }

  lemma RetryKeepsInv(s: State, r: CallId)
    requires Inv(s) && r in s.calls && !s.calls[r].phase.Done?
    ensures Inv(Retry(s, r))
  {
    assert CallOk(s, r, s.calls[r]);
    var s' := Retry(s, r);
    LocalStep(s, r, s'.calls[r], s');
  }

  lemma BeginKeepsInv(s: State, r: CallId, giveUp: bool)
    requires Inv(s) && r in s.calls && s.calls[r].phase.Idle?
    ensures Inv(Begin(s, r, giveUp))
  {
    var c := s.calls[r];
    assert CallOk(s, r, c);
    if giveUp && c.attempts > 0 {
      RefuseKeepsInv(s, r, WriteConflict, |s.log|);
    } else {
      var s' := Begin(s, r, giveUp);
      LocalStep(s, r, s'.calls[r], s');
    }
  }

  lemma FindKeyKeepsInv(s: State, r: CallId)
    requires Inv(s) && r in s.calls && s.calls[r].phase.CheckKey?
    ensures Inv(FindKey(s, r))
  {
    var c := s.calls[r];
    assert CallOk(s, r, c);
    assert Seen(c).headers == c.view.headers;
    if UsedKey(c.view.headers, c.q.key) {
      RefuseKeepsInv(s, r, DuplicateSubmission, c.snap);
    } else {
      var s' := FindKey(s, r);
      LocalStep(s, r, s'.calls[r], s');
    }
  }

  /** A step to another phase keeps the invariant if the call is right in that phase. */
  lemma MoveKeepsInv(s: State, r: CallId, phase: Phase)
    requires Inv(s) && r in s.calls && !s.calls[r].phase.Done?
    requires CallOk(s, r, s.calls[r].(phase := phase))
    ensures Inv(Move(s, r, phase))
  {
    var s' := Move(s, r, phase);
    var c' := s'.calls[r];
    forall o | o in s.calls && o != r
      ensures Apart(c', s.calls[o])
    {
      assert Apart(s.calls[r], s.calls[o]);
    }
    CallFrame(s, s', r, c');
    LocalStep(s, r, c', s');
  }

  lemma LoadedCallOk(s: State, r: CallId, c: Call)
    requires |s.hist| == |s.log| + 1 && CallOk(s, r, c) && c.phase.LoadAccounts?
    requires Validate(c.view.accounts, c.q) == None
    ensures CallOk(s, r, c.(phase := if IsUser(c.view.accounts, c.q.source) then LockSource else WriteHeader))
  {
  }

  lemma LoadKeepsInv(s: State, r: CallId)
    requires Inv(s) && r in s.calls && s.calls[r].phase.LoadAccounts?
    ensures Inv(Load(FULL, s, r))
  {
    var c := s.calls[r];
    assert CallOk(s, r, c);
    assert Seen(c).accounts == c.view.accounts;
    var invalid := Validate(c.view.accounts, c.q);
    if invalid.Some? {
      RefuseKeepsInv(s, r, invalid.value, c.snap);
    } else {
      LoadedCallOk(s, r, c);
      MoveKeepsInv(s, r, if IsUser(c.view.accounts, c.q.source) then LockSource else WriteHeader);
    }
  }

  lemma LockedCallOk(s: State, r: CallId, c: Call, c': Call)
    requires |s.hist| == |s.log| + 1 && CallOk(s, r, c) && c.phase.LockSource?
    requires c.q.source in s.stamps && s.stamps[c.q.source] <= c.snap
    requires c' == c.(phase := CheckBalance, staged := c.staged.(
                      accounts := map[c.q.source := Incremented(c.view.accounts[c.q.source])]))
    ensures CallOk(s, r, c')
  {
  }

  lemma LockKeepsInv(s: State, r: CallId)
    requires Inv(s) && r in s.calls && s.calls[r].phase.LockSource?
    ensures Inv(Lock(s, r))
  {
    var c := s.calls[r];
    assert CallOk(s, r, c);
    var a := c.q.source;
    if DocumentBusy(s, r, a) {
      RetryKeepsInv(s, r);
    } else {
      assert Seen(c).accounts == c.view.accounts;
      AccountsPersist(s, c.snap, |s.log|, a);
      assert IsUser(s.db.accounts, a);
      var s' := Lock(s, r);
      LockedCallOk(s, r, c, s'.calls[r]);
      CallFrame(s, s', r, s'.calls[r]);
      LocalStep(s, r, s'.calls[r], s');
    }
  }

  /** The balance check either refuses with what the specification answers at the snapshot, or moves on to a
      phase in which the call is known to be funded. */
  lemma SumBalanceAnswers(s: State, r: CallId) returns (error: Option<Error>)
    requires |s.hist| == |s.log| + 1 && r in s.calls
    requires CallOk(s, r, s.calls[r]) && s.calls[r].phase.CheckBalance?
    ensures var c := s.calls[r];
            match error
            case Some(e) =>
              && SumBalance(s, r) == Refuse(s, r, e, c.snap)
              && c.since <= c.snap <= |s.log| && Decide(s.hist[c.snap], c.q) == Reject(e)
            case None => SumBalance(s, r) == Move(s, r, WriteHeader) && CallOk(s, r, c.(phase := WriteHeader))
  {
    var c := s.calls[r];
    SumBalanceReadsSnapshot(s, r);
    var balance := Balance(c.view.entries, c.q.source);
    error := if balance < c.q.amount then Some(InsufficientFunds(balance, c.q.amount - balance)) else None;
  }

  lemma SumBalanceKeepsInv(s: State, r: CallId)
    requires Inv(s) && r in s.calls && s.calls[r].phase.CheckBalance?
    ensures Inv(SumBalance(s, r))
  {
    var error := SumBalanceAnswers(s, r);
    match error {
      case Some(e) => RefuseKeepsInv(s, r, e, s.calls[r].snap);
      case None => MoveKeepsInv(s, r, WriteHeader);
    }
  }

  /** A staged header is as it should be when its id and its key are new. */
  lemma HeaderCallOk(s: State, r: CallId, c: Call, h: Header)
    requires |s.hist| == |s.log| + 1 && CallOk(s, r, c) && c.phase.WriteHeader? && WellFormed(c.q)
    requires h == HeaderFor(c.q, h.id) && h.id !in s.issued && !UsedId(s.db.headers, h.id)
    requires !UsedKey(s.db.headers, c.q.key)
    ensures CallOk(s.(issued := s.issued + {h.id}), r,
                   c.(phase := WriteEntries(h), staged := c.staged.(headers := c.staged.headers + [h])))
  {
  }

  lemma InsertHeaderKeepsInv(s: State, r: CallId, choice: Choice)
    requires Inv(s) && r in s.calls && s.calls[r].phase.WriteHeader? && choice.id !in s.issued
    ensures Inv(InsertHeader(FULL, s, r, choice))
  {
    var c := s.calls[r];
    assert CallOk(s, r, c);
    if !WellFormed(c.q) {
      RefuseKeepsInv(s, r, MalformedDocument, c.snap);
    } else if KeyStaged(s, r, c.q.key) {
      RetryKeepsInv(s, r);
    } else if UsedKey(s.db.headers, c.q.key) {
      RefuseKeepsInv(s, r, DuplicateSubmission, |s.log|);
      RetryKeepsInv(s, r);
    } else {
      var s' := InsertHeader(FULL, s, r, choice);
      var c' := s'.calls[r];
      var withId := s.(issued := s'.issued);
      HeaderCallOk(s, r, c, HeaderFor(c.q, choice.id));
      CallFrame(withId, s', r, c');
      forall o | o in s.calls && o != r
        ensures Apart(c', s.calls[o])
      {
        assert CallOk(s, o, s.calls[o]);
        assert Apart(c, s.calls[o]);
        assert !UsedKey(s.calls[o].staged.headers, c.q.key);
        assert s.calls[o].staged.headers != [] ==> s.calls[o].staged.headers[0].key != c.q.key;
      }
      LocalStep(s, r, c', s');
    }
  }

  /** With fresh transaction ids, the (transaction_id, direction) index never fires on this path, neither
      against committed entries nor against those of another open transaction. */
  lemma EntryIndexNeverFires(s: State, r: CallId)
    requires Inv(s) && r in s.calls && s.calls[r].phase.WriteEntries?
    ensures var h := s.calls[r].phase.header;
            !EntriesStaged(s, r, h) && !EntriesRejected(s.db.entries, h)
  {
    var c := s.calls[r];
    var h := c.phase.header;
    assert CallOk(s, r, c);
    forall o | o in s.calls && o != r
      ensures !EntriesRejected(s.calls[o].staged.entries, h)
    {
      assert CallOk(s, o, s.calls[o]) && Apart(c, s.calls[o]);
    }
    VersionIsSound(s, |s.log|);
    UnusedIdHasNoEntries(s.db.headers, h);
  }

  lemma {:induction false} UnusedIdHasNoEntries(headers: seq<Header>, h: Header)
    requires !UsedId(headers, h.id)
    ensures !EntriesRejected(Pairs(headers), h)
  {
    if headers != [] {
      var n := |headers| - 1;
      assert forall i | 0 <= i < n :: headers[..n][i] == headers[i];
      UnusedIdHasNoEntries(headers[..n], h);
      var before := Pairs(headers[..n]);
      assert headers[n].id != h.id;
      forall i | 0 <= i < |Pairs(headers)|
        ensures !(Pairs(headers)[i].transaction == h.id)
             || (Pairs(headers)[i].direction != DEBIT && Pairs(headers)[i].direction != CREDIT)
      {
        if i < |before| {
          assert Pairs(headers)[i] == before[i];
          assert before[i].direction == DebitFor(h).direction || before[i].direction == CreditFor(h).direction;
        }
      }
    }
  }

  lemma InsertEntriesKeepsInv(s: State, r: CallId, h: Header)
    requires Inv(s) && r in s.calls && s.calls[r].phase == WriteEntries(h)
    ensures Inv(InsertEntries(s, r, h))
  {
    var c := s.calls[r];
    assert CallOk(s, r, c);
    EntryIndexNeverFires(s, r);
    var s' := InsertEntries(s, r, h);
    forall o | o in s.calls && o != r
      ensures Apart(s'.calls[r], s.calls[o])
    {
      assert Apart(c, s.calls[o]);
    }
    LocalStep(s, r, s'.calls[r], s');
  }

  lemma ArriveKeepsInv(s: State, r: CallId, q: Request)
    requires Inv(s) && r !in s.calls
    ensures Inv(Arrive(s, r, q))
  {
    var s' := Arrive(s, r, q);
    LocalStep(s, r, s'.calls[r], s');
  }

  // ----- Steps that publish a version -----

  lemma HistoryExtends(s: State, s': State, ev: Event)
    requires History(s)
    requires s'.hist == s.hist + [s'.db] && s'.log == s.log + [ev]
    requires Follows(s.db, s'.db, ev)
    ensures History(s')
  {
    forall i | 0 <= i < |s'.log|
      ensures FollowsAt(s', i)
    {
      if i < |s.log| {
        assert FollowsAt(s, i);
      }
    }
  }

  /** What another call knows survives the publication of a version that does not take what it holds. */
  lemma OthersSurvive(s: State, s': State, o: CallId, ev: Event)
    requires |s.hist| == |s.log| + 1 && o in s.calls && CallOk(s, o, s.calls[o])
    requires s'.hist == s.hist + [s'.db] && s'.log == s.log + [ev] && s'.issued == s.issued
    requires HoldsSource(s.calls[o]) ==> s.calls[o].q.source in s'.stamps
                                         && s'.stamps[s.calls[o].q.source] == s.stamps[s.calls[o].q.source]
    requires s.calls[o].staged.headers != [] ==>
               !UsedId(s'.db.headers, s.calls[o].staged.headers[0].id)
               && !UsedKey(s'.db.headers, s.calls[o].staged.headers[0].key)
    ensures CallOk(s', o, s.calls[o])
  {
  }

  lemma SettledExtends(s: State, s': State, a: AccountId, n: nat, ev: Event)
    requires |s.hist| == |s.log| + 1 && s'.hist == s.hist + [s'.db] && s'.log == s.log + [ev]
    requires Settled(s, a, n) && a in s.db.accounts && a in s'.db.accounts && s'.db.accounts[a] == s.db.accounts[a]
    requires !Debits(ev, a)
    ensures Settled(s', a, n)
  {
  }

  /** What a commit does to the account documents and their stamps. */
  lemma CommitAccounts(s: State, r: CallId, h: Header)
    requires Inv(s) && r in s.calls && s.calls[r].phase == CommitAll(h)
    ensures var s' := Commit(s, r, h);
            var a := s.calls[r].q.source;
            && s'.db.accounts.Keys == s.db.accounts.Keys
            && (forall b | b in s.db.accounts && b != a :: s'.db.accounts[b] == s.db.accounts[b])
            && (forall b | b in s.stamps && b != a :: b in s'.stamps && s'.stamps[b] == s.stamps[b])
            && (IsUser(s'.db.accounts, a) ==> a in s'.stamps && s'.stamps[a] == |s'.log|)
            && (forall b | IsUser(s'.db.accounts, b) :: IsUser(s.db.accounts, b))
  {
    var c := s.calls[r];
    CommitMergesTransfer(s, r);
    assert CallOk(s, r, c);
    ValidityPersists(s, c.snap, |s.log|, c.q);
  }

  lemma CommitStamps(s: State, r: CallId, h: Header)
    requires Inv(s) && r in s.calls && s.calls[r].phase == CommitAll(h)
    ensures |Commit(s, r, h).hist| == |Commit(s, r, h).log| + 1 && Stamped(Commit(s, r, h))
  {
    var c := s.calls[r];
    var s' := Commit(s, r, h);
    CommitAccounts(s, r, h);
    forall a | IsUser(s'.db.accounts, a)
      ensures a in s'.stamps && Settled(s', a, s'.stamps[a])
    {
      assert IsUser(s.db.accounts, a);
      if a != c.q.source {
        SettledExtends(s, s', a, s.stamps[a], Transferred(r, c.q, h.id));
      }
    }
  }

  lemma CommitOther(s: State, r: CallId, h: Header, o: CallId)
    requires |s.hist| == |s.log| + 1 && r in s.calls && o in s.calls && r != o
    requires CallOk(s, r, s.calls[r]) && CallOk(s, o, s.calls[o]) && Apart(s.calls[r], s.calls[o])
    requires s.calls[r].phase == CommitAll(h)
    ensures CallOk(Commit(s, r, h), o, s.calls[o])
  {
    var s' := Commit(s, r, h);
    var c, d := s.calls[r], s.calls[o];
    if HoldsSource(d) {
      assert d.q.source in d.staged.accounts.Keys;
      assert s'.stamps[d.q.source] == s.stamps[d.q.source];
    }
    OthersSurvive(s, s', o, Transferred(r, c.q, h.id));
  }

  lemma CommittedCallOk(s: State, r: CallId, h: Header)
    requires |s.hist| == |s.log| + 1 && r in s.calls
    requires CallOk(s, r, s.calls[r]) && s.calls[r].phase == CommitAll(h)
    ensures CallOk(Commit(s, r, h), r, Commit(s, r, h).calls[r])
  {
  }

  lemma CommitCalls(s: State, r: CallId, h: Header)
    requires Inv(s) && r in s.calls && s.calls[r].phase == CommitAll(h)
    ensures |Commit(s, r, h).hist| == |Commit(s, r, h).log| + 1 && CallsOk(Commit(s, r, h))
  {
    var s' := Commit(s, r, h);
    assert CallOk(s, r, s.calls[r]);
    CommittedCallOk(s, r, h);
    forall o | o in s'.calls && o != r
      ensures CallOk(s', o, s'.calls[o])
    {
      CommitOther(s, r, h, o);
    }
  }

  lemma CommitExclusive(s: State, r: CallId, h: Header)
    requires Inv(s) && r in s.calls && s.calls[r].phase == CommitAll(h)
    ensures Exclusive(Commit(s, r, h)) && Logged(Commit(s, r, h))
  {
    var s' := Commit(s, r, h);
    ExclusiveFrame(s, r, s'.calls[r], s');
  }

  lemma CommitKeepsInv(s: State, r: CallId, h: Header)
    requires Inv(s) && r in s.calls && s.calls[r].phase == CommitAll(h)
    ensures Inv(Commit(s, r, h))
  {
    var c := s.calls[r];
    var s' := Commit(s, r, h);
    CommitIsAtomic(s, r);
    HistoryExtends(s, s', Transferred(r, c.q, h.id));
    CommitStamps(s, r, h);
    CommitCalls(s, r, h);
    CommitExclusive(s, r, h);
    assert CallOk(s, r, c);
  }

  lemma OpeningKeepsInv(s: State, a: AccountId, document: Account)
    requires Inv(s) && Openable(s.db, a, document)
    ensures Inv(Opening(s, a, document))
  {
    var s' := Opening(s, a, document);
    HistoryExtends(s, s', Opened(a, document));
    forall b | IsUser(s'.db.accounts, b)
      ensures b in s'.stamps && Settled(s', b, s'.stamps[b])
    {
      if b != a {
        assert IsUser(s.db.accounts, b);
        assert Settled(s, b, s.stamps[b]);
      }
    }
    forall o | o in s'.calls
      ensures CallOk(s', o, s'.calls[o])
    {
      var c := s.calls[o];
      assert CallOk(s, o, c);
      if HoldsSource(c) {
        SourceIsStable(s, o);
      }
      OthersSurvive(s, s', o, Opened(a, document));
    }
  }

  // ----- All steps, all runs -----

  /** Every step of every call keeps the invariant. */
  lemma StepKeepsInv(s: State, step: Step)
    requires Inv(s) && Enabled(s, step)
    ensures Inv(Apply(FULL, s, step))
  {
    match step {
      case Submit(r, q) => ArriveKeepsInv(s, r, q);
      case Open(a, document) => OpeningKeepsInv(s, a, document);
      case Act(r, choice) =>
        match s.calls[r].phase {
          case Idle => BeginKeepsInv(s, r, choice.giveUp);
          case CheckKey => FindKeyKeepsInv(s, r);
          case LoadAccounts => LoadKeepsInv(s, r);
          case LockSource => LockKeepsInv(s, r);
          case CheckBalance => SumBalanceKeepsInv(s, r);
          case WriteHeader => InsertHeaderKeepsInv(s, r, choice);
          case WriteEntries(h) => InsertEntriesKeepsInv(s, r, h);
          case CommitAll(h) => CommitKeepsInv(s, r, h);
        }
    }
  }

  lemma {:induction false} RunKeepsInv(s: State, steps: seq<Step>)
    requires Inv(s) && Legal(FULL, s, steps)
    ensures Inv(Execute(FULL, s, steps))
    decreases |steps|
  {
    if steps != [] {
      StepKeepsInv(s, steps[0]);
      RunKeepsInv(Apply(FULL, s, steps[0]), steps[1..]);
    }
  }

  /** Every state that any interleaving reaches from any sound ledger satisfies the invariant. */
  lemma ReachableInv(db: Db, steps: seq<Step>)
    requires Sound(db) && Legal(FULL, Start(db), steps)
    ensures Inv(Execute(FULL, Start(db), steps))
  {
    StartInv(db);
    RunKeepsInv(Start(db), steps);
  }
}
