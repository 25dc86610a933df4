// What the serialisation write achieves by itself, with or without the key index: debits of one USER account
// are separated from one another. With Necessity this says exactly when each guarantee holds.
module Separation {
  import opened Domain
  import opened Specification
  import opened Protocol
  import opened Invariant
  import opened Necessity

  /** A header of this source carries the key. */
  predicate UsedBy(headers: seq<Header>, a: AccountId, key: Key) {
    exists i :: 0 <= i < |headers| && headers[i].source == a && headers[i].key == key
  }

  /** From one version to a later one, no debit of the account was committed: its balance has not fallen and
      no key is new to it. */
  ghost predicate Quiet(before: Db, now: Db, a: AccountId) {
    && Balance(before.entries, a) <= Balance(now.entries, a)
    && forall key | UsedBy(now.headers, a, key) :: UsedBy(before.headers, a, key)
  }

  predicate SameKinds(before: map<AccountId, Account>, now: map<AccountId, Account>) {
    forall a | a in before :: a in now && now[a].kind == before[a].kind
  }

  ghost predicate Versions(s: State) {
    && |s.hist| == |s.log| + 1
    && s.hist[|s.log|] == s.db
    && forall i | 0 <= i <= |s.log| :: SameKinds(s.hist[i].accounts, s.db.accounts)
  }

  /** Since its document was last written, a USER account has not been debited. */
  ghost predicate Guarded(s: State)
    requires |s.hist| == |s.log| + 1
  {
    forall a | IsUser(s.db.accounts, a) ::
      a in s.stamps && s.stamps[a] <= |s.log|
      && forall i | s.stamps[a] <= i <= |s.log| :: Quiet(s.hist[i], s.db, a)
  }

  /** Headers and entries name existing accounts only. */
  predicate Named(db: Db) {
    && (forall i | 0 <= i < |db.headers| :: db.headers[i].source in db.accounts)
    && (forall i | 0 <= i < |db.entries| :: db.entries[i].account in db.accounts)
  }

  /** No two debits of one USER account carry the same key. */
  ghost predicate OncePerSource(db: Db) {
    forall i, j | 0 <= i < j < |db.headers| && IsUser(db.accounts, db.headers[i].source)
                  && db.headers[i].source == db.headers[j].source ::
      db.headers[i].key != db.headers[j].key
  }

  ghost predicate CallHeld(s: State, c: Call)
    requires |s.hist| == |s.log| + 1
  {
    Placed(s, c) && Validated(c) && Locked(s, c) && Funded(c) && Staging(c)
  }

  ghost predicate DocumentsApart(s: State) {
    forall r, o | r in s.calls && o in s.calls && r != o ::
      s.calls[r].staged.accounts.Keys !! s.calls[o].staged.accounts.Keys
  }

  ghost predicate Separated(s: State) {
    && Versions(s)
    && Guarded(s)
    && Named(s.db) && NoOverdraft(s.db) && OncePerSource(s.db)
    && (forall r | r in s.calls :: CallHeld(s, s.calls[r]))
    && DocumentsApart(s)
  }

  // ----- Steps that change one call only -----

  lemma LocalKeepsSeparated(s: State, r: CallId, c': Call, s': State)
    requires Separated(s)
    requires s' == Put(s, r, c').(issued := s'.issued)
    requires CallHeld(s, c')
    requires forall o | o in s.calls && o != r :: c'.staged.accounts.Keys !! s.calls[o].staged.accounts.Keys
    ensures Separated(s')
  {
    forall o | o in s'.calls
      ensures CallHeld(s', s'.calls[o])
    {
      assert o != r ==> CallHeld(s, s.calls[o]);
    }
  }

  /** An answer drops what the call holds, and so does an abort. */
  lemma RefuseKeepsSeparated(s: State, r: CallId, error: Error, point: nat)
    requires Separated(s) && r in s.calls && !s.calls[r].phase.Done?
    ensures Separated(Refuse(s, r, error, point))
  {
    assert CallHeld(s, s.calls[r]);
    var s' := Refuse(s, r, error, point);
    LocalKeepsSeparated(s, r, s'.calls[r], s');
  }

  lemma RetryKeepsSeparated(s: State, r: CallId)
    requires Separated(s) && r in s.calls && !s.calls[r].phase.Done?
    ensures Separated(Retry(s, r))
  {
    assert CallHeld(s, s.calls[r]);
    LocalKeepsSeparated(s, r, Retry(s, r).calls[r], Retry(s, r));
  }

  lemma MoveKeepsSeparated(s: State, r: CallId, phase: Phase)
    requires Separated(s) && r in s.calls && CallHeld(s, s.calls[r].(phase := phase))
    ensures Separated(Move(s, r, phase))
  {
    LocalKeepsSeparated(s, r, s.calls[r].(phase := phase), Move(s, r, phase));
  }

  lemma BeginKeepsSeparated(s: State, r: CallId, giveUp: bool)
    requires Separated(s) && r in s.calls && s.calls[r].phase.Idle?
    ensures Separated(Begin(s, r, giveUp))
  {
    var c := s.calls[r];
    assert CallHeld(s, c);
    if giveUp && c.attempts > 0 {
      RefuseKeepsSeparated(s, r, WriteConflict, |s.log|);
    } else {
      var s' := Begin(s, r, giveUp);
      LocalKeepsSeparated(s, r, s'.calls[r], s');
    }
  }

  /** Having read on, the call still knows what its new phase requires. */
  lemma ReadOn(s: State, c: Call, phase: Phase)
    requires |s.hist| == |s.log| + 1 && CallHeld(s, c)
    requires match c.phase
             case CheckKey => phase == LoadAccounts && !UsedKey(c.view.headers, c.q.key)
             case LoadAccounts =>
               && Validate(c.view.accounts, c.q) == None
               && phase == if IsUser(c.view.accounts, c.q.source) then LockSource else WriteHeader
             case _ => false
    ensures CallHeld(s, c.(phase := phase))
  {
  }

  lemma FindKeyKeepsSeparated(s: State, r: CallId)
    requires Separated(s) && r in s.calls && s.calls[r].phase.CheckKey?
    ensures Separated(FindKey(s, r))
  {
    var c := s.calls[r];
    assert CallHeld(s, c);
    assert Seen(c).headers == c.view.headers;
    if UsedKey(c.view.headers, c.q.key) {
      RefuseKeepsSeparated(s, r, DuplicateSubmission, c.snap);
    } else {
      ReadOn(s, c, LoadAccounts);
      MoveKeepsSeparated(s, r, LoadAccounts);
    }
  }

  lemma LoadKeepsSeparated(design: Design, s: State, r: CallId)
    requires design.serialise && Separated(s) && r in s.calls && s.calls[r].phase.LoadAccounts?
    ensures Separated(Load(design, s, r))
  {
    var c := s.calls[r];
    assert CallHeld(s, c);
    assert Seen(c).accounts == c.view.accounts;
    var invalid := Validate(c.view.accounts, c.q);
    if invalid.Some? {
      RefuseKeepsSeparated(s, r, invalid.value, c.snap);
    } else {
      var phase := if IsUser(c.view.accounts, c.q.source) then LockSource else WriteHeader;
      ReadOn(s, c, phase);
      MoveKeepsSeparated(s, r, phase);
    }
  }

  lemma LockKeepsSeparated(s: State, r: CallId)
    requires Separated(s) && r in s.calls && s.calls[r].phase.LockSource?
    ensures Separated(Lock(s, r))
  {
    var c := s.calls[r];
    assert CallHeld(s, c);
    assert Seen(c).accounts == c.view.accounts;
    if DocumentBusy(s, r, c.q.source) {
      RetryKeepsSeparated(s, r);
    } else {
      assert IsUser(s.db.accounts, c.q.source) by {
        assert SameKinds(s.hist[c.snap].accounts, s.db.accounts);
      }
      LocalKeepsSeparated(s, r, Lock(s, r).calls[r], Lock(s, r));
    }
  }

  lemma SumAnswers(s: State, r: CallId) returns (error: Option<Error>)
    requires |s.hist| == |s.log| + 1 && r in s.calls
    requires CallHeld(s, s.calls[r]) && s.calls[r].phase.CheckBalance?
    ensures var c := s.calls[r];
            match error
            case Some(e) => SumBalance(s, r) == Refuse(s, r, e, c.snap)
            case None => SumBalance(s, r) == Move(s, r, WriteHeader) && CallHeld(s, c.(phase := WriteHeader))
  {
    var c := s.calls[r];
    SumBalanceReadsSnapshot(s, r);
    var balance := Balance(c.view.entries, c.q.source);
    error := if balance < c.q.amount then Some(InsufficientFunds(balance, c.q.amount - balance)) else None;
  }

  lemma SumKeepsSeparated(s: State, r: CallId)
    requires Separated(s) && r in s.calls && s.calls[r].phase.CheckBalance?
    ensures Separated(SumBalance(s, r))
  {
    var error := SumAnswers(s, r);
    match error {
      case Some(e) => RefuseKeepsSeparated(s, r, e, s.calls[r].snap);
      case None => MoveKeepsSeparated(s, r, WriteHeader);
    }
  }

  lemma HeaderStaged(s: State, c: Call, id: TransactionId)
    requires |s.hist| == |s.log| + 1 && CallHeld(s, c) && c.phase.WriteHeader? && WellFormed(c.q)
    ensures var h := HeaderFor(c.q, id);
            CallHeld(s, c.(phase := WriteEntries(h), staged := c.staged.(headers := c.staged.headers + [h])))
  {
  }

  lemma InsertHeaderKeepsSeparated(design: Design, s: State, r: CallId, choice: Choice)
    requires Separated(s) && r in s.calls && s.calls[r].phase.WriteHeader?
    ensures Separated(InsertHeader(design, s, r, choice))
  {
    var c := s.calls[r];
    if !WellFormed(c.q) {
      RefuseKeepsSeparated(s, r, MalformedDocument, c.snap);
    } else if design.keyIndex && (KeyStaged(s, r, c.q.key) || UsedKey(s.db.headers, c.q.key)) {
      RefuseKeepsSeparated(s, r, DuplicateSubmission, |s.log|);
      RetryKeepsSeparated(s, r);
    } else {
      HeaderStaged(s, c, choice.id);
      var s' := InsertHeader(design, s, r, choice);
      LocalKeepsSeparated(s, r, s'.calls[r], s');
    }
  }

  lemma EntriesAdded(s: State, c: Call, h: Header)
    requires |s.hist| == |s.log| + 1 && CallHeld(s, c) && c.phase == WriteEntries(h)
    ensures var entries := c.staged.entries + [DebitFor(h), CreditFor(h)];
            CallHeld(s, c.(phase := CommitAll(h), staged := c.staged.(entries := entries)))
  {
  }

  lemma InsertEntriesKeepsSeparated(s: State, r: CallId, h: Header)
    requires Separated(s) && r in s.calls && s.calls[r].phase == WriteEntries(h)
    ensures Separated(InsertEntries(s, r, h))
  {
    if EntriesStaged(s, r, h) {
      RetryKeepsSeparated(s, r);
    } else if EntriesRejected(s.db.entries, h) {
      RefuseKeepsSeparated(s, r, DuplicateSubmission, |s.log|);
    } else {
      EntriesAdded(s, s.calls[r], h);
      var s' := InsertEntries(s, r, h);
      LocalKeepsSeparated(s, r, s'.calls[r], s');
    }
  }

  lemma ArrivalKeepsSeparated(s: State, r: CallId, q: Request)
    requires Separated(s) && r !in s.calls
    ensures Separated(Arrive(s, r, q))
  {
    LocalKeepsSeparated(s, r, Arrive(s, r, q).calls[r], Arrive(s, r, q));
  }

  // ----- Steps that publish a version -----

  /** What a commit finds: a debit of a USER account is still covered, and its key is still new to the account. */
  lemma CommitIsSeparated(s: State, r: CallId)
    requires Separated(s) && r in s.calls && s.calls[r].phase.CommitAll?
    ensures var q := s.calls[r].q;
            && q.source in s.db.accounts && q.destination in s.db.accounts
            && (IsUser(s.db.accounts, q.source) ==>
                  HoldsSource(s.calls[r]) && Balance(s.db.entries, q.source) >= q.amount
                  && !UsedBy(s.db.headers, q.source, q.key))
            && (!IsUser(s.db.accounts, q.source) ==> s.calls[r].staged.accounts == map[])
  {
    var c := s.calls[r];
    assert CallHeld(s, c);
    assert SameKinds(s.hist[c.snap].accounts, s.db.accounts);
    if IsUser(s.db.accounts, c.q.source) {
      assert Quiet(s.hist[c.snap], s.db, c.q.source);
    }
  }

  lemma PublishVersions(s: State, s': State)
    requires Versions(s) && SameKinds(s.db.accounts, s'.db.accounts)
    requires s'.hist == s.hist + [s'.db] && |s'.log| == |s.log| + 1
    ensures Versions(s')
  {
    forall i | 0 <= i <= |s'.log|
      ensures SameKinds(s'.hist[i].accounts, s'.db.accounts)
    {
      assert i <= |s.log| ==> SameKinds(s.hist[i].accounts, s.db.accounts);
    }
  }

  /** An account whose document is left alone by a version that does not debit it stays guarded. */
  lemma PublishQuiet(s: State, s': State, a: AccountId)
    requires Versions(s) && Guarded(s) && IsUser(s.db.accounts, a) && Quiet(s.db, s'.db, a)
    requires s'.hist == s.hist + [s'.db] && |s'.log| == |s.log| + 1
    requires a in s'.stamps && s'.stamps[a] == s.stamps[a]
    ensures forall i | s'.stamps[a] <= i <= |s'.log| :: Quiet(s'.hist[i], s'.db, a)
  {
    forall i | s'.stamps[a] <= i <= |s'.log|
      ensures Quiet(s'.hist[i], s'.db, a)
    {
      assert i <= |s.log| ==> Quiet(s.hist[i], s.db, a);
    }
  }

  lemma OneMoreHeader(db: Db, h: Header, a: AccountId)
    requires h.amount > 0 && a != h.source
    ensures Quiet(db, Db(db.accounts, db.headers + [h], db.entries + [DebitFor(h), CreditFor(h)]), a)
  {
    BalanceOfPair(db.entries, h, a);
    var headers' := db.headers + [h];
    forall key | UsedBy(headers', a, key)
      ensures UsedBy(db.headers, a, key)
    {
      var i :| 0 <= i < |headers'| && headers'[i].source == a && headers'[i].key == key;
      assert db.headers[i] == headers'[i];
    }
  }

  /** What a commit does to the account documents and their stamps. */
  lemma CommitDocuments(s: State, r: CallId, h: Header)
    requires |s.hist| == |s.log| + 1 && r in s.calls && s.calls[r].phase == CommitAll(h) && CallHeld(s, s.calls[r])
    requires SameKinds(s.calls[r].view.accounts, s.db.accounts)
    ensures var s' := Commit(s, r, h);
            && SameKinds(s.db.accounts, s'.db.accounts) && s'.db.accounts.Keys == s.db.accounts.Keys
            && (IsUser(s.db.accounts, h.source) ==> h.source in s'.stamps && s'.stamps[h.source] == |s'.log|)
            && (forall a | a in s.stamps && a != h.source :: a in s'.stamps && s'.stamps[a] == s.stamps[a])
            && h.amount > 0
            && s'.db.headers == s.db.headers + [h] && s'.db.entries == s.db.entries + [DebitFor(h), CreditFor(h)]
  {
  }

  lemma CommitGuarded(s: State, r: CallId, h: Header)
    requires Separated(s) && r in s.calls && s.calls[r].phase == CommitAll(h)
    ensures Versions(Commit(s, r, h)) && Guarded(Commit(s, r, h))
  {
    var s' := Commit(s, r, h);
    assert CallHeld(s, s.calls[r]);
    assert SameKinds(s.hist[s.calls[r].snap].accounts, s.db.accounts);
    CommitDocuments(s, r, h);
    PublishVersions(s, s');
    forall a | IsUser(s'.db.accounts, a)
      ensures a in s'.stamps && s'.stamps[a] <= |s'.log|
      ensures forall i | s'.stamps[a] <= i <= |s'.log| :: Quiet(s'.hist[i], s'.db, a)
    {
      assert IsUser(s.db.accounts, a);
      if a != h.source {
        OneMoreHeader(s.db, h, a);
        PublishQuiet(s, s', a);
      }
    }
  }

  lemma CommitCovered(s: State, r: CallId, h: Header)
    requires Separated(s) && r in s.calls && s.calls[r].phase == CommitAll(h)
    ensures NoOverdraft(Commit(s, r, h).db)
  {
    var db' := Commit(s, r, h).db;
    assert CallHeld(s, s.calls[r]);
    CommitIsSeparated(s, r);
    forall a | IsUser(db'.accounts, a)
      ensures Balance(db'.entries, a) >= 0
    {
      assert IsUser(s.db.accounts, a);
      BalanceOfPair(s.db.entries, h, a);
    }
  }

  lemma OneMoreKey(db: Db, h: Header, db': Db)
    requires OncePerSource(db) && db'.headers == db.headers + [h]
    requires forall a | a in db'.accounts :: a in db.accounts && db'.accounts[a].kind == db.accounts[a].kind
    requires IsUser(db.accounts, h.source) ==> !UsedBy(db.headers, h.source, h.key)
    ensures OncePerSource(db')
  {
    forall i, j | 0 <= i < j < |db'.headers| && IsUser(db'.accounts, db'.headers[i].source)
                  && db'.headers[i].source == db'.headers[j].source
      ensures db'.headers[i].key != db'.headers[j].key
    {
      assert db'.headers[i] == db.headers[i];
    }
  }

  lemma OneMoreNamed(db: Db, h: Header, db': Db)
    requires Named(db) && h.source in db.accounts && h.destination in db.accounts
    requires db.accounts.Keys <= db'.accounts.Keys
    requires db'.headers == db.headers + [h] && db'.entries == db.entries + [DebitFor(h), CreditFor(h)]
    ensures Named(db')
  {
  }

  lemma CommitNamed(s: State, r: CallId, h: Header)
    requires Separated(s) && r in s.calls && s.calls[r].phase == CommitAll(h)
    ensures var db' := Commit(s, r, h).db; Named(db') && OncePerSource(db')
  {
    assert CallHeld(s, s.calls[r]);
    assert SameKinds(s.hist[s.calls[r].snap].accounts, s.db.accounts);
    CommitIsSeparated(s, r);
    CommitDocuments(s, r, h);
    OneMoreNamed(s.db, h, Commit(s, r, h).db);
    OneMoreKey(s.db, h, Commit(s, r, h).db);
  }

  lemma CommitHeld(s: State, r: CallId, h: Header, o: CallId)
    requires |s.hist| == |s.log| + 1 && DocumentsApart(s)
    requires r in s.calls && CallHeld(s, s.calls[r]) && s.calls[r].phase == CommitAll(h)
    requires o in s.calls && CallHeld(s, s.calls[o])
    ensures CallHeld(Commit(s, r, h), Commit(s, r, h).calls[o])
  {
    if o != r && HoldsSource(s.calls[o]) {
      assert s.calls[o].q.source in s.calls[o].staged.accounts.Keys;
    }
  }

  lemma CommitKeepsSeparated(s: State, r: CallId, h: Header)
    requires Separated(s) && r in s.calls && s.calls[r].phase == CommitAll(h)
    ensures Separated(Commit(s, r, h))
  {
    CommitGuarded(s, r, h);
    CommitCovered(s, r, h);
    CommitNamed(s, r, h);
    var s' := Commit(s, r, h);
    forall o | o in s'.calls
      ensures CallHeld(s', s'.calls[o])
    {
      assert CallHeld(s, s.calls[r]) && CallHeld(s, s.calls[o]);
      CommitHeld(s, r, h, o);
    }
    assert DocumentsApart(s');
  }

  lemma {:induction false} BalanceOfUnnamed(entries: seq<Entry>, a: AccountId)
    requires forall i | 0 <= i < |entries| :: entries[i].account != a
    ensures Balance(entries, a) == 0
  {
    if entries != [] {
      BalanceOfUnnamed(entries[..|entries| - 1], a);
    }
  }

  lemma OpeningKeepsSeparated(s: State, a: AccountId, document: Account)
    requires Separated(s) && a !in s.db.accounts
    ensures Separated(Opening(s, a, document))
  {
    var s' := Opening(s, a, document);
    PublishVersions(s, s');
    BalanceOfUnnamed(s.db.entries, a);
    forall b | IsUser(s'.db.accounts, b)
      ensures Balance(s'.db.entries, b) >= 0 && b in s'.stamps && s'.stamps[b] <= |s'.log|
      ensures forall i | s'.stamps[b] <= i <= |s'.log| :: Quiet(s'.hist[i], s'.db, b)
    {
      if b != a {
        assert IsUser(s.db.accounts, b);
        PublishQuiet(s, s', b);
      }
    }
    forall o | o in s'.calls
      ensures CallHeld(s', s'.calls[o])
    {
      assert CallHeld(s, s.calls[o]);
      if HoldsSource(s.calls[o]) {
        assert SameKinds(s.hist[s.calls[o].snap].accounts, s.db.accounts);
      }
    }
  }

  // ----- All steps, all runs -----

  lemma StepKeepsSeparated(design: Design, s: State, step: Step)
    requires design.serialise && Separated(s) && Enabled(s, step)
    ensures Separated(Apply(design, s, step))
  {
    match step {
      case Submit(r, q) => ArrivalKeepsSeparated(s, r, q);
      case Open(a, document) => OpeningKeepsSeparated(s, a, document);
      case Act(r, choice) =>
        match s.calls[r].phase {
          case Idle => BeginKeepsSeparated(s, r, choice.giveUp);
          case CheckKey => FindKeyKeepsSeparated(s, r);
          case LoadAccounts => LoadKeepsSeparated(design, s, r);
          case LockSource => LockKeepsSeparated(s, r);
          case CheckBalance => SumKeepsSeparated(s, r);
          case WriteHeader => InsertHeaderKeepsSeparated(design, s, r, choice);
          case WriteEntries(h) => InsertEntriesKeepsSeparated(s, r, h);
          case CommitAll(h) => CommitKeepsSeparated(s, r, h);
        }
    }
  }

  lemma {:induction false} RunKeepsSeparated(design: Design, s: State, steps: seq<Step>)
    requires design.serialise && Separated(s) && Legal(design, s, steps)
    ensures Separated(Execute(design, s, steps))
    decreases |steps|
  {
    if steps != [] {
      StepKeepsSeparated(design, s, steps[0]);
      RunKeepsSeparated(design, Apply(design, s, steps[0]), steps[1..]);
    }
  }

  lemma {:induction false} FirstVersionStays(design: Design, s: State, steps: seq<Step>)
    requires Legal(design, s, steps) && s.hist != []
    ensures Execute(design, s, steps).hist != [] && Execute(design, s, steps).hist[0] == s.hist[0]
    decreases |steps|
  {
    if steps != [] {
      FirstVersionStays(design, Apply(design, s, steps[0]), steps[1..]);
    }
  }

  lemma {:induction false} PairsNamed(headers: seq<Header>, accounts: map<AccountId, Account>)
    requires forall i | 0 <= i < |headers| :: Fits(accounts, headers[i])
    ensures forall i | 0 <= i < |Pairs(headers)| :: Pairs(headers)[i].account in accounts
  {
    if headers != [] {
      PairsNamed(headers[..|headers| - 1], accounts);
    }
  }

  lemma StartIsSeparated(db: Db)
    requires Sound(db)
    ensures Separated(Start(db))
  {
    PairsNamed(db.headers, db.accounts);
    assert forall i | 0 <= i < |db.headers| :: Fits(db.accounts, db.headers[i]);
  }

  // ----- What this says about the two mechanisms -----

  /** With the serialisation write, and whether or not there is a key index: no interleaving overdraws a USER
      account, and none applies two debits of one USER account under one key. */
  lemma SerialisationSeparates(design: Design, db: Db, steps: seq<Step>)
    requires design.serialise && Sound(db) && Legal(design, Start(db), steps)
    ensures var s := Execute(design, Start(db), steps);
            && NoOverdraft(s.db) && OncePerSource(s.db)
            && SameKinds(db.accounts, s.db.accounts)
  {
    StartIsSeparated(db);
    RunKeepsSeparated(design, Start(db), steps);
    var s := Execute(design, Start(db), steps);
    FirstVersionStays(design, Start(db), steps);
    assert SameKinds(s.hist[0].accounts, s.db.accounts);
  }

  /** The request has been applied more than once. */
  ghost predicate AppliedTwice(headers: seq<Header>, q: Request) {
    exists i, j :: 0 <= i < j < |headers| && headers[i] == HeaderFor(q, headers[i].id)
                   && headers[j] == HeaderFor(q, headers[j].id)
  }

  ghost predicate CanApplyTwice(design: Design, db: Db, q: Request) {
    exists steps :: Legal(design, Start(db), steps) && AppliedTwice(Execute(design, Start(db), steps).db.headers, q)
  }

  /** Without the key index, an acceptable request can be applied twice if and only if the serialisation write
      does not separate its submissions, because it is missing or because the source is a SYSTEM account. */
  lemma {:induction false} RepeatedExactly(serialise: bool, db: Db, q: Request)
    requires Sound(db) && Decide(db, q) == Accept
    ensures CanApplyTwice(Design(serialise, false), db, q) <==> !serialise || IsSystem(db.accounts, q.source)
  {
    var design := Design(serialise, false);
    if serialise && IsUser(db.accounts, q.source) {
      forall steps | Legal(design, Start(db), steps)
        ensures !AppliedTwice(Execute(design, Start(db), steps).db.headers, q)
      {
        SerialisationSeparates(design, db, steps);
      }
    } else {
      var steps := DuplicateApplication(design, db, q, 2);
      var headers := Execute(design, Start(db), steps).db.headers;
      var n := |db.headers|;
      assert headers[n] == HeaderFor(q, headers[n].id) && headers[n + 1] == HeaderFor(q, headers[n + 1].id);
    }
  }

  ghost predicate CanOverdraw(design: Design, db: Db, a: AccountId) {
    exists steps :: Legal(design, Start(db), steps) && Balance(Execute(design, Start(db), steps).db.entries, a) < 0
  }

  /** When debits of any amounts that are each acceptable alone exceed the balance of a USER account together, the
      account can be overdrawn if and only if the serialisation write is missing. */
  lemma {:induction false} OverdrawnExactly(serialise: bool, db: Db, qs: seq<Request>, a: AccountId)
    requires Sound(db) && IsUser(db.accounts, a) && Balance(db.entries, a) < TotalAmount(qs)
    requires forall i | 0 <= i < |qs| :: Decide(db, qs[i]) == Accept && qs[i].source == a
    requires forall i, j | 0 <= i < j < |qs| :: qs[i].key != qs[j].key
    ensures CanOverdraw(Design(serialise, true), db, a) <==> !serialise
  {
    var design := Design(serialise, true);
    if serialise {
      forall steps | Legal(design, Start(db), steps)
        ensures Balance(Execute(design, Start(db), steps).db.entries, a) >= 0
      {
        SerialisationSeparates(design, db, steps);
        assert IsUser(Execute(design, Start(db), steps).db.accounts, a);
      }
    } else {
      var steps := WriteSkew(db, qs, a);
      assert Legal(design, Start(db), steps);
    }
  }
}
