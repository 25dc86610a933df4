// The ledger service as the application writes it: the transaction body with its branches, and the retry
// loop around it. Every database operation is a step of the protocol machine, other requests take any legal
// steps between any two operations, and the result is shown to be the one the machine reaches.
module LedgerService {
  import opened Domain
  import opened Specification
  import opened Protocol
  import opened Invariant
  import opened Guarantees
  import opened Aggregation

  /** The database with everything in flight. `trace` is the schedule that led from the sound ledger `origin`
      to here. */
  class Database {
    ghost const origin: Db
    ghost var trace: seq<Step>
    var world: State

    ghost predicate Valid()
      reads this
    {
      Run(origin, trace) && world == Final(origin, trace)
    }

    constructor (db: Db)
      requires Sound(db)
      ensures Valid() && world == Start(db) && trace == []
    {
      origin := db;
      world := Start(db);
      trace := [];
    }

    /** One step of the machine. */
    method Take(step: Step)
      requires Valid() && Enabled(world, step)
      modifies this
      ensures Valid() && trace == old(trace) + [step] && world == Apply(FULL, old(world), step)
    {
      ghost var next := [step];
      assert next[1..] == [];
      ExecuteAppend(FULL, Start(origin), trace, next);
      trace := trace + next;
      world := Apply(FULL, world, step);
    }

    /** What other requests do between two operations of call r: any legal steps but its own. Callers know
        nothing else about the database afterwards. */
    method Others(r: CallId)
      requires Valid()
      modifies this
      ensures Valid() && Interfered(r, old(trace), trace)
      ensures r in world.calls <==> r in old(world).calls
      ensures r in world.calls ==> world.calls[r] == old(world).calls[r]
    {
    }

    method NewObjectId() returns (id: TransactionId)
      ensures id !in world.issued
    {
      var rest := world.issued;
      id := 0;
      while rest != {}
        invariant rest <= world.issued
        invariant forall x | x in world.issued :: x in rest || x < id
        decreases |rest|
      {
        var x: TransactionId :| x in rest;
        id := if x < id then id else x + 1;
        rest := rest - {x};
      }
    }

    /** transactions.find_one on the key, in the transaction of call r. */
    method FindByKey(r: CallId, key: Key) returns (found: bool)
      requires r in world.calls
      ensures found <==> UsedKey(Seen(world.calls[r]).headers, key)
    {
      var headers := Seen(world.calls[r]).headers;
      found := false;
      for i := 0 to |headers|
        invariant found <==> exists j | 0 <= j < i :: headers[j].key == key
      {
        found := found || headers[i].key == key;
      }
    }

    /** accounts.find_one on the id, in the transaction of call r. */
    method FindAccount(r: CallId, a: AccountId) returns (document: Option<Account>)
      requires r in world.calls
      ensures document == if a in Seen(world.calls[r]).accounts then Some(Seen(world.calls[r]).accounts[a]) else None
    {
      var accounts := Seen(world.calls[r]).accounts;
      document := if a in accounts then Some(accounts[a]) else None;
    }

    /** accounts.update_one with `$inc` on the source: a conflict aborts the transaction. */
    method IncrementCounter(r: CallId) returns (conflict: bool)
      requires Valid() && r in world.calls && world.calls[r].phase.LockSource?
      modifies this
      ensures Valid() && trace == old(trace) + [Act(r, GO)] && world == Lock(old(world), r)
      ensures conflict <==> DocumentBusy(old(world), r, old(world).calls[r].q.source)
    {
      conflict := DocumentBusy(world, r, world.calls[r].q.source);
      Take(Act(r, GO));
    }

    /** transactions.insert_one of a well-formed header. A key that was committed after the snapshot shows
        either as a transient conflict or as a DuplicateKeyError. */
    method InsertHeaderDocument(r: CallId, id: TransactionId) returns (result: WriteResult)
      requires Valid() && r in world.calls && world.calls[r].phase.WriteHeader? && WellFormed(world.calls[r].q)
      requires id !in world.issued
      modifies this
      ensures Valid() && old(trace) < trace && world.calls.Keys == old(world).calls.Keys
      ensures var before, after := old(world).calls[r], world.calls[r];
              && after.q == before.q && after.attempts == before.attempts
              && match result
                 case Written => after.phase == WriteEntries(HeaderFor(before.q, id))
                 case Conflict => after.phase == Idle
                 case Duplicate => after.phase == Done(Refused(DuplicateSubmission))
    {
      var key := world.calls[r].q.key;
      var showsAsDuplicate: bool := *;
      result :=
        if KeyStaged(world, r, key) then Conflict
        else if UsedKey(world.db.headers, key) then (if showsAsDuplicate then Duplicate else Conflict)
        else Written;
      Take(Act(r, Choice(id, false, showsAsDuplicate)));
    }

    /** ledger_entries.insert_many of both entries of the header that call r has inserted. The index on
        (transaction_id, direction) has nothing to refuse. */
    method InsertBothEntries(r: CallId, debit: Entry, credit: Entry)
      requires Valid() && r in world.calls && world.calls[r].phase.WriteEntries?
      requires debit == DebitFor(world.calls[r].phase.header) && credit == CreditFor(world.calls[r].phase.header)
      modifies this
      ensures Valid() && trace == old(trace) + [Act(r, GO)] && world.calls.Keys == old(world).calls.Keys
      ensures var before, after := old(world).calls[r], world.calls[r];
              after == before.(phase := CommitAll(before.phase.header),
                               staged := before.staged.(entries := [debit, credit]))
    {
      ReachableInv(origin, trace);
      EntryIndexNeverFires(world, r);
      assert CallOk(world, r, world.calls[r]);
      Take(Act(r, GO));
    }
  }

  /** How an insert ends: done, a conflict labelled transient, or a DuplicateKeyError. */
  datatype WriteResult = Written | Conflict | Duplicate

  /** The steps after `before` in `after`, none of them taken by call r. */
  ghost predicate Interfered(r: CallId, before: seq<Step>, after: seq<Step>) {
    && before <= after
    && forall i | |before| <= i < |after| :: !TakenBy(after[i], r)
  }

  predicate TakenBy(step: Step, r: CallId) {
    match step
    case Submit(o, _) => o == r
    case Act(o, _) => o == r
    case Open(_, _) => false
  }

  /** _Attempt. */
  class Attempt {
    var count: nat

    constructor ()
      ensures count == 0
    {
      count := 0;
    }
  }

  /** _validate_participants on the two documents that were loaded: each error exactly under its condition on
      them, and none exactly if both exist, are ACTIVE and have the requested currency. */
  method ValidateParticipants(source: Option<Account>, destination: Option<Account>, currency: Currency)
    returns (error: Option<Error>)
    ensures error == Some(AccountNotFound(SOURCE)) <==> source.None?
    ensures error == Some(AccountNotFound(DESTINATION)) <==> source.Some? && destination.None?
    ensures error == Some(AccountNotActive(SOURCE)) <==>
            source.Some? && destination.Some? && source.value.status != ACTIVE
    ensures error == Some(AccountNotActive(DESTINATION)) <==>
            source.Some? && destination.Some? && source.value.status == ACTIVE && destination.value.status != ACTIVE
    ensures error == None <==>
            && source.Some? && source.value.status == ACTIVE && source.value.currency == currency
            && destination.Some? && destination.value.status == ACTIVE && destination.value.currency == currency
    ensures error.Some? ==>
              error.value.AccountNotFound? || error.value.AccountNotActive? || error.value.CurrencyMismatch?
    ensures forall accounts, q | Loaded(accounts, q, source, destination) && q.currency == currency ::
              error == Validate(accounts, q)
  {
    if source.None? {
      return Some(AccountNotFound(SOURCE));
    }
    if destination.None? {
      return Some(AccountNotFound(DESTINATION));
    }
    var sides := [(SOURCE, source.value), (DESTINATION, destination.value)];
    for i := 0 to 2
      invariant forall j | 0 <= j < i :: sides[j].1.status == ACTIVE
    {
      if sides[i].1.status != ACTIVE {
        assert i == 1 ==> sides[0].1.status == ACTIVE;
        return Some(AccountNotActive(sides[i].0));
      }
    }
    assert sides[0].1.status == ACTIVE && sides[1].1.status == ACTIVE;
    if source.value.currency != currency || destination.value.currency != currency {
      return Some(CurrencyMismatch);
    }
    return None;
  }

  /** The documents are what the accounts hold for the two sides of the request. */
  predicate Loaded(
    accounts: map<AccountId, Account>, q: Request, source: Option<Account>, destination: Option<Account>)
  {
    && source == (if q.source in accounts then Some(accounts[q.source]) else None)
    && destination == (if q.destination in accounts then Some(accounts[q.destination]) else None)
  }

  /** How the transaction body ends: it returns a result, raises an application error, or raises a driver
      error, which is either labelled transient or a DuplicateKeyError. */
  datatype BodyResult = Returned(header: Header) | Raised(error: Error) | Transient | DuplicateKey

  /** Where the machine stands when the body has ended. */
  predicate Matches(phase: Phase, result: BodyResult) {
    match result
    case Returned(h) => phase == CommitAll(h)
    case Raised(e) => phase == Done(Refused(e)) && e != WriteConflict
    case Transient => phase == Idle
    case DuplicateKey => phase == Done(Refused(DuplicateSubmission))
  }

  /** What every part of the body keeps for its caller. */
  twostate predicate Ran(db: Database, r: CallId)
    reads db
  {
    && old(db.Valid()) && db.Valid()
    && old(db.trace) <= db.trace
    && r in old(db.world).calls && r in db.world.calls
    && db.world.calls[r].q == old(db.world).calls[r].q
  }

  /** Step 1 of the body: open the transaction and check the key. */
  method CheckIdempotency(db: Database, r: CallId, q: Request) returns (error: Option<Error>)
    requires db.Valid() && r in db.world.calls && db.world.calls[r].q == q && db.world.calls[r].phase.Idle?
    modifies db
    ensures Ran(db, r) && db.world.calls[r].attempts == old(db.world).calls[r].attempts + 1
    ensures db.world.calls[r].phase
         == if error.Some? then Done(Refused(error.value)) else LoadAccounts
    ensures error != Some(WriteConflict)
  {
    db.Take(Act(r, GO));
    db.Others(r);
    var alreadyApplied := db.FindByKey(r, q.key);
    db.Take(Act(r, GO));
    error := if alreadyApplied then Some(DuplicateSubmission) else None;
  }

  /** Step 2 of the body: load and validate both accounts. */
  method LoadAndValidate(db: Database, r: CallId, q: Request) returns (error: Option<Error>, isUser: bool)
    requires db.Valid() && r in db.world.calls && db.world.calls[r].q == q && db.world.calls[r].phase.LoadAccounts?
    modifies db
    ensures Ran(db, r) && db.world.calls[r].attempts == old(db.world).calls[r].attempts
    ensures db.world.calls[r].phase
         == if error.Some? then Done(Refused(error.value)) else if isUser then LockSource else WriteHeader
    ensures error != Some(WriteConflict)
  {
    db.Others(r);
    var source := db.FindAccount(r, q.source);
    var destination := db.FindAccount(r, q.destination);
    error := ValidateParticipants(source, destination, q.currency);
    assert Loaded(Seen(db.world.calls[r]).accounts, q, source, destination);
    isUser := source.Some? && source.value.kind == USER;
    db.Take(Act(r, GO));
  }

  /** Step 3 of the body: the serialisation write, then the sufficiency check. */
  method SerialiseAndCheck(db: Database, r: CallId, q: Request) returns (result: Option<BodyResult>)
    requires db.Valid() && r in db.world.calls && db.world.calls[r].q == q && db.world.calls[r].phase.LockSource?
    modifies db
    ensures Ran(db, r) && db.world.calls[r].attempts == old(db.world).calls[r].attempts
    ensures match result
            case None => db.world.calls[r].phase == WriteHeader
            case Some(ended) => !ended.Returned? && Matches(db.world.calls[r].phase, ended)
  {
    db.Others(r);
    var conflict := db.IncrementCounter(r);
    if conflict {
      return Some(Transient);
    }
    db.Others(r);
    MatchedNetIsBalance(Seen(db.world.calls[r]).entries, q.source);
    var balance := ComputeBalance(Seen(db.world.calls[r]).entries, q.source);
    db.Take(Act(r, GO));
    if balance.balance < q.amount {
      return Some(Raised(InsufficientFunds(balance.balance, q.amount - balance.balance)));
    }
    return None;
  }

  /** Step 4 of the body: the header, whose key the unique index may refuse. */
  method WriteHeaderDocument(db: Database, r: CallId, q: Request)
    returns (result: Option<BodyResult>, header: Header)
    requires db.Valid() && r in db.world.calls && db.world.calls[r].q == q && db.world.calls[r].phase.WriteHeader?
    modifies db
    ensures Ran(db, r) && db.world.calls[r].attempts == old(db.world).calls[r].attempts
    ensures header == HeaderFor(q, header.id)
    ensures match result
            case None => db.world.calls[r].phase == WriteEntries(header)
            case Some(ended) => !ended.Returned? && Matches(db.world.calls[r].phase, ended)
  {
    db.Others(r);
    var id := db.NewObjectId();
    header := HeaderFor(q, id);
    if !WellFormed(q) {
      db.Take(Act(r, Choice(id, false, false)));
      return Some(Raised(MalformedDocument)), header;
    }
    var inserted := db.InsertHeaderDocument(r, id);
    match inserted {
      case Written => return None, header;
      case Conflict => return Some(Transient), header;
      case Duplicate => return Some(DuplicateKey), header;
    }
  }

  /** Step 5 of the body: both entries, built from the new id and the arguments; no index refuses them. */
  method WriteBothEntries(db: Database, r: CallId, q: Request, id: TransactionId)
    requires db.Valid() && r in db.world.calls && db.world.calls[r].q == q
    requires db.world.calls[r].phase == WriteEntries(HeaderFor(q, id))
    modifies db
    ensures Ran(db, r) && db.world.calls[r].attempts == old(db.world).calls[r].attempts
    ensures db.world.calls[r].phase == CommitAll(HeaderFor(q, id))
  {
    db.Others(r);
    ReachableInv(db.origin, db.trace);
    assert CallOk(db.world, r, db.world.calls[r]);
    var debit := CreateEntry(id, q.source, DEBIT, q.amount, q.currency);
    var credit := CreateEntry(id, q.destination, CREDIT, q.amount, q.currency);
    db.InsertBothEntries(r, debit.value, credit.value);
  }

  /** _apply_transfer: the transaction body, re-run from the top on a transient error. */
  method ApplyTransfer(db: Database, r: CallId, q: Request, attempt: Attempt) returns (result: BodyResult)
    requires db.Valid() && r in db.world.calls && db.world.calls[r].q == q && db.world.calls[r].phase.Idle?
    requires attempt.count == db.world.calls[r].attempts
    modifies db, attempt
    ensures Ran(db, r)
    ensures attempt.count == old(attempt.count) + 1 && attempt.count == db.world.calls[r].attempts
    ensures Matches(db.world.calls[r].phase, result)
  {
    attempt.count := attempt.count + 1;
    var error := CheckIdempotency(db, r, q);
    if error.Some? {
      return Raised(error.value);
    }
    var invalid, sourceIsUserAccount := LoadAndValidate(db, r, q);
    if invalid.Some? {
      return Raised(invalid.value);
    }
    if sourceIsUserAccount {
      var ended := SerialiseAndCheck(db, r, q);
      if ended.Some? {
        return ended.value;
      }
    }
    var refused, header := WriteHeaderDocument(db, r, q);
    if refused.Some? {
      return refused.value;
    }
    WriteBothEntries(db, r, q, header.id);
    return Returned(header);
  }

  /** create_transfer: refuse a transfer to the same account, then run the body in a transaction, retrying
      transient failures until the deadline. The outcome is the one the protocol machine records for the call,
      after a legal schedule of this call's steps among those of all others; unless it is WRITE_CONFLICT it is
      what the sequential ledger answers at one instant of the call. Only the attempt count survives an abort. */
  method CreateTransfer(db: Database, r: CallId, q: Request, deadline: nat) returns (outcome: Outcome)
    requires db.Valid() && r !in db.world.calls
    modifies db
    ensures db.Valid() && old(db.trace) <= db.trace
    ensures r in db.world.calls && db.world.calls[r].q == q && db.world.calls[r].phase == Done(outcome)
    ensures outcome == Refused(SameAccount) <==> q.source == q.destination
    ensures outcome.Committed? ==>
              outcome.attempts == db.world.calls[r].attempts && outcome.header in db.world.db.headers
              && outcome.header == HeaderFor(q, outcome.header.id)
    ensures outcome.Refused? ==> forall i | 0 <= i < |db.world.log| :: !CommitOf(db.world.log[i], r)
    ensures db.world.calls[r].attempts <= deadline + 1
    ensures outcome == Refused(WriteConflict) ==> db.world.calls[r].attempts == deadline + 1
    ensures outcome != Refused(WriteConflict) ==>
              Chained(db.world)
              && exists i :: |old(db.world).log| <= i <= |db.world.log| && AnswersAt(db.world, r, i)
  {
    db.Others(r);
    db.Take(Submit(r, q));
    if q.source == q.destination {
      outcome := Refused(SameAccount);
    } else {
      var attempt := new Attempt();
      outcome := WithTransaction(db, r, q, attempt, deadline);
    }
    CallIsAnswered(db.origin, old(db.trace), db.trace, r, outcome);
  }

  /** What the trace of the database says about a call that was submitted and answered in its course. */
  lemma CallIsAnswered(ledger: Db, before: seq<Step>, after: seq<Step>, r: CallId, outcome: Outcome)
    requires Run(ledger, before) && Run(ledger, after) && before <= after
    requires r !in Final(ledger, before).calls && r in Final(ledger, after).calls
    requires Final(ledger, after).calls[r].phase == Done(outcome)
    ensures var s, s' := Final(ledger, before), Final(ledger, after);
            && Chained(s')
            && (outcome.Refused? ==> forall i | 0 <= i < |s'.log| :: !CommitOf(s'.log[i], r))
            && (outcome != Refused(WriteConflict) ==> exists i :: |s.log| <= i <= |s'.log| && AnswersAt(s', r, i))
            && (outcome.Committed? ==>
                  outcome.attempts == s'.calls[r].attempts && outcome.header in s'.db.headers
                  && outcome.header == HeaderFor(s'.calls[r].q, outcome.header.id))
  {
    var s, s', rest := Final(ledger, before), Final(ledger, after), after[|before|..];
    ReachableInv(ledger, before);
    ReachableInv(ledger, after);
    assert after == before + rest;
    ExecuteSplit(FULL, Start(ledger), before, rest);
    AllOrNothing(ledger, after, r);
    if outcome != Refused(WriteConflict) {
      Linearizable(s, rest, r);
    }
    if outcome.Committed? {
      CommittedHeaderIsStored(s', r);
      assert CallOk(s', r, s'.calls[r]);
    }
  }

  /** session.with_transaction with the callback of create_transfer, and the error mapping around it. */
  method WithTransaction(db: Database, r: CallId, q: Request, attempt: Attempt, deadline: nat)
    returns (outcome: Outcome)
    requires db.Valid() && r in db.world.calls && db.world.calls[r].q == q && db.world.calls[r].phase.Idle?
    requires attempt.count == db.world.calls[r].attempts == 0
    modifies db, attempt
    ensures Ran(db, r) && db.world.calls[r].phase == Done(outcome)
    ensures 1 <= attempt.count == db.world.calls[r].attempts
    ensures attempt.count <= deadline + 1
    ensures outcome == Refused(WriteConflict) ==> attempt.count == deadline + 1
    ensures outcome.Committed? ==> outcome.attempts == attempt.count
  {
    var left := deadline;
    while true
      invariant Ran(db, r) && db.world.calls[r].phase.Idle?
      invariant attempt.count == db.world.calls[r].attempts && attempt.count + left == deadline
      decreases left
    {
      db.Others(r);
      var result := ApplyTransfer(db, r, q, attempt);
      db.Others(r);
      match result {
        case Returned(header) =>
          db.Take(Act(r, GO));
          return Committed(header, attempt.count);
        case Raised(error) =>
          return Refused(error);
        case DuplicateKey =>
          return Refused(DuplicateSubmission);
        case Transient =>
          if left == 0 {
            db.Take(Act(r, Choice(0, true, false)));
            return Refused(WriteConflict);
          }
          left := left - 1;
      }
    }
  }
}
