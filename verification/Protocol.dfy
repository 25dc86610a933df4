// The concurrent transfer protocol as a step machine. Any number of create_transfer calls are in
// flight; each runs its transaction body inside a snapshot-isolated database transaction, one database
// operation per step, and every interleaving of these steps is a run.
module Protocol {
  import opened Domain
  import opened Specification

  /** Which of the two mechanisms are in place. The application runs FULL; the others are its controls. */
  datatype Design = Design(serialise: bool, keyIndex: bool)

  const FULL := Design(true, true)

  type CallId = nat

  datatype Outcome = Committed(header: Header, attempts: nat) | Refused(error: Error)

  /** The next operation of a call. Idle: no transaction is open (not started, or to be retried). */
  datatype Phase =
    | Idle
    | CheckKey
    | LoadAccounts
    | LockSource
    | CheckBalance
    | WriteHeader
    | WriteEntries(header: Header)
    | CommitAll(header: Header)
    | Done(outcome: Outcome)

  const NOTHING := Db(map[], [], [])

  /** One create_transfer call. `view` is the snapshot of its open transaction, which is version `snap`;
      `staged` holds its uncommitted writes. History: `since` and `ended` are the versions at submission
      and at the answer, `point` is the version the answer was taken from. */
  datatype Call = Call(
    q: Request, phase: Phase, attempts: nat, view: Db, snap: nat, staged: Db, since: nat, point: nat, ended: nat)

  datatype Event =
    | Transferred(call: CallId, q: Request, id: TransactionId)
    | Opened(account: AccountId, document: Account)

  /** `db` is the committed database and `stamps` the version that last wrote each account document.
      History: `log` is what each commit did and `hist` the versions before and after each of them. */
  datatype State = State(
    db: Db, stamps: map<AccountId, nat>, calls: map<CallId, Call>, issued: set<TransactionId>,
    hist: seq<Db>, log: seq<Event>)

  /** What the scheduler decides for a step: the next ObjectId, whether the retry deadline has passed, and
      whether a key committed since the snapshot shows as DuplicateKey or as a transient conflict. */
  datatype Choice = Choice(id: TransactionId, giveUp: bool, duplicate: bool)

  /** The choice of a step that leaves nothing to decide. */
  const GO: Choice := Choice(0, false, false)

  datatype Step =
    | Submit(r: CallId, q: Request)
    | Open(account: AccountId, document: Account)
    | Act(r: CallId, choice: Choice)

  function Start(db: Db): State {
    State(db, map a | a in db.accounts :: 0, map[], set h | h in db.headers :: h.id, [db], [])
  }

  predicate Enabled(s: State, step: Step) {
    match step
    case Submit(r, _) => r !in s.calls
    case Open(a, document) => Openable(s.db, a, document) && document.status == ACTIVE
    case Act(r, choice) =>
      r in s.calls && !s.calls[r].phase.Done? && (s.calls[r].phase.WriteHeader? ==> choice.id !in s.issued)
  }

  /** The database after a transaction's staged writes are applied to it. */
  function Merge(db: Db, staged: Db): Db {
    Db(db.accounts + staged.accounts, db.headers + staged.headers, db.entries + staged.entries)
  }

  /** What the transaction of a call reads: its snapshot and its own writes. */
  function Seen(c: Call): Db {
    Merge(c.view, c.staged)
  }

  function Put(s: State, r: CallId, c: Call): State {
    s.(calls := s.calls[r := c])
  }

  function Move(s: State, r: CallId, phase: Phase): State
    requires r in s.calls
  {
    Put(s, r, s.calls[r].(phase := phase))
  }

  /** Abort the transaction and leave the call to be retried from the top. */
  function Retry(s: State, r: CallId): State
    requires r in s.calls
  {
    Put(s, r, s.calls[r].(phase := Idle, staged := NOTHING))
  }

  /** Abort the transaction and answer with an error. */
  function Refuse(s: State, r: CallId, error: Error, point: nat): State
    requires r in s.calls
  {
    Put(s, r, s.calls[r].(phase := Done(Refused(error)), staged := NOTHING, point := point, ended := |s.log|))
  }

  // ----- Conflict detection -----

  /** Another open transaction has staged a write to this account document, or a version after the
      snapshot of r has written it. */
  predicate DocumentBusy(s: State, r: CallId, a: AccountId)
    requires r in s.calls
  {
    || (exists o | o in s.calls :: o != r && a in s.calls[o].staged.accounts)
    || (a in s.stamps && s.stamps[a] > s.calls[r].snap)
  }

  predicate KeyStaged(s: State, r: CallId, key: Key) {
    exists o | o in s.calls :: o != r && UsedKey(s.calls[o].staged.headers, key)
  }

  /** The unique index on (transaction_id, direction). */
  predicate SideTaken(entries: seq<Entry>, e: Entry) {
    exists i | 0 <= i < |entries| :: entries[i].transaction == e.transaction && entries[i].direction == e.direction
  }

  predicate EntriesRejected(entries: seq<Entry>, h: Header) {
    SideTaken(entries, DebitFor(h)) || SideTaken(entries, CreditFor(h))
  }

  predicate EntriesStaged(s: State, r: CallId, h: Header) {
    exists o | o in s.calls :: o != r && EntriesRejected(s.calls[o].staged.entries, h)
  }

  // ----- The operations of the transaction body, one per phase -----

  /** with_transaction: raise once the deadline has passed, else open a transaction and run the body. */
  function Begin(s: State, r: CallId, giveUp: bool): State
    requires r in s.calls
  {
    var c := s.calls[r];
    if giveUp && c.attempts > 0 then Refuse(s, r, WriteConflict, |s.log|)
    else Put(s, r, c.(phase := CheckKey, attempts := c.attempts + 1, view := s.db, snap := |s.log|, staged := NOTHING))
  }

  function FindKey(s: State, r: CallId): State
    requires r in s.calls
  {
    var c := s.calls[r];
    if UsedKey(Seen(c).headers, c.q.key) then Refuse(s, r, DuplicateSubmission, c.snap)
    else Move(s, r, LoadAccounts)
  }

  function Load(design: Design, s: State, r: CallId): State
    requires r in s.calls
  {
    var c := s.calls[r];
    var invalid := Validate(Seen(c).accounts, c.q);
    if invalid.Some? then Refuse(s, r, invalid.value, c.snap)
    else if Seen(c).accounts[c.q.source].kind != USER then Move(s, r, WriteHeader)
    else Move(s, r, if design.serialise then LockSource else CheckBalance)
  }

  /** update_one with `$inc`: matches nothing when there is no such document. */
  function Lock(s: State, r: CallId): State
    requires r in s.calls
  {
    var c := s.calls[r];
    var a := c.q.source;
    if DocumentBusy(s, r, a) then Retry(s, r)
    else
      var accounts :=
        if a in Seen(c).accounts then c.staged.accounts[a := Incremented(Seen(c).accounts[a])] else c.staged.accounts;
      Put(s, r, c.(phase := CheckBalance, staged := c.staged.(accounts := accounts)))
  }

  function SumBalance(s: State, r: CallId): State
    requires r in s.calls
  {
    var c := s.calls[r];
    var balance := Balance(Seen(c).entries, c.q.source);
    if balance < c.q.amount then Refuse(s, r, InsufficientFunds(balance, c.q.amount - balance), c.snap)
    else Move(s, r, WriteHeader)
  }

  /** As long as the call has staged no entry, the balance is that of its snapshot. */
  lemma SumBalanceReadsSnapshot(s: State, r: CallId)
    requires r in s.calls && s.calls[r].staged.entries == []
    ensures var c := s.calls[r]; var balance := Balance(c.view.entries, c.q.source);
            SumBalance(s, r)
            == if balance < c.q.amount then Refuse(s, r, InsufficientFunds(balance, c.q.amount - balance), c.snap)
               else Move(s, r, WriteHeader)
  {
    assert Seen(s.calls[r]).entries == s.calls[r].view.entries;
  }

  function InsertHeader(design: Design, s: State, r: CallId, choice: Choice): State
    requires r in s.calls
  {
    var c := s.calls[r];
    var h := HeaderFor(c.q, choice.id);
    if !WellFormed(c.q) then Refuse(s, r, MalformedDocument, c.snap)
    else if design.keyIndex && KeyStaged(s, r, c.q.key) then Retry(s, r)
    else if design.keyIndex && UsedKey(s.db.headers, c.q.key) then
      if choice.duplicate then Refuse(s, r, DuplicateSubmission, |s.log|) else Retry(s, r)
    else
      Put(s, r, c.(phase := WriteEntries(h), staged := c.staged.(headers := c.staged.headers + [h])))
      .(issued := s.issued + {choice.id})
  }

  function InsertEntries(s: State, r: CallId, h: Header): State
    requires r in s.calls
  {
    var c := s.calls[r];
    if EntriesStaged(s, r, h) then Retry(s, r)
    else if EntriesRejected(s.db.entries, h) then Refuse(s, r, DuplicateSubmission, |s.log|)
    else
      var entries := c.staged.entries + [DebitFor(h), CreditFor(h)];
      Put(s, r, c.(phase := CommitAll(h), staged := c.staged.(entries := entries)))
  }

  /** Publish all staged writes as the next version. */
  function Commit(s: State, r: CallId, h: Header): State
    requires r in s.calls
  {
    var c := s.calls[r];
    var db' := Merge(s.db, c.staged);
    var version := |s.log| + 1;
    var c' := c.(phase := Done(Committed(h, c.attempts)), staged := NOTHING, point := |s.log|, ended := version);
    State(db', s.stamps + (map a | a in c.staged.accounts :: version), s.calls[r := c'], s.issued,
          s.hist + [db'], s.log + [Transferred(r, c.q, h.id)])
  }

  function Perform(design: Design, s: State, r: CallId, choice: Choice): (s': State)
    requires r in s.calls
    ensures r in s'.calls
  {
    match s.calls[r].phase
    case Idle => Begin(s, r, choice.giveUp)
    case CheckKey => FindKey(s, r)
    case LoadAccounts => Load(design, s, r)
    case LockSource => Lock(s, r)
    case CheckBalance => SumBalance(s, r)
    case WriteHeader => InsertHeader(design, s, r, choice)
    case WriteEntries(h) => InsertEntries(s, r, h)
    case CommitAll(h) => Commit(s, r, h)
    case Done(_) => s
  }

  /** A step of a call other than its commit changes only that call and the ids in use. */
  lemma StepsAreLocal(design: Design, s: State, r: CallId, choice: Choice)
    requires r in s.calls && !s.calls[r].phase.CommitAll?
    ensures var s' := Perform(design, s, r, choice);
            r in s'.calls && s' == s.(calls := s.calls[r := s'.calls[r]], issued := s'.issued)
            && s.issued <= s'.issued
  {
    match s.calls[r].phase {
      case Idle =>
      case CheckKey =>
      case LoadAccounts =>
      case LockSource =>
      case CheckBalance =>
      case WriteHeader =>
      case WriteEntries(h) =>
      case Done(_) => assert s.calls[r := s.calls[r]] == s.calls;
    }
  }

  /** A new call. A transfer from an account to itself is refused before any transaction is opened. */
  function Arrive(s: State, r: CallId, q: Request): State {
    var now := |s.log|;
    Put(s, r, Call(q, if q.source == q.destination then Done(Refused(SameAccount)) else Idle,
                   0, s.db, now, NOTHING, now, now, now))
  }

  function Opening(s: State, a: AccountId, document: Account): State {
    var db' := OpenAccount(s.db, a, document);
    State(db', s.stamps[a := |s.log| + 1], s.calls, s.issued, s.hist + [db'], s.log + [Opened(a, document)])
  }

  function Apply(design: Design, s: State, step: Step): State
    requires Enabled(s, step)
  {
    match step
    case Submit(r, q) => Arrive(s, r, q)
    case Open(a, document) => Opening(s, a, document)
    case Act(r, choice) => Perform(design, s, r, choice)
  }

  // ----- Runs -----

  /** There is always an ObjectId that has not been issued. */
  lemma {:induction false} FreshId(ids: set<TransactionId>) returns (id: TransactionId)
    ensures forall x | x in ids :: x < id
    decreases |ids|
  {
    if ids == {} {
      id := 0;
    } else {
      var x :| x in ids;
      id := FreshId(ids - {x});
      id := if x < id then id else x + 1;
      assert ids == (ids - {x}) + {x};
    }
  }

  predicate Legal(design: Design, s: State, steps: seq<Step>)
    decreases |steps|
  {
    steps == [] || (Enabled(s, steps[0]) && Legal(design, Apply(design, s, steps[0]), steps[1..]))
  }

  function Execute(design: Design, s: State, steps: seq<Step>): State
    requires Legal(design, s, steps)
    decreases |steps|
  {
    if steps == [] then s else Execute(design, Apply(design, s, steps[0]), steps[1..])
  }

  /** Runs compose. */
  lemma {:induction false} ExecuteAppend(design: Design, s: State, first: seq<Step>, second: seq<Step>)
    requires Legal(design, s, first)
    requires Legal(design, Execute(design, s, first), second)
    ensures Legal(design, s, first + second)
    ensures Execute(design, s, first + second) == Execute(design, Execute(design, s, first), second)
    decreases |first|
  {
    if first == [] {
      assert first + second == second;
    } else {
      ExecuteAppend(design, Apply(design, s, first[0]), first[1..], second);
      assert (first + second)[1..] == first[1..] + second;
    }
  }

  lemma {:induction false} ExecuteSplit(design: Design, s: State, first: seq<Step>, second: seq<Step>)
    requires Legal(design, s, first + second)
    ensures Legal(design, s, first) && Legal(design, Execute(design, s, first), second)
    ensures Execute(design, s, first + second) == Execute(design, Execute(design, s, first), second)
    decreases |first|
  {
    if first == [] {
      assert first + second == second;
    } else {
      assert (first + second)[1..] == first[1..] + second;
      ExecuteSplit(design, Apply(design, s, first[0]), first[1..], second);
    }
  }
}
