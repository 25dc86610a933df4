// The sequential ledger: what one transfer means when nothing else runs.
module Specification {
  import opened Domain

  datatype Verdict = Accept | Reject(error: Error)

  /** _validate_participants: existence, status, then currency, in that order. */
  function Validate(accounts: map<AccountId, Account>, q: Request): Option<Error> {
    if q.source !in accounts then Some(AccountNotFound(SOURCE))
    else if q.destination !in accounts then Some(AccountNotFound(DESTINATION))
    else if accounts[q.source].status != ACTIVE then Some(AccountNotActive(SOURCE))
    else if accounts[q.destination].status != ACTIVE then Some(AccountNotActive(DESTINATION))
    else if accounts[q.source].currency != q.currency || accounts[q.destination].currency != q.currency then
      Some(CurrencyMismatch)
    else None
  }

  predicate IsUser(accounts: map<AccountId, Account>, a: AccountId) {
    a in accounts && accounts[a].kind == USER
  }

  predicate IsSystem(accounts: map<AccountId, Account>, a: AccountId) {
    a in accounts && accounts[a].kind == SYSTEM
  }

  /** The answer to a request that runs alone against one version of the database. */
  function Decide(db: Db, q: Request): Verdict {
    if q.source == q.destination then Reject(SameAccount)
    else if UsedKey(db.headers, q.key) then Reject(DuplicateSubmission)
    else
      var invalid := Validate(db.accounts, q);
      if invalid.Some? then Reject(invalid.value)
      else
        var balance := Balance(db.entries, q.source);
        if db.accounts[q.source].kind == USER && balance < q.amount then
          Reject(InsufficientFunds(balance, q.amount - balance))
        else if !WellFormed(q) then Reject(MalformedDocument)
        else Accept
  }

  /** What validation answers, in terms of the two documents alone: each error exactly under its condition, and
      none exactly if both accounts exist, are ACTIVE and have the currency of the request. */
  lemma ValidationIsExact(accounts: map<AccountId, Account>, q: Request)
    ensures var answer := Validate(accounts, q);
            var both := q.source in accounts && q.destination in accounts;
            && (answer == Some(AccountNotFound(SOURCE)) <==> q.source !in accounts)
            && (answer == Some(AccountNotFound(DESTINATION)) <==> q.source in accounts && q.destination !in accounts)
            && (answer == Some(AccountNotActive(SOURCE)) <==> both && accounts[q.source].status != ACTIVE)
            && (answer == Some(AccountNotActive(DESTINATION)) <==>
                  both && accounts[q.source].status == ACTIVE && accounts[q.destination].status != ACTIVE)
            && (answer == Some(CurrencyMismatch) <==>
                  both && accounts[q.source].status == ACTIVE && accounts[q.destination].status == ACTIVE
                  && !(accounts[q.source].currency == q.currency && accounts[q.destination].currency == q.currency))
            && (answer == None <==>
                  both && accounts[q.source].status == ACTIVE && accounts[q.destination].status == ACTIVE
                  && accounts[q.source].currency == q.currency && accounts[q.destination].currency == q.currency)
  {
  }

  /** Two different existing ACTIVE accounts of the request's currency. */
  predicate Usable(accounts: map<AccountId, Account>, q: Request) {
    && q.source != q.destination
    && q.source in accounts && accounts[q.source].status == ACTIVE && accounts[q.source].currency == q.currency
    && q.destination in accounts && accounts[q.destination].status == ACTIVE
    && accounts[q.destination].currency == q.currency
  }

  /** A USER source must hold the amount; a SYSTEM source need not. */
  predicate Affordable(db: Db, q: Request) {
    q.source in db.accounts && db.accounts[q.source].kind == USER ==> q.amount <= Balance(db.entries, q.source)
  }

  /** What a request that runs alone is answered: it is accepted exactly if its key is new, its accounts are
      usable, it is affordable and its fields are well formed; a used key is reported before anything about the
      accounts, and insufficient funds with the balance and what is missing, before malformed fields. */
  lemma DecisionIsExact(db: Db, q: Request)
    ensures var answer := Decide(db, q);
            && (answer == Accept <==>
                  !UsedKey(db.headers, q.key) && Usable(db.accounts, q) && Affordable(db, q)
                  && q.amount > 0 && IsKey(q.key) && IsCurrencyCode(q.currency))
            && (answer == Reject(SameAccount) <==> q.source == q.destination)
            && (answer == Reject(DuplicateSubmission) <==> q.source != q.destination && UsedKey(db.headers, q.key))
            && (forall balance, shortfall :: answer == Reject(InsufficientFunds(balance, shortfall)) <==>
                  && !UsedKey(db.headers, q.key) && Usable(db.accounts, q) && db.accounts[q.source].kind == USER
                  && balance == Balance(db.entries, q.source) && shortfall == q.amount - balance && shortfall > 0)
            && (answer == Reject(MalformedDocument) <==>
                  && !UsedKey(db.headers, q.key) && Usable(db.accounts, q) && Affordable(db, q)
                  && !(q.amount > 0 && IsKey(q.key) && IsCurrencyCode(q.currency)))
            && answer != Reject(WriteConflict)
  {
    ValidationIsExact(db.accounts, q);
  }

  /** The effect of an accepted transfer: counter, header and both entries at once. */
  function AtomicTransfer(db: Db, q: Request, id: TransactionId): Db {
    var h := HeaderFor(q, id);
    Db(if IsUser(db.accounts, q.source)
       then db.accounts[q.source := Incremented(db.accounts[q.source])] else db.accounts,
       db.headers + [h],
       db.entries + [DebitFor(h), CreditFor(h)])
  }

  /** What an accepted transfer does: it adds one header with the arguments of the request and its two entries,
      moves the amount from the source to the destination and touches no other balance, and changes no document
      but that of a USER source, whose counter goes up by one. */
  lemma TransferIsExact(db: Db, q: Request, id: TransactionId)
    requires Decide(db, q) == Accept
    ensures var db' := AtomicTransfer(db, q, id);
            && db'.headers == db.headers + [Header(id, q.key, q.kind, q.source, q.destination, q.amount, q.currency,
                                                   q.submitter)]
            && db'.entries == db.entries + [Entry(id, q.source, DEBIT, q.amount, -q.amount, q.currency),
                                            Entry(id, q.destination, CREDIT, q.amount, q.amount, q.currency)]
            && Balance(db'.entries, q.source) == Balance(db.entries, q.source) - q.amount
            && Balance(db'.entries, q.destination) == Balance(db.entries, q.destination) + q.amount
            && (forall a | a != q.source && a != q.destination ::
                  Balance(db'.entries, a) == Balance(db.entries, a))
            && db'.accounts.Keys == db.accounts.Keys
            && (forall a | a in db.accounts && !(a == q.source && db.accounts[a].kind == USER) ::
                  db'.accounts[a] == db.accounts[a])
            && (db.accounts[q.source].kind == USER ==>
                  var before, after := db.accounts[q.source], db'.accounts[q.source];
                  after == before.(counter := Some(if before.counter.None? then 1 else before.counter.value + 1)))
  {
    forall a: AccountId
      ensures Balance(AtomicTransfer(db, q, id).entries, a)
           == Balance(db.entries, a) - (if q.source == a then q.amount else 0)
              + (if q.destination == a then q.amount else 0)
    {
      BalanceOfPair(db.entries, HeaderFor(q, id), a);
    }
  }

  // ----- Soundness of one version -----

  ghost predicate UniqueKeysAndIds(headers: seq<Header>) {
    forall i, j | 0 <= i < j < |headers| :: headers[i].key != headers[j].key && headers[i].id != headers[j].id
  }

  /** The debit and the credit of every header, in commit order. */
  function Pairs(headers: seq<Header>): seq<Entry> {
    if headers == [] then []
    else
      var last := headers[|headers| - 1];
      Pairs(headers[..|headers| - 1]) + [DebitFor(last), CreditFor(last)]
  }

  /** A header moves a positive amount between two different existing accounts of its currency. */
  predicate Fits(accounts: map<AccountId, Account>, h: Header) {
    && h.source in accounts && h.destination in accounts && h.source != h.destination
    && accounts[h.source].currency == h.currency == accounts[h.destination].currency
    && h.amount > 0
    && IsCurrencyCode(h.currency)
  }

  function DebitCount(headers: seq<Header>, a: AccountId): nat {
    if headers == [] then 0
    else
      DebitCount(headers[..|headers| - 1], a) + if headers[|headers| - 1].source == a then 1 else 0
  }

  /** The counter of a document that committed debits have incremented n times. */
  function CounterAfter(n: nat): Option<nat> {
    if n == 0 then None else Some(n)
  }

  ghost predicate AccountsOk(accounts: map<AccountId, Account>) {
    && (forall a | a in accounts :: accounts[a].kind == SYSTEM ==> accounts[a].owner == None)
    && (forall a, b | IsSystem(accounts, a) && IsSystem(accounts, b) && a != b ::
          accounts[a].currency != accounts[b].currency)
  }

  /** SYSTEM accounts are as they are provisioned: without an owner, ACTIVE, and without a counter. */
  predicate BoundariesReady(accounts: map<AccountId, Account>) {
    forall a | a in accounts && accounts[a].kind == SYSTEM ::
      accounts[a].owner == None && accounts[a].status == ACTIVE && accounts[a].counter == None
  }

  /** Accounts are only added, and SYSTEM accounts only as they are provisioned. */
  ghost predicate Grew(before: map<AccountId, Account>, after: map<AccountId, Account>) {
    && (forall a | a in before :: a in after && after[a] == before[a])
    && (forall a | a in after && a !in before && after[a].kind == SYSTEM ::
          after[a] == Account(None, SYSTEM, after[a].currency, ACTIVE, None))
  }

  ghost predicate NoOverdraft(db: Db) {
    forall a | IsUser(db.accounts, a) :: Balance(db.entries, a) >= 0
  }

  ghost predicate CountersExact(db: Db) {
    forall a | a in db.accounts ::
      db.accounts[a].counter
      == CounterAfter(if db.accounts[a].kind == USER then DebitCount(db.headers, a) else 0)
  }

  ghost predicate AllFit(db: Db) {
    forall i | 0 <= i < |db.headers| :: Fits(db.accounts, db.headers[i])
  }

  ghost predicate Sound(db: Db) {
    && AccountsOk(db.accounts)
    && UniqueKeysAndIds(db.headers)
    && AllFit(db)
    && db.entries == Pairs(db.headers)
    && NoOverdraft(db)
    && CountersExact(db)
  }

  lemma {:induction false} DebitCountOfUnusedAccount(headers: seq<Header>, a: AccountId)
    requires forall i | 0 <= i < |headers| :: headers[i].source != a
    ensures DebitCount(headers, a) == 0
  {
    if headers != [] {
      DebitCountOfUnusedAccount(headers[..|headers| - 1], a);
    }
  }

  lemma {:induction false} BalanceOfUnusedAccount(headers: seq<Header>, a: AccountId)
    requires forall i | 0 <= i < |headers| :: headers[i].source != a && headers[i].destination != a
    ensures Balance(Pairs(headers), a) == 0
  {
    if headers != [] {
      var n := |headers| - 1;
      BalanceOfUnusedAccount(headers[..n], a);
      BalanceOfPair(Pairs(headers[..n]), headers[n], a);
    }
  }

  lemma TransferKeepsShape(db: Db, q: Request, id: TransactionId)
    requires Sound(db) && Decide(db, q) == Accept && !UsedId(db.headers, id)
    ensures UniqueKeysAndIds(AtomicTransfer(db, q, id).headers)
    ensures AtomicTransfer(db, q, id).entries == Pairs(AtomicTransfer(db, q, id).headers)
  {
    assert (db.headers + [HeaderFor(q, id)])[..|db.headers|] == db.headers;
  }

  lemma TransferKeepsFit(db: Db, q: Request, id: TransactionId)
    requires AllFit(db) && Decide(db, q) == Accept
    ensures AllFit(AtomicTransfer(db, q, id))
  {
    var db' := AtomicTransfer(db, q, id);
    forall i | 0 <= i < |db'.headers|
      ensures Fits(db'.accounts, db'.headers[i])
    {
      if i < |db.headers| {
        assert Fits(db.accounts, db.headers[i]);
      }
    }
  }

  lemma TransferKeepsNoOverdraft(db: Db, q: Request, id: TransactionId)
    requires NoOverdraft(db) && Decide(db, q) == Accept
    ensures NoOverdraft(AtomicTransfer(db, q, id))
  {
    var db' := AtomicTransfer(db, q, id);
    forall a | IsUser(db'.accounts, a)
      ensures Balance(db'.entries, a) >= 0
    {
      assert IsUser(db.accounts, a);
      BalanceOfPair(db.entries, HeaderFor(q, id), a);
    }
  }

  lemma TransferKeepsCounters(db: Db, q: Request, id: TransactionId)
    requires CountersExact(db) && Decide(db, q) == Accept
    ensures CountersExact(AtomicTransfer(db, q, id))
  {
    assert (db.headers + [HeaderFor(q, id)])[..|db.headers|] == db.headers;
  }

  /** An accepted transfer under a fresh id keeps the ledger sound: in particular it cannot overdraw. */
  lemma TransferKeepsSound(db: Db, q: Request, id: TransactionId)
    requires Sound(db) && Decide(db, q) == Accept && !UsedId(db.headers, id)
    ensures Sound(AtomicTransfer(db, q, id))
  {
    TransferKeepsShape(db, q, id);
    TransferKeepsFit(db, q, id);
    TransferKeepsNoOverdraft(db, q, id);
    TransferKeepsCounters(db, q, id);
    assert AccountsOk(AtomicTransfer(db, q, id).accounts);
  }

  /** A document that insert_one on accounts accepts: a new id, no counter field, and for a SYSTEM
      account no owner and no rival in the partial unique index. */
  predicate Openable(db: Db, a: AccountId, account: Account) {
    && a !in db.accounts
    && account.counter == None
    && (account.kind == SYSTEM ==> account.owner == None && !HasSystemAccount(db.accounts, account.currency))
  }

  function OpenAccount(db: Db, a: AccountId, account: Account): Db {
    db.(accounts := db.accounts[a := account])
  }

  /** No header of a sound ledger names an account that does not exist, so it has no history at all. */
  lemma UnopenedAccountIsBlank(db: Db, a: AccountId)
    requires Sound(db) && a !in db.accounts
    ensures Balance(db.entries, a) == 0 && DebitCount(db.headers, a) == 0
  {
    forall i | 0 <= i < |db.headers|
      ensures db.headers[i].source != a && db.headers[i].destination != a
    {
      assert Fits(db.accounts, db.headers[i]);
    }
    BalanceOfUnusedAccount(db.headers, a);
    DebitCountOfUnusedAccount(db.headers, a);
  }

  lemma OpeningKeepsFit(db: Db, a: AccountId, account: Account)
    requires AllFit(db) && a !in db.accounts
    ensures AllFit(OpenAccount(db, a, account))
  {
    forall i | 0 <= i < |db.headers|
      ensures Fits(OpenAccount(db, a, account).accounts, db.headers[i])
    {
      assert Fits(db.accounts, db.headers[i]);
    }
  }

  lemma OpeningKeepsNoOverdraft(db: Db, a: AccountId, account: Account)
    requires NoOverdraft(db) && Balance(db.entries, a) == 0
    ensures NoOverdraft(OpenAccount(db, a, account))
  {
    forall b | IsUser(OpenAccount(db, a, account).accounts, b)
      ensures Balance(db.entries, b) >= 0
    {
      if b != a {
        assert IsUser(db.accounts, b);
      }
    }
  }

  lemma OpeningKeepsAccountsOk(db: Db, a: AccountId, account: Account)
    requires AccountsOk(db.accounts) && Openable(db, a, account)
    ensures AccountsOk(OpenAccount(db, a, account).accounts)
  {
    var accounts' := OpenAccount(db, a, account).accounts;
    forall x, y | IsSystem(accounts', x) && IsSystem(accounts', y) && x != y
      ensures accounts'[x].currency != accounts'[y].currency
    {
      assert x != a ==> IsSystem(db.accounts, x);
      assert y != a ==> IsSystem(db.accounts, y);
    }
  }

  /** Opening an account keeps the ledger sound. */
  lemma OpeningKeepsSound(db: Db, a: AccountId, account: Account)
    requires Sound(db) && Openable(db, a, account)
    ensures Sound(OpenAccount(db, a, account))
  {
    UnopenedAccountIsBlank(db, a);
    OpeningKeepsFit(db, a, account);
    OpeningKeepsNoOverdraft(db, a, account);
    OpeningKeepsAccountsOk(db, a, account);
  }

  /** The empty ledger is sound. */
  lemma EmptyLedgerIsSound(accounts: map<AccountId, Account>)
    requires AccountsOk(accounts)
    requires forall a | a in accounts :: accounts[a].counter == None
    ensures Sound(Db(accounts, [], []))
  {
  }
}
