// Documents of the ledger database: accounts, transaction headers and ledger entries.
// Object ids are abstract: a natural number stands for an ObjectId, and only equality of ids is used.
module Domain {

  type AccountId = nat
  type UserId = nat
  type TransactionId = nat
  type Key = string
  type Currency = string

  datatype Option<+T> = None | Some(value: T)

  datatype AccountType = USER | SYSTEM

  datatype AccountStatus = ACTIVE | FROZEN | CLOSED

  /** `counter` is debit_serialisation_counter, which is absent until the first `$inc` creates it. */
  datatype Account = Account(
    owner: Option<UserId>, kind: AccountType, currency: Currency, status: AccountStatus, counter: Option<nat>)

  datatype Kind = TRANSFER | FUNDING

  datatype Header = Header(
    id: TransactionId, key: Key, kind: Kind, source: AccountId, destination: AccountId, amount: int,
    currency: Currency, submitter: Option<UserId>)

  datatype Direction = DEBIT | CREDIT

  datatype Entry = Entry(
    transaction: TransactionId, account: AccountId, direction: Direction, amount: int, signed: int, currency: Currency)

  /** One committed version of the database. */
  datatype Db = Db(accounts: map<AccountId, Account>, headers: seq<Header>, entries: seq<Entry>)

  /** The arguments of one create_transfer call. */
  datatype Request = Request(
    key: Key, kind: Kind, source: AccountId, destination: AccountId, amount: int, currency: Currency,
    submitter: Option<UserId>)

  datatype Side = SOURCE | DESTINATION

  datatype Error =
    | SameAccount
    | DuplicateSubmission
    | AccountNotFound(side: Side)
    | AccountNotActive(side: Side)
    | CurrencyMismatch
    | InsufficientFunds(balance: int, shortfall: int)
    | MalformedDocument
    | WriteConflict

  /** The largest amount the request models accept. */
  const MAX_AMOUNT: int := 1_000_000_000_000

  predicate IsCurrencyCode(c: Currency) {
    |c| == 3 && forall i | 0 <= i < 3 :: 'A' <= c[i] <= 'Z'
  }

  predicate IsKeyChar(c: char) {
    'A' <= c <= 'Z' || 'a' <= c <= 'z' || '0' <= c <= '9' || c == '_' || c == '.' || c == ':' || c == '-'
  }

  predicate IsKey(k: Key) {
    8 <= |k| <= 128 && forall i | 0 <= i < |k| :: IsKeyChar(k[i])
  }

  /** What the transaction document's field constraints demand before a header can be built. */
  predicate WellFormed(q: Request) {
    q.amount > 0 && IsKey(q.key) && IsCurrencyCode(q.currency)
  }

  /** The sign convention; None stands for the ValueError raised on a non-positive magnitude. */
  function SignedAmountFor(direction: Direction, amount: int): Option<int> {
    if amount <= 0 then None else Some(if direction == CREDIT then amount else -amount)
  }

  /** LedgerEntryDocument.create: the caller never supplies the sign. None stands for a validation error. */
  function CreateEntry(transaction: TransactionId, account: AccountId, direction: Direction, amount: int,
                       currency: Currency): Option<Entry>
  {
    match SignedAmountFor(direction, amount)
    case None => None
    case Some(signed) =>
      if IsCurrencyCode(currency) then Some(Entry(transaction, account, direction, amount, signed, currency)) else None
  }

  /** The collection validator of ledger_entries: positive magnitude, matching sign, currency pattern. */
  predicate EntryAdmitted(e: Entry) {
    && e.amount >= 1
    && IsCurrencyCode(e.currency)
    && e.signed == if e.direction == CREDIT then e.amount else e.amount * -1
  }

  /** The document model and the collection validator agree: creating an entry fails exactly if its amount is
      not positive or its currency is malformed, and the validator admits exactly what can be created. */
  lemma CreatedEntriesAreAdmitted(transaction: TransactionId, account: AccountId, direction: Direction, amount: int,
                                  currency: Currency, e: Entry)
    ensures CreateEntry(transaction, account, direction, amount, currency) == None
            <==> amount <= 0 || !IsCurrencyCode(currency)
    ensures EntryAdmitted(e)
            <==> CreateEntry(e.transaction, e.account, e.direction, e.amount, e.currency) == Some(e)
  {
  }

  function HeaderFor(q: Request, id: TransactionId): Header {
    Header(id, q.key, q.kind, q.source, q.destination, q.amount, q.currency, q.submitter)
  }

  function DebitFor(h: Header): Entry {
    Entry(h.id, h.source, DEBIT, h.amount, -h.amount, h.currency)
  }

  function CreditFor(h: Header): Entry {
    Entry(h.id, h.destination, CREDIT, h.amount, h.amount, h.currency)
  }

  /** `{"$inc": {debit_serialisation_counter: 1}}` on one document. */
  function Incremented(account: Account): Account {
    account.(counter := Some(if account.counter.None? then 1 else account.counter.value + 1))
  }

  predicate UsedKey(headers: seq<Header>, key: Key) {
    exists i | 0 <= i < |headers| :: headers[i].key == key
  }

  predicate UsedId(headers: seq<Header>, id: TransactionId) {
    exists i | 0 <= i < |headers| :: headers[i].id == id
  }

  /** The partial unique index on SYSTEM accounts: is there one for this currency already? */
  predicate HasSystemAccount(accounts: map<AccountId, Account>, currency: Currency) {
    exists a | a in accounts :: accounts[a].kind == SYSTEM && accounts[a].currency == currency
  }

  /** The sum of the signed amounts of one account's entries. */
  function Balance(entries: seq<Entry>, account: AccountId): int {
    if entries == [] then 0
    else
      var last := entries[|entries| - 1];
      Balance(entries[..|entries| - 1], account) + if last.account == account then last.signed else 0
  }

  lemma BalanceOfAppended(entries: seq<Entry>, e: Entry, account: AccountId)
    ensures Balance(entries + [e], account)
         == Balance(entries, account) + if e.account == account then e.signed else 0
  {
    assert (entries + [e])[..|entries|] == entries;
  }

  /** Appending a debit and a credit moves the amount from the one account to the other. */
  lemma BalanceOfPair(entries: seq<Entry>, h: Header, account: AccountId)
    ensures Balance(entries + [DebitFor(h), CreditFor(h)], account)
         == Balance(entries, account) - (if h.source == account then h.amount else 0)
            + (if h.destination == account then h.amount else 0)
  {
    BalanceOfAppended(entries, DebitFor(h), account);
    BalanceOfAppended(entries + [DebitFor(h)], CreditFor(h), account);
    assert entries + [DebitFor(h), CreditFor(h)] == entries + [DebitFor(h)] + [CreditFor(h)];
  }

  /** A proper subset is smaller. */
  lemma {:induction false} SubsetSize<T>(small: set<T>, large: set<T>)
    requires small <= large
    ensures |small| <= |large| && (|small| == |large| <==> small == large)
  {
    assert large == small + (large - small);
  }
}
