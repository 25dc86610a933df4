// Where money enters: the routes that submit requests, and the balance of the SYSTEM boundary account.
module Boundary {
  import opened Domain
  import opened Specification
  import opened Protocol
  import opened Invariant
  import opened Guarantees
  import Aggregation
  import Provisioning

  // ----- The routes -----

  datatype RouteError = NotFound | Forbidden | UnsupportedCurrency | MalformedRequest

  datatype Submission = Admitted(q: Request) | Rejected(error: RouteError)

  /** The constraints of the request models and the idempotency key header. */
  predicate RequestShape(key: Key, amount: int, currency: Currency) {
    IsKey(key) && 0 < amount <= MAX_AMOUNT && IsCurrencyCode(currency)
  }

  /** create_transaction: the caller must own the source. */
  function CreateTransaction(accounts: map<AccountId, Account>, user: UserId, source: AccountId,
                             destination: AccountId, amount: int, currency: Currency, key: Key): Submission
  {
    if !RequestShape(key, amount, currency) then Rejected(MalformedRequest)
    else if source !in accounts then Rejected(NotFound)
    else if accounts[source].owner != Some(user) then Rejected(Forbidden)
    else if destination !in accounts then Rejected(NotFound)
    else Admitted(Request(key, TRANSFER, source, destination, amount, currency, Some(user)))
  }

  /** fund_account: the caller must own the destination; the source is the currency's SYSTEM account. */
  ghost function FundAccount(accounts: map<AccountId, Account>, user: UserId, account: AccountId, amount: int,
                             currency: Currency, key: Key): Submission
  {
    if !RequestShape(key, amount, currency) then Rejected(MalformedRequest)
    else if account !in accounts || accounts[account].owner != Some(user) then Rejected(NotFound)
    else if !HasSystemAccount(accounts, currency) then Rejected(UnsupportedCurrency)
    else
      var boundary :| IsSystem(accounts, boundary) && accounts[boundary].currency == currency;
      Admitted(Request(key, FUNDING, boundary, account, amount, currency, Some(user)))
  }

  predicate Owns(accounts: map<AccountId, Account>, user: UserId, a: AccountId) {
    a in accounts && accounts[a].owner == Some(user)
  }

  /** create_transaction admits a request exactly if its shape is right, the caller owns the source and the
      destination exists; the caller's identity is what decides between Forbidden and admission. */
  lemma CreateTransactionIsExact(accounts: map<AccountId, Account>, user: UserId, source: AccountId,
                                 destination: AccountId, amount: int, currency: Currency, key: Key)
    ensures var answer := CreateTransaction(accounts, user, source, destination, amount, currency, key);
            var shape := RequestShape(key, amount, currency);
            && (answer.Admitted? <==> shape && Owns(accounts, user, source) && destination in accounts)
            && (answer.Admitted? ==>
                  answer.q == Request(key, TRANSFER, source, destination, amount, currency, Some(user)))
            && (answer == Rejected(MalformedRequest) <==> !shape)
            && (answer == Rejected(Forbidden) <==> shape && source in accounts && !Owns(accounts, user, source))
            && (answer == Rejected(NotFound) <==>
                  shape && (source !in accounts || (Owns(accounts, user, source) && destination !in accounts)))
            && answer != Rejected(UnsupportedCurrency)
  {
  }

  /** fund_account admits a request exactly if its shape is right, the caller owns the destination and the currency
      has a SYSTEM account, which then is the source; another user's account is NotFound. */
  lemma FundAccountIsExact(accounts: map<AccountId, Account>, user: UserId, account: AccountId, amount: int,
                           currency: Currency, key: Key)
    ensures var answer := FundAccount(accounts, user, account, amount, currency, key);
            var shape := RequestShape(key, amount, currency);
            && (answer.Admitted? <==>
                  shape && Owns(accounts, user, account) && HasSystemAccount(accounts, currency))
            && (answer.Admitted? ==>
                  && answer.q == Request(key, FUNDING, answer.q.source, account, amount, currency, Some(user))
                  && IsSystem(accounts, answer.q.source) && accounts[answer.q.source].currency == currency)
            && (answer == Rejected(MalformedRequest) <==> !shape)
            && (answer == Rejected(NotFound) <==> shape && !Owns(accounts, user, account))
            && (answer == Rejected(UnsupportedCurrency) <==>
                  shape && Owns(accounts, user, account) && !HasSystemAccount(accounts, currency))
            && answer != Rejected(Forbidden)
  {
    if HasSystemAccount(accounts, currency) {
      var a :| a in accounts && accounts[a].kind == SYSTEM && accounts[a].currency == currency;
      assert IsSystem(accounts, a);
    }
  }

  ghost predicate RouteAdmits(accounts: map<AccountId, Account>, q: Request) {
    exists user ::
      || CreateTransaction(accounts, user, q.source, q.destination, q.amount, q.currency, q.key) == Admitted(q)
      || FundAccount(accounts, user, q.destination, q.amount, q.currency, q.key) == Admitted(q)
  }

  /** The source is a SYSTEM account exactly if the request is a funding. */
  predicate KindFits(accounts: map<AccountId, Account>, kind: Kind, source: AccountId) {
    source in accounts && (kind == FUNDING <==> accounts[source].kind == SYSTEM)
  }

  /** A transfer is submitted by the owner of its source. A funding comes from a SYSTEM account and is submitted
      by the owner of its destination. */
  predicate Authorised(
    accounts: map<AccountId, Account>, kind: Kind, source: AccountId, destination: AccountId,
    submitter: Option<UserId>)
  {
    && submitter.Some?
    && match kind
       case TRANSFER => Owns(accounts, submitter.value, source)
       case FUNDING => IsSystem(accounts, source) && Owns(accounts, submitter.value, destination)
  }

  predicate RequestAuthorised(accounts: map<AccountId, Account>, q: Request) {
    Authorised(accounts, q.kind, q.source, q.destination, q.submitter)
  }

  /** The routes admit authorised requests only: nobody spends from an account of somebody else. */
  lemma RoutesAuthorise(accounts: map<AccountId, Account>, q: Request)
    requires RouteAdmits(accounts, q)
    ensures RequestAuthorised(accounts, q)
  {
    var user :|
      || CreateTransaction(accounts, user, q.source, q.destination, q.amount, q.currency, q.key) == Admitted(q)
      || FundAccount(accounts, user, q.destination, q.amount, q.currency, q.key) == Admitted(q);
    CreateTransactionIsExact(accounts, user, q.source, q.destination, q.amount, q.currency, q.key);
    FundAccountIsExact(accounts, user, q.destination, q.amount, q.currency, q.key);
  }

  /** The limits that the request models document: keys of 8 to 128 letters, digits, underscores, dots, colons and
      hyphens, amounts from 1 to 10^12, and three capital letters for a currency. */
  lemma ShapeIsExact(key: Key, amount: int, currency: Currency)
    ensures RequestShape(key, amount, currency) <==>
            && 1 <= amount <= 1_000_000_000_000
            && |currency| == 3 && (forall c | c in currency :: 'A' <= c <= 'Z')
            && 8 <= |key| <= 128
            && (forall c | c in key ::
                  'A' <= c <= 'Z' || 'a' <= c <= 'z' || '0' <= c <= '9' || c in {'_', '.', ':', '-'})
  {
    assert forall i | 0 <= i < |key| :: key[i] in key;
    assert forall i | 0 <= i < |currency| :: currency[i] in currency;
  }

  /** What the routes admit is never malformed for the ledger. */
  lemma AdmittedIsWellFormed(db: Db, q: Request)
    requires RouteAdmits(db.accounts, q)
    ensures RequestShape(q.key, q.amount, q.currency)
    ensures Decide(db, q) != Reject(MalformedDocument)
  {
    DecisionIsExact(db, q);
  }

  /** The routes never debit a SYSTEM account for a transfer, and debit nothing else for a funding. */
  lemma RoutesFitKind(accounts: map<AccountId, Account>, q: Request)
    requires AccountsOk(accounts) && RouteAdmits(accounts, q)
    ensures KindFits(accounts, q.kind, q.source)
  {
    RoutesAuthorise(accounts, q);
  }

  /** What provisioning is for: once it has mapped a currency to its SYSTEM account, the owner of an ACTIVE account
      of that currency can fund it. The route takes that SYSTEM account as the source, and the ledger accepts the
      request under every new key. */
  lemma ProvisionedFundingIsAccepted(db: Db, currencies: seq<Currency>, ids: map<Currency, AccountId>, c: Currency,
                                     user: UserId, account: AccountId, amount: int, key: Key)
    requires AccountsOk(db.accounts) && BoundariesReady(db.accounts)
    requires Provisioning.Provisions(db.accounts, currencies, ids) && c in currencies
    requires Owns(db.accounts, user, account)
    requires db.accounts[account].status == ACTIVE && db.accounts[account].currency == c
    requires RequestShape(key, amount, c) && !UsedKey(db.headers, key)
    ensures c in ids
    ensures var q := Request(key, FUNDING, ids[c], account, amount, c, Some(user));
            FundAccount(db.accounts, user, account, amount, c, key) == Admitted(q) && Decide(db, q) == Accept
  {
    assert IsSystem(db.accounts, ids[c]);
    assert HasSystemAccount(db.accounts, c);
    FundAccountIsExact(db.accounts, user, account, amount, c, key);
    var q := FundAccount(db.accounts, user, account, amount, c, key).q;
    Provisioning.SystemAccountIsUnique(db.accounts, q.source, ids[c]);
    DecisionIsExact(db, q);
  }

  // ----- Runs whose requests come through the routes -----

  /** Every submission of the run comes through a route, which read the accounts in this or an earlier version. */
  ghost predicate Routed(s: State, steps: seq<Step>)
    requires Legal(FULL, s, steps)
    decreases |steps|
  {
    steps == [] ||
    ((steps[0].Submit? ==> exists v :: 0 <= v < |s.hist| && RouteAdmits(s.hist[v].accounts, steps[0].q))
     && Routed(Apply(FULL, s, steps[0]), steps[1..]))
  }

  ghost predicate HeadersFitKind(db: Db) {
    forall i | 0 <= i < |db.headers| :: KindFits(db.accounts, db.headers[i].kind, db.headers[i].source)
  }

  /** A call that can still commit, or has committed, is authorised and within the limit. */
  predicate CallAuthorised(s: State, r: CallId) {
    r in s.calls && (!s.calls[r].phase.Done? || Succeeded(s, r)) ==>
      RequestAuthorised(s.db.accounts, s.calls[r].q) && s.calls[r].q.amount <= MAX_AMOUNT
  }

  ghost predicate AllProper(s: State) {
    HeadersFitKind(s.db) && forall r | r in s.calls :: CallAuthorised(s, r)
  }

  /** What was authorised on older documents still is: owners and types do not change. */
  lemma AuthorisedPersists(s: State, i: nat, j: nat, q: Request)
    requires Chained(s) && i <= j <= |s.log| && RequestAuthorised(s.hist[i].accounts, q)
    ensures RequestAuthorised(s.hist[j].accounts, q)
  {
    if q.source in s.hist[i].accounts {
      AccountsPersist(s, i, j, q.source);
    }
    if q.destination in s.hist[i].accounts {
      AccountsPersist(s, i, j, q.destination);
    }
  }

  lemma AccountsAfterStep(s: State, step: Step)
    requires Inv(s) && Enabled(s, step)
    ensures var s' := Apply(FULL, s, step);
            && Inv(s') && s.hist <= s'.hist && s.log <= s'.log
            && s'.hist[|s.log|] == s.db && s'.hist[|s'.log|] == s'.db
  {
    StepKeepsInv(s, step);
    StepAdvances(s, step);
  }

  lemma KindFitsPersists(s: State, step: Step, kind: Kind, a: AccountId)
    requires Inv(s) && Enabled(s, step) && KindFits(s.db.accounts, kind, a)
    ensures KindFits(Apply(FULL, s, step).db.accounts, kind, a)
  {
    AccountsAfterStep(s, step);
    AccountsPersist(Apply(FULL, s, step), |s.log|, |Apply(FULL, s, step).log|, a);
  }

  lemma CommittedKindFits(s: State, r: CallId)
    requires Inv(s) && r in s.calls && s.calls[r].phase.CommitAll? && CallAuthorised(s, r)
    ensures var q := s.calls[r].q;
            s.calls[r].staged.headers == [s.calls[r].phase.header] && s.calls[r].phase.header.kind == q.kind
            && s.calls[r].phase.header.source == q.source && KindFits(s.db.accounts, q.kind, q.source)
  {
    assert CallOk(s, r, s.calls[r]);
    VersionIsSound(s, |s.log|);
  }

  /** A step adds no header but that of a call which commits. */
  lemma HeadersAfterStep(s: State, step: Step)
    requires Enabled(s, step)
    ensures Apply(FULL, s, step).db.headers
         == s.db.headers + if step.Act? && s.calls[step.r].phase.CommitAll? then s.calls[step.r].staged.headers else []
  {
    if step.Act? && !s.calls[step.r].phase.CommitAll? {
      StepsAreLocal(FULL, s, step.r, step.choice);
    }
  }

  lemma StepKeepsHeadersFitKind(s: State, step: Step)
    requires Inv(s) && AllProper(s) && Enabled(s, step)
    ensures HeadersFitKind(Apply(FULL, s, step).db)
  {
    var s' := Apply(FULL, s, step);
    HeadersAfterStep(s, step);
    if step.Act? && s.calls[step.r].phase.CommitAll? {
      CommittedKindFits(s, step.r);
    }
    forall i | 0 <= i < |s'.db.headers|
      ensures KindFits(s'.db.accounts, s'.db.headers[i].kind, s'.db.headers[i].source)
    {
      KindFitsPersists(s, step, s'.db.headers[i].kind, s'.db.headers[i].source);
    }
  }

  lemma OnlySubmitAdds(s: State, step: Step, r: CallId)
    requires Enabled(s, step) && r !in s.calls && r in Apply(FULL, s, step).calls
    ensures step.Submit? && Apply(FULL, s, step).calls[r].q == step.q && Apply(FULL, s, step).db == s.db
  {
    if step.Act? && !s.calls[step.r].phase.CommitAll? {
      StepsAreLocal(FULL, s, step.r, step.choice);
    }
  }

  lemma SubmittedIsAuthorised(s: State, q: Request)
    requires Inv(s) && exists v :: 0 <= v < |s.hist| && RouteAdmits(s.hist[v].accounts, q)
    ensures RequestAuthorised(s.db.accounts, q) && q.amount <= MAX_AMOUNT
  {
    var v :| 0 <= v < |s.hist| && RouteAdmits(s.hist[v].accounts, q);
    RoutesAuthorise(s.hist[v].accounts, q);
    AuthorisedPersists(s, v, |s.log|, q);
  }

  lemma StepKeepsCallAuthorised(s: State, step: Step, r: CallId)
    requires Inv(s) && CallAuthorised(s, r) && Enabled(s, step)
    requires step.Submit? ==> exists v :: 0 <= v < |s.hist| && RouteAdmits(s.hist[v].accounts, step.q)
    ensures CallAuthorised(Apply(FULL, s, step), r)
  {
    var s' := Apply(FULL, s, step);
    if r in s.calls {
      StepAdvances(s, step);
      assert Continues(s.calls[r], |s.log|, s'.calls[r], |s'.log|);
      if RequestAuthorised(s.db.accounts, s.calls[r].q) {
        AccountsAfterStep(s, step);
        AuthorisedPersists(s', |s.log|, |s'.log|, s.calls[r].q);
      }
    } else if r in s'.calls {
      OnlySubmitAdds(s, step, r);
      SubmittedIsAuthorised(s, step.q);
    }
  }

  lemma {:induction false} RoutedRunIsProper(s: State, steps: seq<Step>)
    requires Inv(s) && AllProper(s) && Legal(FULL, s, steps) && Routed(s, steps)
    ensures AllProper(Execute(FULL, s, steps))
    decreases |steps|
  {
    if steps != [] {
      StepKeepsInv(s, steps[0]);
      StepKeepsHeadersFitKind(s, steps[0]);
      var s1 := Apply(FULL, s, steps[0]);
      forall r | r in s1.calls
        ensures CallAuthorised(s1, r)
      {
        StepKeepsCallAuthorised(s, steps[0], r);
      }
      RoutedRunIsProper(Apply(FULL, s, steps[0]), steps[1..]);
    }
  }

  /** A routed run from a ledger of fitting headers. */
  ghost predicate RoutedRun(db: Db, steps: seq<Step>) {
    Run(db, steps) && HeadersFitKind(db) && Routed(Start(db), steps)
  }

  /** When every request comes through the routes, every committed transfer is authorised: a debit of a USER
      account was submitted by the owner of that account. */
  lemma DebitsAreAuthorised(db: Db, steps: seq<Step>, k: nat)
    requires RoutedRun(db, steps)
    requires k < |Final(db, steps).log| && Final(db, steps).log[k].Transferred?
    ensures var s := Final(db, steps);
            var q := s.log[k].q;
            && q.submitter.Some? && q.amount <= MAX_AMOUNT
            && (IsUser(s.db.accounts, q.source) ==>
                  s.db.accounts[q.source].owner == q.submitter && q.kind == TRANSFER)
            && (q.kind == FUNDING ==>
                  q.destination in s.db.accounts && s.db.accounts[q.destination].owner == q.submitter)
  {
    var s := Final(db, steps);
    StartInv(db);
    ReachableInv(db, steps);
    RoutedRunIsProper(Start(db), steps);
    assert CallOk(s, s.log[k].call, s.calls[s.log[k].call]);
    assert CallAuthorised(s, s.log[k].call);
  }

  /** The stored header names the submitter, together with all other arguments of the call. */
  lemma HeaderTellsRequest(db: Db, steps: seq<Step>, k: nat)
    requires Run(db, steps) && k < |Final(db, steps).log| && Final(db, steps).log[k].Transferred?
    ensures var s := Final(db, steps);
            var ev := s.log[k];
            && k + 1 < |s.hist|
            && s.hist[k + 1].headers
               == s.hist[k].headers + [Header(ev.id, ev.q.key, ev.q.kind, ev.q.source, ev.q.destination, ev.q.amount,
                                              ev.q.currency, ev.q.submitter)]
  {
    ReachableInv(db, steps);
    assert FollowsAt(Final(db, steps), k);
  }

  lemma {:induction false} AmountsStayLimited(s: State, j: nat)
    requires Chained(s) && j <= |s.log|
    requires forall i | 0 <= i < |s.hist[0].entries| :: s.hist[0].entries[i].amount <= MAX_AMOUNT
    requires forall k | 0 <= k < j && s.log[k].Transferred? :: s.log[k].q.amount <= MAX_AMOUNT
    ensures forall i | 0 <= i < |s.hist[j].entries| :: s.hist[j].entries[i].amount <= MAX_AMOUNT
    decreases j
  {
    if j > 0 {
      AmountsStayLimited(s, j - 1);
      assert FollowsAt(s, j - 1);
    }
  }

  lemma EntriesAreAdmitted(ledger: Db)
    requires Sound(ledger)
    ensures forall e | e in ledger.entries :: EntryAdmitted(e)
  {
    PairsAdmitted(ledger.accounts, ledger.headers);
  }

  lemma {:induction false} PairsAdmitted(accounts: map<AccountId, Account>, headers: seq<Header>)
    requires forall i | 0 <= i < |headers| :: Fits(accounts, headers[i])
    ensures forall e | e in Pairs(headers) :: EntryAdmitted(e)
  {
    if headers != [] {
      PairsAdmitted(accounts, headers[..|headers| - 1]);
    }
  }

  /** The sums that the database forms fit its integers: in a routed run on which no entry of the opening ledger
      exceeds the limit, every partial sum over up to 9,223,372 entries of any version, in any order, stays inside a
      signed 64-bit integer. */
  lemma RoutedSumsFitInLong(db: Db, steps: seq<Step>, v: nat, entries: seq<Entry>, scan: seq<Entry>, k: nat)
    requires RoutedRun(db, steps) && v < |Final(db, steps).hist|
    requires forall i | 0 <= i < |db.entries| :: db.entries[i].amount <= 1_000_000_000_000
    requires forall e | e in entries :: e in Final(db, steps).hist[v].entries
    requires |entries| <= 9_223_372 && multiset(scan) == multiset(entries) && k <= |scan|
    ensures var row := Aggregation.Total(scan[..k]);
            && -0x8000_0000_0000_0000 <= row.net < 0x8000_0000_0000_0000
            && 0 <= row.debited < 0x8000_0000_0000_0000 && 0 <= row.credited < 0x8000_0000_0000_0000
  {
    var s := Final(db, steps);
    StartInv(db);
    ReachableInv(db, steps);
    StartsFrom(Start(db), steps);
    forall n | 0 <= n < |s.log| && s.log[n].Transferred?
      ensures s.log[n].q.amount <= MAX_AMOUNT
    {
      DebitsAreAuthorised(db, steps, n);
    }
    AmountsStayLimited(s, v);
    VersionIsSound(s, v);
    EntriesAreAdmitted(s.hist[v]);
    Aggregation.SumsFitInLong(entries, scan, k);
  }

  /** Only the owner spends: when every request comes through the routes and the balance of a USER account has
      fallen from one version to a later one, its owner submitted a debit that was committed in between. */
  lemma OnlyOwnersSpend(db: Db, steps: seq<Step>, i: nat, j: nat, a: AccountId) returns (k: nat)
    requires RoutedRun(db, steps) && i <= j < |Final(db, steps).hist|
    requires var s := Final(db, steps);
             IsUser(s.hist[i].accounts, a) && Balance(s.hist[j].entries, a) < Balance(s.hist[i].entries, a)
    ensures var s := Final(db, steps);
            && i <= k < j && k < |s.log| && Debits(s.log[k], a)
            && s.log[k].q.submitter.Some? && s.hist[i].accounts[a].owner == s.log[k].q.submitter
  {
    var s := Final(db, steps);
    ReachableInv(db, steps);
    if forall n | i <= n < j :: !Debits(s.log[n], a) {
      BalanceHoldsUp(s, i, j, a);
    }
    k :| i <= k < j && Debits(s.log[k], a);
    AccountsPersist(s, i, |s.log|, a);
    DebitsAreAuthorised(db, steps, k);
  }

  // ----- Sums of balances -----

  ghost function SumOfBalances(entries: seq<Entry>, accounts: set<AccountId>): int {
    if accounts == {} then 0
    else
      var a :| a in accounts;
      Balance(entries, a) + SumOfBalances(entries, accounts - {a})
  }

  /** The sum of the signed amounts of all entries on a set of accounts. */
  function SumOn(entries: seq<Entry>, accounts: set<AccountId>): int {
    if entries == [] then 0
    else
      var last := entries[|entries| - 1];
      SumOn(entries[..|entries| - 1], accounts) + if last.account in accounts then last.signed else 0
  }

  lemma {:induction false} SumOnSplits(entries: seq<Entry>, accounts: set<AccountId>, a: AccountId)
    requires a in accounts
    ensures SumOn(entries, accounts) == Balance(entries, a) + SumOn(entries, accounts - {a})
  {
    if entries != [] {
      SumOnSplits(entries[..|entries| - 1], accounts, a);
    }
  }

  lemma {:induction false} SumOnNone(entries: seq<Entry>)
    ensures SumOn(entries, {}) == 0
  {
    if entries != [] {
      SumOnNone(entries[..|entries| - 1]);
    }
  }

  /** Adding up balances account by account or entry by entry is the same. */
  lemma {:induction false} BalancesRegroup(entries: seq<Entry>, accounts: set<AccountId>)
    ensures SumOfBalances(entries, accounts) == SumOn(entries, accounts)
    decreases |accounts|
  {
    if accounts == {} {
      SumOnNone(entries);
    } else {
      var a :| a in accounts
               && SumOfBalances(entries, accounts) == Balance(entries, a) + SumOfBalances(entries, accounts - {a});
      BalancesRegroup(entries, accounts - {a});
      SumOnSplits(entries, accounts, a);
    }
  }

  lemma SumOnPair(entries: seq<Entry>, h: Header, accounts: set<AccountId>)
    ensures SumOn(entries + [DebitFor(h), CreditFor(h)], accounts)
         == SumOn(entries, accounts) - (if h.source in accounts then h.amount else 0)
            + (if h.destination in accounts then h.amount else 0)
  {
    var d, e := DebitFor(h), CreditFor(h);
    assert (entries + [d, e])[..|entries| + 1] == entries + [d];
    assert (entries + [d])[..|entries|] == entries;
  }

  function UsersOf(accounts: map<AccountId, Account>, c: Currency): set<AccountId> {
    set a | a in accounts && accounts[a].kind == USER && accounts[a].currency == c
  }

  function SystemsOf(accounts: map<AccountId, Account>, c: Currency): set<AccountId> {
    set a | a in accounts && accounts[a].kind == SYSTEM && accounts[a].currency == c
  }

  ghost function UserHoldings(db: Db, c: Currency): int {
    SumOfBalances(db.entries, UsersOf(db.accounts, c))
  }

  // ----- The boundary identity -----

  lemma {:induction false} PairsCancel(accounts: map<AccountId, Account>, headers: seq<Header>, c: Currency)
    requires forall i | 0 <= i < |headers| :: Fits(accounts, headers[i])
    ensures SumOn(Pairs(headers), SystemsOf(accounts, c)) == -SumOn(Pairs(headers), UsersOf(accounts, c))
  {
    if headers != [] {
      var n := |headers| - 1;
      PairsCancel(accounts, headers[..n], c);
      SumOnPair(Pairs(headers[..n]), headers[n], SystemsOf(accounts, c));
      SumOnPair(Pairs(headers[..n]), headers[n], UsersOf(accounts, c));
      assert Fits(accounts, headers[n]);
    }
  }

  lemma {:induction false} HoldingsNotNegative(entries: seq<Entry>, accounts: set<AccountId>)
    requires forall a | a in accounts :: Balance(entries, a) >= 0
    ensures SumOfBalances(entries, accounts) >= 0
    decreases |accounts|
  {
    if accounts != {} {
      var a :| a in accounts
               && SumOfBalances(entries, accounts) == Balance(entries, a) + SumOfBalances(entries, accounts - {a});
      HoldingsNotNegative(entries, accounts - {a});
    }
  }

  /** In every version and each currency, the SYSTEM balance is minus what USER accounts hold, hence never
      positive. If the currency has no SYSTEM account, USER accounts hold nothing in it. */
  lemma BoundaryIdentity(db: Db, steps: seq<Step>, v: nat, c: Currency)
    requires Run(db, steps) && v < |Final(db, steps).hist|
    ensures var ledger := Final(db, steps).hist[v];
            && UserHoldings(ledger, c) >= 0
            && (forall b | IsSystem(ledger.accounts, b) && ledger.accounts[b].currency == c ::
                  Balance(ledger.entries, b) == -UserHoldings(ledger, c))
            && (!HasSystemAccount(ledger.accounts, c) ==> UserHoldings(ledger, c) == 0)
  {
    ReachableInv(db, steps);
    VersionIsSound(Final(db, steps), v);
    var ledger := Final(db, steps).hist[v];
    var users, systems := UsersOf(ledger.accounts, c), SystemsOf(ledger.accounts, c);
    PairsCancel(ledger.accounts, ledger.headers, c);
    BalancesRegroup(ledger.entries, users);
    HoldingsNotNegative(ledger.entries, users);
    SumOnNone(ledger.entries);
    if !HasSystemAccount(ledger.accounts, c) {
      assert systems == {};
    }
    forall b | IsSystem(ledger.accounts, b) && ledger.accounts[b].currency == c
      ensures Balance(ledger.entries, b) == -UserHoldings(ledger, c)
    {
      assert forall a | a in systems :: IsSystem(ledger.accounts, a) && ledger.accounts[a].currency == c;
      SumOnSplits(ledger.entries, systems, b);
      assert systems - {b} == {};
    }
  }

  /** A transfer between USER accounts leaves what USER accounts hold in every currency unchanged. */
  lemma TransfersConserveHoldings(db: Db, q: Request, id: TransactionId, c: Currency)
    requires Decide(db, q) == Accept
    requires IsUser(db.accounts, q.source) && IsUser(db.accounts, q.destination)
    ensures UserHoldings(AtomicTransfer(db, q, id), c) == UserHoldings(db, c)
  {
    var db' := AtomicTransfer(db, q, id);
    var users := UsersOf(db.accounts, c);
    assert UsersOf(db'.accounts, c) == users;
    BalancesRegroup(db.entries, users);
    BalancesRegroup(db'.entries, users);
    SumOnPair(db.entries, HeaderFor(q, id), users);
  }

  // ----- Funding -----

  /** The total of all FUNDING headers of a currency. */
  function TotalFunding(headers: seq<Header>, c: Currency): int {
    if headers == [] then 0
    else
      var last := headers[|headers| - 1];
      TotalFunding(headers[..|headers| - 1], c) + if last.kind == FUNDING && last.currency == c then last.amount else 0
  }

  /** The total of all TRANSFER headers into an account. */
  function TransferredInto(headers: seq<Header>, b: AccountId): int {
    if headers == [] then 0
    else
      var last := headers[|headers| - 1];
      TransferredInto(headers[..|headers| - 1], b)
      + if last.kind == TRANSFER && last.destination == b then last.amount else 0
  }

  lemma {:induction false} BoundaryBalance(accounts: map<AccountId, Account>, headers: seq<Header>, b: AccountId)
    requires AccountsOk(accounts) && IsSystem(accounts, b)
    requires forall i | 0 <= i < |headers| ::
               Fits(accounts, headers[i]) && KindFits(accounts, headers[i].kind, headers[i].source)
    ensures Balance(Pairs(headers), b)
         == -(TotalFunding(headers, accounts[b].currency) - TransferredInto(headers, b))
  {
    if headers != [] {
      var n := |headers| - 1;
      var h := headers[n];
      BoundaryBalance(accounts, headers[..n], b);
      BalanceOfPair(Pairs(headers[..n]), h, b);
      assert Fits(accounts, h) && KindFits(accounts, h.kind, h.source);
      assert h.kind == FUNDING ==> IsSystem(accounts, h.source);
    }
  }

  /** When every request comes through the routes, the SYSTEM balance of a currency is minus (committed funding
      minus transfers into the SYSTEM account). */
  lemma BoundaryIsFunding(db: Db, steps: seq<Step>, b: AccountId)
    requires RoutedRun(db, steps)
    requires IsSystem(Final(db, steps).db.accounts, b)
    ensures var now := Final(db, steps).db;
            Balance(now.entries, b)
            == -(TotalFunding(now.headers, now.accounts[b].currency) - TransferredInto(now.headers, b))
  {
    StartInv(db);
    ReachableInv(db, steps);
    RoutedRunIsProper(Start(db), steps);
    var s := Final(db, steps);
    VersionIsSound(s, |s.log|);
    forall i | 0 <= i < |s.db.headers|
      ensures Fits(s.db.accounts, s.db.headers[i])
      ensures KindFits(s.db.accounts, s.db.headers[i].kind, s.db.headers[i].source)
    {
    }
    BoundaryBalance(s.db.accounts, s.db.headers, b);
  }
}
