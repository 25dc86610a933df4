// ensure_system_accounts run by any number of replicas at once, one database operation per step, against
// the partial unique index on SYSTEM accounts.
module Provisioning {
  import opened Domain
  import opened Specification

  datatype Phase = Lookup | Insert | Adopt | Raised

  /** One replica inside ensure_system_accounts(currencies): it is at currencies[next]. */
  datatype Replica = Replica(currencies: seq<Currency>, next: nat, phase: Phase, ids: map<Currency, AccountId>)

  datatype State = State(accounts: map<AccountId, Account>, replicas: map<nat, Replica>)

  datatype Step =
    | StartReplica(n: nat, currencies: seq<Currency>)
    | Advance(n: nat, id: AccountId)
    | OpenUserAccount(id: AccountId, account: Account)

  function BoundaryAccount(c: Currency): Account {
    Account(None, SYSTEM, c, ACTIVE, None)
  }

  /** find_one on the SYSTEM account of a currency. */
  ghost function FindSystem(accounts: map<AccountId, Account>, c: Currency): (found: Option<AccountId>)
    ensures found.Some? <==> HasSystemAccount(accounts, c)
    ensures found.Some? ==> IsSystem(accounts, found.value) && accounts[found.value].currency == c
  {
    if HasSystemAccount(accounts, c) then
      var a :| IsSystem(accounts, a) && accounts[a].currency == c;
      Some(a)
    else None
  }

  function Took(replica: Replica, id: AccountId): Replica
    requires replica.next < |replica.currencies|
  {
    Replica(replica.currencies, replica.next + 1, Lookup, replica.ids[replica.currencies[replica.next] := id])
  }

  predicate Finished(replica: Replica) {
    replica.next == |replica.currencies| && replica.phase == Lookup
  }

  ghost predicate Enabled(s: State, step: Step) {
    match step
    case StartReplica(n, _) => n !in s.replicas
    case Advance(n, id) =>
      && n in s.replicas && s.replicas[n].phase != Raised && s.replicas[n].next < |s.replicas[n].currencies|
      && id !in s.accounts
    case OpenUserAccount(id, account) => id !in s.accounts && account.kind == USER
  }

  ghost function Perform(s: State, n: nat, id: AccountId): State
    requires n in s.replicas && s.replicas[n].next < |s.replicas[n].currencies|
  {
    var replica := s.replicas[n];
    var c := replica.currencies[replica.next];
    var found := FindSystem(s.accounts, c);
    match replica.phase
    case Lookup =>
      s.(replicas := s.replicas[n := if found.Some? then Took(replica, found.value) else replica.(phase := Insert)])
    case Insert =>
      if found.Some? then s.(replicas := s.replicas[n := replica.(phase := Adopt)])
      else State(s.accounts[id := BoundaryAccount(c)], s.replicas[n := Took(replica, id)])
    case Adopt =>
      s.(replicas := s.replicas[n := if found.Some? then Took(replica, found.value) else replica.(phase := Raised)])
    case Raised => s
  }

  ghost function Apply(s: State, step: Step): State
    requires Enabled(s, step)
  {
    match step
    case StartReplica(n, currencies) => s.(replicas := s.replicas[n := Replica(currencies, 0, Lookup, map[])])
    case Advance(n, id) => Perform(s, n, id)
    case OpenUserAccount(id, account) => s.(accounts := s.accounts[id := account])
  }

  ghost predicate Legal(s: State, steps: seq<Step>)
    decreases |steps|
  {
    steps == [] || (Enabled(s, steps[0]) && Legal(Apply(s, steps[0]), steps[1..]))
  }

  ghost function Execute(s: State, steps: seq<Step>): State
    requires Legal(s, steps)
    decreases |steps|
  {
    if steps == [] then s else Execute(Apply(s, steps[0]), steps[1..])
  }

  // ----- Invariant -----

  /** The map sends exactly the given currencies to their SYSTEM accounts. */
  ghost predicate Provisions(
    accounts: map<AccountId, Account>, currencies: seq<Currency>, ids: map<Currency, AccountId>)
  {
    && (forall c :: c in ids <==> c in currencies)
    && (forall c | c in ids :: IsSystem(accounts, ids[c]) && accounts[ids[c]].currency == c)
  }

  ghost predicate ReplicaOk(accounts: map<AccountId, Account>, replica: Replica) {
    && replica.next <= |replica.currencies|
    && Provisions(accounts, replica.currencies[..replica.next], replica.ids)
    && replica.phase != Raised
    && (replica.phase == Adopt ==>
          replica.next < |replica.currencies| && HasSystemAccount(accounts, replica.currencies[replica.next]))
  }

  ghost predicate Inv(s: State) {
    AccountsOk(s.accounts) && forall n | n in s.replicas :: ReplicaOk(s.accounts, s.replicas[n])
  }

  /** More accounts take nothing away from a replica. */
  lemma ReplicaStaysOk(accounts: map<AccountId, Account>, replica: Replica, id: AccountId, account: Account)
    requires ReplicaOk(accounts, replica) && id !in accounts
    ensures ReplicaOk(accounts[id := account], replica)
  {
    var accounts' := accounts[id := account];
    if replica.phase == Adopt {
      var c := replica.currencies[replica.next];
      var a :| a in accounts && accounts[a].kind == SYSTEM && accounts[a].currency == c;
      assert a in accounts' && accounts'[a].kind == SYSTEM && accounts'[a].currency == c;
    }
  }

  lemma TookIsOk(accounts: map<AccountId, Account>, replica: Replica, id: AccountId)
    requires ReplicaOk(accounts, replica) && replica.next < |replica.currencies|
    requires IsSystem(accounts, id) && accounts[id].currency == replica.currencies[replica.next]
    ensures ReplicaOk(accounts, Took(replica, id))
  {
    assert replica.currencies[..replica.next + 1]
           == replica.currencies[..replica.next] + [replica.currencies[replica.next]];
  }

  lemma AddingKeepsAccountsOk(accounts: map<AccountId, Account>, id: AccountId, account: Account)
    requires AccountsOk(accounts) && id !in accounts
    requires account.kind == SYSTEM ==> account.owner == None && !HasSystemAccount(accounts, account.currency)
    ensures AccountsOk(accounts[id := account])
  {
    var accounts' := accounts[id := account];
    forall x, y | IsSystem(accounts', x) && IsSystem(accounts', y) && x != y
      ensures accounts'[x].currency != accounts'[y].currency
    {
      assert x != id ==> IsSystem(accounts, x);
      assert y != id ==> IsSystem(accounts, y);
    }
  }

  lemma StepKeepsInv(s: State, step: Step)
    requires Inv(s) && Enabled(s, step)
    ensures Inv(Apply(s, step))
  {
    var s' := Apply(s, step);
    match step {
      case StartReplica(n, currencies) =>
      case OpenUserAccount(id, account) =>
        AddingKeepsAccountsOk(s.accounts, id, account);
        forall n | n in s.replicas
          ensures ReplicaOk(s'.accounts, s'.replicas[n])
        {
          ReplicaStaysOk(s.accounts, s.replicas[n], id, account);
        }
      case Advance(n, id) =>
        var replica := s.replicas[n];
        var c := replica.currencies[replica.next];
        var found := FindSystem(s.accounts, c);
        if found.Some? {
          TookIsOk(s.accounts, replica, found.value);
        } else if replica.phase == Insert {
          AddingKeepsAccountsOk(s.accounts, id, BoundaryAccount(c));
          forall m | m in s.replicas
            ensures ReplicaOk(s'.accounts, s'.replicas[m])
          {
            ReplicaStaysOk(s.accounts, s.replicas[m], id, BoundaryAccount(c));
            if m == n {
              TookIsOk(s'.accounts, replica, id);
            }
          }
        }
    }
  }

  lemma {:induction false} RunKeepsInv(s: State, steps: seq<Step>)
    requires Inv(s) && Legal(s, steps)
    ensures Inv(Execute(s, steps))
    decreases |steps|
  {
    if steps != [] {
      StepKeepsInv(s, steps[0]);
      RunKeepsInv(Apply(s, steps[0]), steps[1..]);
    }
  }

  // ----- Convergence -----

  /** A currency's SYSTEM account is unique. */
  lemma SystemAccountIsUnique(accounts: map<AccountId, Account>, a: AccountId, b: AccountId)
    requires AccountsOk(accounts) && IsSystem(accounts, a) && IsSystem(accounts, b)
    requires accounts[a].currency == accounts[b].currency
    ensures a == b
  {
  }

  /** Every SYSTEM account that was not there before is for a currency that some replica was asked for. */
  ghost predicate OnlyAsked(before: map<AccountId, Account>, s: State) {
    forall a | IsSystem(s.accounts, a) && a !in before :: Asked(s, s.accounts[a].currency)
  }

  ghost predicate Asked(s: State, c: Currency) {
    exists n :: n in s.replicas && c in s.replicas[n].currencies
  }

  lemma GrewByInsert(before: map<AccountId, Account>, accounts: map<AccountId, Account>, id: AccountId,
                     account: Account)
    requires Grew(before, accounts) && id !in accounts
    requires account.kind == SYSTEM ==> account == Account(None, SYSTEM, account.currency, ACTIVE, None)
    ensures Grew(before, accounts[id := account])
  {
  }

  lemma StepGrows(before: map<AccountId, Account>, s: State, step: Step)
    requires Grew(before, s.accounts) && Enabled(s, step)
    ensures Grew(before, Apply(s, step).accounts)
  {
    match step {
      case StartReplica(_, _) =>
      case OpenUserAccount(id, account) => GrewByInsert(before, s.accounts, id, account);
      case Advance(n, id) =>
        var c := s.replicas[n].currencies[s.replicas[n].next];
        GrewByInsert(before, s.accounts, id, Account(None, SYSTEM, c, ACTIVE, None));
    }
  }

  lemma StepOnlyAsked(before: map<AccountId, Account>, s: State, step: Step)
    requires OnlyAsked(before, s) && Enabled(s, step)
    ensures OnlyAsked(before, Apply(s, step))
  {
    var s' := Apply(s, step);
    assert forall n | n in s.replicas :: n in s'.replicas && s'.replicas[n].currencies == s.replicas[n].currencies;
    forall a | IsSystem(s'.accounts, a) && a !in before
      ensures Asked(s', s'.accounts[a].currency)
    {
      if a in s.accounts {
        var n :| n in s.replicas && s.accounts[a].currency in s.replicas[n].currencies;
        assert n in s'.replicas;
      } else {
        assert step.n in s'.replicas;
      }
    }
  }

  lemma {:induction false} RunOnlyProvisions(before: map<AccountId, Account>, s: State, steps: seq<Step>)
    requires Grew(before, s.accounts) && OnlyAsked(before, s) && Legal(s, steps)
    ensures Grew(before, Execute(s, steps).accounts) && OnlyAsked(before, Execute(s, steps))
    decreases |steps|
  {
    if steps != [] {
      StepGrows(before, s, steps[0]);
      StepOnlyAsked(before, s, steps[0]);
      RunOnlyProvisions(before, Apply(s, steps[0]), steps[1..]);
    }
  }

  /** However any number of replicas interleave: no account is changed, and the SYSTEM accounts added are ACTIVE,
      without owner and counter, and asked for; so if every SYSTEM account was ready for funding before, every
      one is afterwards. */
  lemma ProvisioningIsReady(accounts: map<AccountId, Account>, steps: seq<Step>)
    requires Legal(State(accounts, map[]), steps)
    ensures var s := Execute(State(accounts, map[]), steps);
            && Grew(accounts, s.accounts) && OnlyAsked(accounts, s)
            && (BoundariesReady(accounts) ==> BoundariesReady(s.accounts))
  {
    RunOnlyProvisions(accounts, State(accounts, map[]), steps);
  }

  /** How many more operations a replica takes at most. */
  function Remaining(replica: Replica): nat
    requires replica.next <= |replica.currencies|
  {
    if replica.next == |replica.currencies| then 0
    else
      3 * (|replica.currencies| - replica.next)
      - match replica.phase
        case Lookup => 0
        case Insert => 1
        case _ => 2
  }

  /** Every operation brings a replica closer to its end, whatever the others have done. */
  lemma AdvanceProgresses(s: State, n: nat, id: AccountId)
    requires Inv(s) && Enabled(s, Advance(n, id))
    ensures var s' := Apply(s, Advance(n, id));
            && n in s'.replicas && s'.replicas[n].currencies == s.replicas[n].currencies
            && s'.replicas[n].next <= |s'.replicas[n].currencies|
            && Remaining(s'.replicas[n]) < Remaining(s.replicas[n])
            && (forall m | m in s.replicas && m != n :: m in s'.replicas && s'.replicas[m] == s.replicas[m])
            && (Remaining(s'.replicas[n]) == 0 ==> Finished(s'.replicas[n]))
  {
    assert ReplicaOk(s.accounts, s.replicas[n]);
  }

  /** However any number of replicas interleave, from any accounts that obey the index: a replica that finishes
      has found or made exactly one SYSTEM account per currency of its list, two that finish with the same
      list return the same map, and none raises, because the read after a lost race always finds the winner. */
  lemma ProvisioningConverges(accounts: map<AccountId, Account>, steps: seq<Step>, n: nat, m: nat)
    requires AccountsOk(accounts) && Legal(State(accounts, map[]), steps)
    requires var s := Execute(State(accounts, map[]), steps); n in s.replicas && m in s.replicas
    ensures var s := Execute(State(accounts, map[]), steps);
            var here, there := s.replicas[n], s.replicas[m];
            && here.phase != Raised
            && (Finished(here) ==> here.ids.Keys == (set c | c in here.currencies))
            && (Finished(here) ==> forall c | c in here.ids :: forall a | a in s.accounts ::
                    s.accounts[a].kind == SYSTEM && s.accounts[a].currency == c <==> a == here.ids[c])
            && (Finished(here) && Finished(there) && here.currencies == there.currencies ==> here.ids == there.ids)
  {
    RunKeepsInv(State(accounts, map[]), steps);
    var s := Execute(State(accounts, map[]), steps);
    var here, there := s.replicas[n], s.replicas[m];
    assert ReplicaOk(s.accounts, here) && ReplicaOk(s.accounts, there);
    if Finished(here) {
      assert here.currencies[..here.next] == here.currencies;
      forall c, a | c in here.currencies && a in s.accounts
        ensures s.accounts[a].kind == SYSTEM && s.accounts[a].currency == c <==> a == here.ids[c]
      {
        if s.accounts[a].kind == SYSTEM && s.accounts[a].currency == c {
          SystemAccountIsUnique(s.accounts, a, here.ids[c]);
        }
      }
      if Finished(there) && here.currencies == there.currencies {
        assert there.currencies[..there.next] == there.currencies;
        forall c | c in here.ids
          ensures c in there.ids && there.ids[c] == here.ids[c]
        {
          SystemAccountIsUnique(s.accounts, here.ids[c], there.ids[c]);
        }
      }
    }
  }
}
