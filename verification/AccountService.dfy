// The account service as the application writes it: operations on a shared collection, and the start-up
// loop that fills a dictionary of SYSTEM accounts.
module AccountService {
  import opened Domain
  import opened Specification
  import Provisioning

  /** The accounts collection. Its only writers insert documents that the partial unique index admits. */
  class AccountsCollection {
    var accounts: map<AccountId, Account>

    ghost predicate Valid()
      reads this
    {
      AccountsOk(accounts)
    }

    constructor ()
      ensures Valid() && accounts == map[]
    {
      accounts := map[];
    }

    /** What other requests and replicas do between two operations of this one: any number of admitted
        inserts, of SYSTEM accounts only by other runs of EnsureSystemAccounts. Callers know nothing else about
        the accounts afterwards. */
    method Others()
      requires Valid()
      modifies this
      ensures Valid() && Grew(old(accounts), accounts)
    {
    }

    method FindSystem(currency: Currency) returns (found: Option<AccountId>)
      requires Valid()
      ensures found.Some? <==> HasSystemAccount(accounts, currency)
      ensures found.Some? ==> IsSystem(accounts, found.value) && accounts[found.value].currency == currency
    {
      found := None;
      if HasSystemAccount(accounts, currency) {
        var a :| a in accounts && accounts[a].kind == SYSTEM && accounts[a].currency == currency;
        found := Some(a);
      }
    }

    /** insert_one; None stands for DuplicateKeyError. */
    method InsertOne(account: Account) returns (inserted: Option<AccountId>)
      requires Valid() && (account.kind == SYSTEM ==> account.owner == None)
      modifies this
      ensures Valid()
      ensures inserted.None? <==> account.kind == SYSTEM && HasSystemAccount(old(accounts), account.currency)
      ensures inserted.None? ==> accounts == old(accounts)
      ensures inserted.Some? ==>
                inserted.value !in old(accounts) && accounts == old(accounts)[inserted.value := account]
    {
      if account.kind == SYSTEM && HasSystemAccount(accounts, account.currency) {
        inserted := None;
      } else {
        var id := NewId();
        Provisioning.AddingKeepsAccountsOk(accounts, id, account);
        accounts := accounts[id := account];
        inserted := Some(id);
      }
    }

    method NewId() returns (id: AccountId)
      ensures id !in accounts
    {
      var rest := accounts.Keys;
      id := 0;
      while rest != {}
        invariant rest <= accounts.Keys
        invariant forall a | a in accounts :: a in rest || a < id
        decreases |rest|
      {
        var a: AccountId :| a in rest;
        id := if a < id then id else a + 1;
        rest := rest - {a};
      }
    }

    /** create_account: the type is not a parameter. */
    method CreateAccount(owner: UserId, currency: Currency) returns (id: AccountId)
      requires Valid()
      modifies this
      ensures Valid() && id !in old(accounts)
      ensures accounts == old(accounts)[id := Account(Some(owner), USER, currency, ACTIVE, None)]
    {
      var inserted := InsertOne(Account(Some(owner), USER, currency, ACTIVE, None));
      id := inserted.value;
    }

    /** ensure_system_accounts, with other replicas at work between any two of its operations: the result maps
        exactly the given currencies to their SYSTEM accounts; accounts are only added, SYSTEM accounts only
        ACTIVE, without owner and without counter, so if all of them were so before, all are afterwards. */
    method EnsureSystemAccounts(currencies: seq<Currency>) returns (ids: map<Currency, AccountId>)
      requires Valid()
      modifies this
      ensures Valid() && Grew(old(accounts), accounts)
      ensures Provisioning.Provisions(accounts, currencies, ids)
      ensures BoundariesReady(old(accounts)) ==> BoundariesReady(accounts)
    {
      ids := map[];
      for i := 0 to |currencies|
        invariant Valid() && Grew(old(accounts), accounts)
        invariant Provisioning.Provisions(accounts, currencies[..i], ids)
      {
        var currency := currencies[i];
        Others();
        var existing := FindSystem(currency);
        if existing.Some? {
          OneMoreProvided(accounts, currencies, i, ids, existing.value);
          ids := ids[currency := existing.value];
          continue;
        }
        Others();
        ghost var before := accounts;
        var inserted := InsertOne(Account(None, SYSTEM, currency, ACTIVE, None));
        if inserted.Some? {
          Provisioning.GrewByInsert(old(accounts), before, inserted.value,
                                    Account(None, SYSTEM, currency, ACTIVE, None));
          OneMoreProvided(accounts, currencies, i, ids, inserted.value);
          ids := ids[currency := inserted.value];
        } else {
          SystemAccountStays(accounts, currency);
          Others();
          var winner := FindSystem(currency);
          OneMoreProvided(accounts, currencies, i, ids, winner.value);
          ids := ids[currency := winner.value];
        }
      }
    }
  }

  lemma OneMoreProvided(accounts: map<AccountId, Account>, currencies: seq<Currency>,
                        i: nat, ids: map<Currency, AccountId>, id: AccountId)
    requires i < |currencies| && Provisioning.Provisions(accounts, currencies[..i], ids)
    requires IsSystem(accounts, id) && accounts[id].currency == currencies[i]
    ensures Provisioning.Provisions(accounts, currencies[..i + 1], ids[currencies[i] := id])
  {
    assert currencies[..i + 1] == currencies[..i] + [currencies[i]];
  }

  /** Once a currency has a SYSTEM account, it has one in every later state of the collection. */
  lemma SystemAccountStays(before: map<AccountId, Account>, currency: Currency)
    requires HasSystemAccount(before, currency)
    ensures forall after: map<AccountId, Account> | Grew(before, after) :: HasSystemAccount(after, currency)
  {
    var a :| a in before && before[a].kind == SYSTEM && before[a].currency == currency;
    forall after: map<AccountId, Account> | Grew(before, after)
      ensures HasSystemAccount(after, currency)
    {
      assert a in after && after[a].kind == SYSTEM && after[a].currency == currency;
    }
  }

  /** Two replicas that provision the same currencies, whenever they finish, return the same map. */
  lemma ReplicasAgree(earlier: map<AccountId, Account>, later: map<AccountId, Account>, currencies: seq<Currency>,
                      ids: map<Currency, AccountId>, ids': map<Currency, AccountId>)
    requires Grew(earlier, later) && AccountsOk(later)
    requires Provisioning.Provisions(earlier, currencies, ids) && Provisioning.Provisions(later, currencies, ids')
    ensures ids == ids'
  {
    forall c | c in ids
      ensures c in ids' && ids'[c] == ids[c]
    {
      Provisioning.SystemAccountIsUnique(later, ids[c], ids'[c]);
    }
  }
}
