// The reconciliation report, and exactly what it detects.
module Reconciliation {
  import opened Domain
  import opened Specification
  import opened Aggregation

  datatype Report = Report(
    balanced: bool, healthy: bool, net: int, totalEntries: nat, totalTransactions: nat,
    entriesWithoutTransaction: nat, unbalancedGroups: nat, negativeUserAccounts: set<AccountId>,
    netPerCurrency: map<Tag, int>)

  function NetPerCurrency(entries: seq<Entry>): map<Tag, int> {
    var rows := Group(entries, CURRENCY);
    map tag | tag in rows :: rows[tag].net
  }

  /** Entries whose `$lookup` into the transactions finds nothing. */
  function EntriesWithoutTransaction(entries: seq<Entry>, headers: seq<Header>): nat {
    if entries == [] then 0
    else
      EntriesWithoutTransaction(entries[..|entries| - 1], headers)
      + if UsedId(headers, entries[|entries| - 1].transaction) then 0 else 1
  }

  predicate Unbalanced(row: Row) {
    row.count != 2 || row.debits != 1 || row.credits != 1 || row.net != 0
  }

  function UnbalancedGroups(entries: seq<Entry>): nat {
    var rows := Group(entries, TRANSACTION_ID);
    |set tag | tag in rows && Unbalanced(rows[tag])|
  }

  /** Groups with a negative sum whose account exists and is a USER account. */
  function NegativeUserAccounts(entries: seq<Entry>, accounts: map<AccountId, Account>): set<AccountId> {
    var rows := Group(entries, ACCOUNT_ID);
    set a | a in accounts && OfAccount(a) in rows && rows[OfAccount(a)].net < 0 && accounts[a].kind == USER
  }

  /** _gather_report, with each of its six reads from a version of its own: the net and count, the sums per
      currency, the lookup, the transaction groups, the account groups, and the number of transactions. */
  function GatherReport(net: Db, currency: Db, lookup: Db, groups: Db, negative: Db, count: Db): Report {
    var total := Total(net.entries);
    var perCurrency := NetPerCurrency(currency.entries);
    var orphans := EntriesWithoutTransaction(lookup.entries, lookup.headers);
    var unbalanced := UnbalancedGroups(groups.entries);
    var overdrawn := NegativeUserAccounts(negative.entries, negative.accounts);
    var balanced := total.net == 0 && forall tag | tag in perCurrency :: perCurrency[tag] == 0;
    Report(balanced, balanced && orphans == 0 && unbalanced == 0 && overdrawn == {},
           total.net, total.count, |count.headers|, orphans, unbalanced, overdrawn, perCurrency)
  }

  /** reconcile: all reads share one snapshot. */
  function Reconcile(db: Db): Report {
    GatherReport(db, db, db, db, db, db)
  }

  // ----- The declarative notion of a sound ledger -----

  ghost predicate AllAdmitted(entries: seq<Entry>) {
    forall e | e in entries :: EntryAdmitted(e)
  }

  ghost predicate EntriesHaveHeaders(db: Db) {
    forall e | e in db.entries :: UsedId(db.headers, e.transaction)
  }

  /** One DEBIT and one CREDIT whose signed amounts cancel out. */
  predicate CleanPair(entries: seq<Entry>) {
    |entries| == 2 && entries[0].direction != entries[1].direction && entries[0].signed + entries[1].signed == 0
  }

  /** On entries that the collection validator admits, this means one DEBIT and one CREDIT of the same amount. */
  lemma CleanPairHasOneAmount(entries: seq<Entry>)
    requires AllAdmitted(entries)
    ensures CleanPair(entries) <==>
            |entries| == 2 && entries[0].direction != entries[1].direction && entries[0].amount == entries[1].amount
  {
    if |entries| == 2 {
      assert EntryAdmitted(entries[0]) && EntryAdmitted(entries[1]);
    }
  }

  ghost predicate PairsClean(entries: seq<Entry>) {
    forall e | e in entries :: CleanPair(Match(entries, TRANSACTION_ID, OfTransaction(e.transaction)))
  }

  /** The sum of all signed amounts. */
  function SumSigned(entries: seq<Entry>): int {
    if entries == [] then 0 else SumSigned(entries[..|entries| - 1]) + entries[|entries| - 1].signed
  }

  /** The sum of the signed amounts of one currency's entries. */
  function SumIn(entries: seq<Entry>, c: Currency): int {
    if entries == [] then 0
    else
      var last := entries[|entries| - 1];
      SumIn(entries[..|entries| - 1], c) + if last.currency == c then last.signed else 0
  }

  ghost predicate CurrenciesBalance(entries: seq<Entry>) {
    forall c: Currency :: SumIn(entries, c) == 0
  }

  /** The positions of entries that have no header. */
  function Orphans(entries: seq<Entry>, headers: seq<Header>): set<nat> {
    set i | 0 <= i < |entries| && !UsedId(headers, entries[i].transaction)
  }

  // ----- Exactness, check by check -----

  lemma {:induction false} OrphansExact(entries: seq<Entry>, headers: seq<Header>)
    ensures EntriesWithoutTransaction(entries, headers) == |Orphans(entries, headers)|
  {
    if entries != [] {
      var n := |entries| - 1;
      OrphansExact(entries[..n], headers);
      var before := Orphans(entries[..n], headers);
      assert Orphans(entries, headers)
             == if UsedId(headers, entries[n].transaction) then before else before + {n};
    }
  }

  lemma NoOrphansIff(db: Db)
    ensures EntriesWithoutTransaction(db.entries, db.headers) == 0 <==> EntriesHaveHeaders(db)
  {
    OrphansExact(db.entries, db.headers);
    var orphans := Orphans(db.entries, db.headers);
    if orphans == {} {
      forall e | e in db.entries
        ensures UsedId(db.headers, e.transaction)
      {
        var i :| 0 <= i < |db.entries| && db.entries[i] == e;
        assert i !in orphans;
      }
    } else {
      var i :| i in orphans;
      assert db.entries[i] in db.entries;
    }
  }

  lemma {:induction false} NetIsSum(entries: seq<Entry>)
    ensures Total(entries).net == SumSigned(entries)
  {
    if entries != [] {
      NetIsSum(entries[..|entries| - 1]);
    }
  }

  lemma {:induction false} CurrencyNetIsSum(entries: seq<Entry>, c: Currency)
    ensures Total(Match(entries, CURRENCY, OfCurrency(c))).net == SumIn(entries, c)
  {
    if entries != [] {
      var n := |entries| - 1;
      CurrencyNetIsSum(entries[..n], c);
      TotalAppend(Match(entries[..n], CURRENCY, OfCurrency(c)), entries[n]);
    }
  }

  lemma TotalOfTwo(x: Entry, y: Entry)
    ensures Total([x, y]) == Accumulate(Accumulate(NO_ROW, x), y)
  {
    TotalAppend([], x);
    TotalAppend([x], y);
    assert [] + [x] == [x] && [x] + [y] == [x, y];
  }

  /** A group's row is accepted exactly if the group is one DEBIT and one CREDIT that cancel out. */
  lemma RowIsClean(group: seq<Entry>)
    ensures !Unbalanced(Total(group)) <==> CleanPair(group)
  {
    TotalCounts(group);
    if |group| == 2 {
      assert group == [group[0], group[1]];
      TotalOfTwo(group[0], group[1]);
    }
  }

  /** The transactions that occur in the entries without being a clean pair. */
  ghost function UncleanTransactions(entries: seq<Entry>): set<Tag> {
    set tag | tag in Tags(entries, TRANSACTION_ID) && !CleanPair(Match(entries, TRANSACTION_ID, tag))
  }

  lemma UnbalancedGroupsExact(entries: seq<Entry>)
    ensures UnbalancedGroups(entries) == |UncleanTransactions(entries)|
    ensures UnbalancedGroups(entries) == 0 <==> PairsClean(entries)
  {
    var rows := Group(entries, TRANSACTION_ID);
    var bad := set tag | tag in rows && Unbalanced(rows[tag]);
    forall tag
      ensures tag in bad <==> tag in UncleanTransactions(entries)
    {
      GroupIsExact(entries, TRANSACTION_ID, tag);
      RowIsClean(Match(entries, TRANSACTION_ID, tag));
    }
    assert bad == UncleanTransactions(entries);
    if bad == {} {
      forall e | e in entries
        ensures CleanPair(Match(entries, TRANSACTION_ID, OfTransaction(e.transaction)))
      {
        assert TagOf(e, TRANSACTION_ID) in Tags(entries, TRANSACTION_ID);
        assert OfTransaction(e.transaction) !in UncleanTransactions(entries);
      }
    }
  }

  /** The per-currency figures: one for each currency that occurs, the sum of its entries. */
  ghost predicate FiguresExact(figures: map<Tag, int>, entries: seq<Entry>) {
    && (forall tag :: tag in figures <==> exists e :: e in entries && tag == OfCurrency(e.currency))
    && (forall tag | tag in figures :: tag.OfCurrency? && figures[tag] == SumIn(entries, tag.currency))
  }

  lemma CurrencyFigures(entries: seq<Entry>)
    ensures FiguresExact(NetPerCurrency(entries), entries)
  {
    forall tag
      ensures tag in NetPerCurrency(entries) <==> exists e :: e in entries && tag == OfCurrency(e.currency)
      ensures tag in NetPerCurrency(entries) ==>
                tag.OfCurrency? && NetPerCurrency(entries)[tag] == SumIn(entries, tag.currency)
    {
      GroupIsExact(entries, CURRENCY, tag);
      if tag in NetPerCurrency(entries) {
        var e :| e in entries && TagOf(e, CURRENCY) == tag;
        CurrencyNetIsSum(entries, tag.currency);
      }
      if e :| e in entries && tag == OfCurrency(e.currency) {
        assert TagOf(e, CURRENCY) in Tags(entries, CURRENCY);
      }
    }
  }

  lemma {:induction false} AbsentCurrencyIsZero(entries: seq<Entry>, c: Currency)
    requires forall e | e in entries :: e.currency != c
    ensures SumIn(entries, c) == 0
  {
    if entries != [] {
      assert entries[|entries| - 1] in entries;
      AbsentCurrencyIsZero(entries[..|entries| - 1], c);
    }
  }

  lemma CurrenciesExact(entries: seq<Entry>)
    ensures (forall tag | tag in NetPerCurrency(entries) :: NetPerCurrency(entries)[tag] == 0)
            <==> CurrenciesBalance(entries)
  {
    var figures := NetPerCurrency(entries);
    CurrencyFigures(entries);
    forall c: Currency
      ensures OfCurrency(c) in figures ==> figures[OfCurrency(c)] == SumIn(entries, c)
      ensures OfCurrency(c) !in figures ==> SumIn(entries, c) == 0
    {
      if OfCurrency(c) !in figures {
        AbsentCurrencyIsZero(entries, c);
      }
    }
  }

  /** The per-currency sums all being zero makes the global sum zero. */
  lemma CurrenciesBalanceNet(entries: seq<Entry>)
    requires CurrenciesBalance(entries)
    ensures Total(entries).net == 0
  {
    forall tag | tag in Tags(entries, CURRENCY)
      ensures Total(Match(entries, CURRENCY, tag)).net == 0
    {
      CurrencyNetIsSum(entries, tag.currency);
    }
    ZeroGroupsZeroNet(entries, CURRENCY, Tags(entries, CURRENCY));
    MatchAll(entries, CURRENCY, Tags(entries, CURRENCY));
  }

  lemma NegativeUsersExact(db: Db)
    ensures NegativeUserAccounts(db.entries, db.accounts)
         == set a | a in db.accounts && db.accounts[a].kind == USER && Balance(db.entries, a) < 0
    ensures NegativeUserAccounts(db.entries, db.accounts) == {} <==> NoOverdraft(db)
  {
    forall a: AccountId
      ensures a in NegativeUserAccounts(db.entries, db.accounts)
              <==> IsUser(db.accounts, a) && Balance(db.entries, a) < 0
    {
      GroupIsExact(db.entries, ACCOUNT_ID, OfAccount(a));
      MatchedNetIsBalance(db.entries, a);
    }
  }

  /** What each field of the report means, in terms of the version that it was read from: the sum of all signed
      amounts, the number of entries, the sum for exactly the currencies that occur, the number of entries
      without a header, the number of transactions that are not a clean pair, the USER accounts with a negative
      balance, and the number of headers. `balanced` is that the net and all figures are zero, and `healthy`
      that nothing else was found either. */
  lemma GatheredFieldsAreExact(net: Db, currency: Db, lookup: Db, groups: Db, negative: Db, count: Db)
    ensures var report := GatherReport(net, currency, lookup, groups, negative, count);
            && report.net == SumSigned(net.entries)
            && report.totalEntries == |net.entries|
            && FiguresExact(report.netPerCurrency, currency.entries)
            && report.entriesWithoutTransaction == |Orphans(lookup.entries, lookup.headers)|
            && report.unbalancedGroups == |UncleanTransactions(groups.entries)|
            && report.negativeUserAccounts
               == (set a | a in negative.accounts && negative.accounts[a].kind == USER
                         && Balance(negative.entries, a) < 0)
            && report.totalTransactions == |count.headers|
            && (report.balanced <==> SumSigned(net.entries) == 0 && CurrenciesBalance(currency.entries))
            && (report.healthy <==>
                  && report.balanced && EntriesHaveHeaders(lookup) && PairsClean(groups.entries)
                  && NoOverdraft(negative))
  {
    NetIsSum(net.entries);
    TotalCounts(net.entries);
    CurrencyFigures(currency.entries);
    CurrenciesExact(currency.entries);
    OrphansExact(lookup.entries, lookup.headers);
    NoOrphansIff(lookup);
    UnbalancedGroupsExact(groups.entries);
    NegativeUsersExact(negative);
  }

  /** On one snapshot the global net adds nothing: it is zero as soon as every currency is balanced. */
  lemma ReportIsExact(db: Db)
    ensures var report := Reconcile(db);
            && report.net == SumSigned(db.entries)
            && FiguresExact(report.netPerCurrency, db.entries)
            && (report.balanced <==> CurrenciesBalance(db.entries))
            && report.entriesWithoutTransaction == |Orphans(db.entries, db.headers)|
            && report.unbalancedGroups == |UncleanTransactions(db.entries)|
            && report.negativeUserAccounts
               == (set a | a in db.accounts && db.accounts[a].kind == USER && Balance(db.entries, a) < 0)
            && report.totalEntries == |db.entries| && report.totalTransactions == |db.headers|
  {
    GatheredFieldsAreExact(db, db, db, db, db, db);
    NetIsSum(db.entries);
    if CurrenciesBalance(db.entries) {
      CurrenciesBalanceNet(db.entries);
    }
  }

  /** `healthy` is exact: for every ledger it holds if and only if every entry has a header, every
      transaction's entries are one DEBIT and one CREDIT that cancel out, every currency nets to zero, and no
      existing USER account is negative. */
  lemma HealthyIffSound(db: Db)
    ensures Reconcile(db).healthy <==>
            EntriesHaveHeaders(db) && PairsClean(db.entries) && CurrenciesBalance(db.entries) && NoOverdraft(db)
  {
    ReportIsExact(db);
    GatheredFieldsAreExact(db, db, db, db, db, db);
  }

  // ----- Counting -----

  predicate DistinctIds(headers: seq<Header>) {
    forall i, j | 0 <= i < j < |headers| :: headers[i].id != headers[j].id
  }

  function HeaderTags(headers: seq<Header>): set<Tag> {
    set h | h in headers :: OfTransaction(h.id)
  }

  lemma {:induction false} HeaderTagsCount(headers: seq<Header>)
    requires DistinctIds(headers)
    ensures |HeaderTags(headers)| == |headers|
  {
    if headers != [] {
      var n := |headers| - 1;
      HeaderTagsCount(headers[..n]);
      assert headers == headers[..n] + [headers[n]];
      assert HeaderTags(headers) == HeaderTags(headers[..n]) + {OfTransaction(headers[n].id)};
    }
  }

  /** A healthy ledger has at most twice as many entries as transactions, with equality exactly if every header
      has entries. */
  lemma HealthyCounts(db: Db)
    requires DistinctIds(db.headers) && Reconcile(db).healthy
    ensures Reconcile(db).totalEntries <= 2 * Reconcile(db).totalTransactions
    ensures Reconcile(db).totalEntries == 2 * Reconcile(db).totalTransactions <==>
            forall h | h in db.headers :: exists e :: e in db.entries && e.transaction == h.id
  {
    HealthyIffSound(db);
    TotalCounts(db.entries);
    var tags, ids := Tags(db.entries, TRANSACTION_ID), HeaderTags(db.headers);
    forall tag | tag in tags
      ensures |Match(db.entries, TRANSACTION_ID, tag)| == 2 && tag in ids
    {
      var e :| e in db.entries && TagOf(e, TRANSACTION_ID) == tag;
      assert UsedId(db.headers, e.transaction);
    }
    PairsCount(db.entries, TRANSACTION_ID, tags);
    MatchAll(db.entries, TRANSACTION_ID, tags);
    HeaderTagsCount(db.headers);
    SubsetSize(tags, ids);
    if tags == ids {
      forall h | h in db.headers
        ensures exists e :: e in db.entries && e.transaction == h.id
      {
        assert OfTransaction(h.id) in tags;
      }
    }
    if forall h | h in db.headers :: exists e :: e in db.entries && e.transaction == h.id {
      forall tag | tag in ids
        ensures tag in tags
      {
        var h :| h in db.headers && OfTransaction(h.id) == tag;
        var e :| e in db.entries && e.transaction == h.id;
        assert TagOf(e, TRANSACTION_ID) == tag;
      }
      assert tags == ids;
    }
  }

  // ----- Tampering with one entry -----

  lemma GroupOfHealthy(db: Db, e: Entry)
    requires Reconcile(db).healthy && e in db.entries
    ensures CleanPair(Match(db.entries, TRANSACTION_ID, OfTransaction(e.transaction)))
  {
    HealthyIffSound(db);
  }

  /** What matches in a list with one entry in the middle. */
  lemma MatchAround(before: seq<Entry>, e: Entry, after: seq<Entry>, field: Field, tag: Tag)
    ensures Match(before + [e] + after, field, tag)
         == Match(before, field, tag) + (if TagOf(e, field) == tag then [e] else []) + Match(after, field, tag)
  {
    MatchConcat(before + [e], after, field, tag);
    MatchAppend(before, e, field, tag);
    assert Match(before, field, tag) + [] == Match(before, field, tag);
  }

  lemma SumInAppend(entries: seq<Entry>, e: Entry, c: Currency)
    ensures SumIn(entries + [e], c) == SumIn(entries, c) + if e.currency == c then e.signed else 0
    ensures SumSigned(entries + [e]) == SumSigned(entries) + e.signed
  {
    assert (entries + [e])[..|entries|] == entries;
  }

  lemma {:induction false} SumInConcat(left: seq<Entry>, right: seq<Entry>, c: Currency)
    ensures SumIn(left + right, c) == SumIn(left, c) + SumIn(right, c)
    ensures SumSigned(left + right) == SumSigned(left) + SumSigned(right)
    decreases |right|
  {
    if right == [] {
      assert left + right == left;
    } else {
      var n := |right| - 1;
      var shorter, last := right[..n], right[n];
      SumInConcat(left, shorter, c);
      SumInAppend(left + shorter, last, c);
      SumInAppend(shorter, last, c);
      assert right == shorter + [last];
      assert left + right == left + shorter + [last];
    }
  }

  /** What one entry in the middle of a list contributes. */
  lemma SumInAround(before: seq<Entry>, e: Entry, after: seq<Entry>, c: Currency)
    ensures SumIn(before + [e] + after, c)
         == SumIn(before + after, c) + if e.currency == c then e.signed else 0
    ensures SumIn(before + after, c) == SumIn(before, c) + SumIn(after, c)
    ensures SumSigned(before + [e] + after) == SumSigned(before + after) + e.signed
  {
    SumInConcat(before + [e], after, c);
    SumInAppend(before, e, c);
    SumInConcat(before, after, c);
  }

  /** The report shows one transaction off, and in the global net and in currency c, and there only, the amount. */
  ghost predicate OffBy(report: Report, c: Currency, amount: int) {
    && !report.balanced && !report.healthy
    && report.net == amount
    && (forall tag | tag in report.netPerCurrency && tag != OfCurrency(c) :: report.netPerCurrency[tag] == 0)
    && OfCurrency(c) in report.netPerCurrency && report.netPerCurrency[OfCurrency(c)] == amount
    && report.unbalancedGroups == 1
  }

  lemma OffByIn(db: Db, c: Currency, amount: int, tag: Tag)
    requires amount != 0
    requires SumSigned(db.entries) == amount && SumIn(db.entries, c) == amount
    requires forall d | d != c :: SumIn(db.entries, d) == 0
    requires UncleanTransactions(db.entries) == {tag}
    ensures OffBy(Reconcile(db), c, amount)
  {
    ReportIsExact(db);
    HealthyIffSound(db);
    UnbalancedGroupsExact(db.entries);
    if OfCurrency(c) !in Reconcile(db).netPerCurrency {
      AbsentCurrencyIsZero(db.entries, c);
    }
  }

  /** Deleting any one entry of a healthy ledger makes it unhealthy, and the report tells what is missing: the
      global net and the figure of the entry's currency are minus its signed amount, all other figures are zero,
      and exactly one transaction is unbalanced. */
  lemma DeletionIsDetected(db: Db, i: nat)
    requires AllAdmitted(db.entries) && Reconcile(db).healthy && i < |db.entries|
    ensures var e := db.entries[i];
            OffBy(Reconcile(db.(entries := db.entries[..i] + db.entries[i + 1..])), e.currency, -e.signed)
  {
    var before, e, after := db.entries[..i], db.entries[i], db.entries[i + 1..];
    assert db.entries == before + [e] + after;
    HealthyIffSound(db);
    GatheredFieldsAreExact(db, db, db, db, db, db);
    SumInAround(before, e, after, e.currency);
    forall c: Currency
      ensures SumIn(before + after, c) == if e.currency == c then -e.signed else 0
    {
      SumInAround(before, e, after, c);
    }
    forall tag
      ensures tag in UncleanTransactions(before + after) <==> tag == OfTransaction(e.transaction)
    {
      DeletionBreaksOne(db, i, tag);
    }
    assert EntryAdmitted(e);
    OffByIn(db.(entries := before + after), e.currency, -e.signed, OfTransaction(e.transaction));
  }

  lemma DeletionBreaksOne(db: Db, i: nat, tag: Tag)
    requires Reconcile(db).healthy && i < |db.entries|
    ensures tag in UncleanTransactions(db.entries[..i] + db.entries[i + 1..])
            <==> tag == OfTransaction(db.entries[i].transaction)
  {
    var before, e, after := db.entries[..i], db.entries[i], db.entries[i + 1..];
    assert db.entries == before + [e] + after;
    MatchAround(before, e, after, TRANSACTION_ID, tag);
    MatchConcat(before, after, TRANSACTION_ID, tag);
    if tag == OfTransaction(e.transaction) {
      GroupOfHealthy(db, e);
      var group := Match(before + after, TRANSACTION_ID, tag);
      assert |group| == 1;
      MatchIn(before + after, TRANSACTION_ID, tag, group[0]);
    } else if x :| x in before + after && TagOf(x, TRANSACTION_ID) == tag {
      assert x in db.entries;
      GroupOfHealthy(db, x);
      assert Match(before, TRANSACTION_ID, tag) + [] == Match(before, TRANSACTION_ID, tag);
    }
  }

  /** Inserting, anywhere, any one entry that the validator admits, whether or not the (transaction_id, direction)
      index does, makes a healthy ledger unhealthy, and the report tells what is too much. */
  lemma InsertionIsDetected(db: Db, i: nat, e: Entry)
    requires Reconcile(db).healthy && i <= |db.entries| && EntryAdmitted(e)
    ensures OffBy(Reconcile(db.(entries := db.entries[..i] + [e] + db.entries[i..])), e.currency, e.signed)
  {
    var before, after := db.entries[..i], db.entries[i..];
    assert db.entries == before + after;
    HealthyIffSound(db);
    GatheredFieldsAreExact(db, db, db, db, db, db);
    SumInAround(before, e, after, e.currency);
    forall c: Currency
      ensures SumIn(before + [e] + after, c) == if e.currency == c then e.signed else 0
    {
      SumInAround(before, e, after, c);
    }
    forall tag
      ensures tag in UncleanTransactions(before + [e] + after) <==> tag == OfTransaction(e.transaction)
    {
      InsertionBreaksOne(db, i, e, tag);
    }
    OffByIn(db.(entries := before + [e] + after), e.currency, e.signed, OfTransaction(e.transaction));
  }

  lemma InsertionBreaksOne(db: Db, i: nat, e: Entry, tag: Tag)
    requires Reconcile(db).healthy && i <= |db.entries|
    ensures tag in UncleanTransactions(db.entries[..i] + [e] + db.entries[i..])
            <==> tag == OfTransaction(e.transaction)
  {
    var before, after := db.entries[..i], db.entries[i..];
    assert db.entries == before + after;
    MatchAround(before, e, after, TRANSACTION_ID, tag);
    MatchConcat(before, after, TRANSACTION_ID, tag);
    if tag == OfTransaction(e.transaction) {
      var present := Match(db.entries, TRANSACTION_ID, tag);
      if present != [] {
        MatchIn(db.entries, TRANSACTION_ID, tag, present[0]);
        GroupOfHealthy(db, present[0]);
        assert |Match(before + [e] + after, TRANSACTION_ID, tag)| == 3;
      }
      assert e in before + [e] + after && TagOf(e, TRANSACTION_ID) == tag;
    } else if x :| x in before + [e] + after && TagOf(x, TRANSACTION_ID) == tag {
      assert x in db.entries;
      GroupOfHealthy(db, x);
      assert Match(before, TRANSACTION_ID, tag) + [] == Match(before, TRANSACTION_ID, tag);
    }
  }

  predicate SameButAccount(e: Entry, e': Entry) {
    e' == e.(account := e'.account)
  }

  lemma RedirectionKeepsGroups(before: seq<Entry>, e: Entry, e': Entry, after: seq<Entry>, tag: Tag)
    requires SameButAccount(e, e') && CleanPair(Match(before + [e] + after, TRANSACTION_ID, tag))
    ensures CleanPair(Match(before + [e'] + after, TRANSACTION_ID, tag))
  {
    MatchAround(before, e, after, TRANSACTION_ID, tag);
    MatchAround(before, e', after, TRANSACTION_ID, tag);
  }

  /** Redirecting an entry to another account leaves every check but the one on accounts as it was. */
  lemma RedirectionKeepsRest(db: Db, i: nat, e': Entry)
    requires AllAdmitted(db.entries) && Reconcile(db).healthy && i < |db.entries| && SameButAccount(db.entries[i], e')
    ensures var db' := db.(entries := db.entries[..i] + [e'] + db.entries[i + 1..]);
            && AllAdmitted(db'.entries) && EntriesHaveHeaders(db')
            && PairsClean(db'.entries) && CurrenciesBalance(db'.entries)
  {
    var before, e, after := db.entries[..i], db.entries[i], db.entries[i + 1..];
    var entries' := before + [e'] + after;
    assert db.entries == before + [e] + after;
    HealthyIffSound(db);
    forall x | x in entries'
      ensures EntryAdmitted(x) && UsedId(db.headers, x.transaction)
      ensures CleanPair(Match(entries', TRANSACTION_ID, OfTransaction(x.transaction)))
    {
      var y := if x in before || x in after then x else e;
      assert y in db.entries && y.transaction == x.transaction;
      RedirectionKeepsGroups(before, e, e', after, OfTransaction(x.transaction));
    }
    forall c: Currency
      ensures SumIn(entries', c) == 0
    {
      SumInAround(before, e, after, c);
      SumInAround(before, e', after, c);
    }
  }

  /** If the ledger is still healthy, the replaced entry kept its transaction. */
  lemma HealthyKeepsTransaction(db: Db, i: nat, e': Entry)
    requires AllAdmitted(db.entries) && Reconcile(db).healthy && i < |db.entries| && EntryAdmitted(e')
    requires Reconcile(db.(entries := db.entries[..i] + [e'] + db.entries[i + 1..])).healthy
    ensures e'.transaction == db.entries[i].transaction
  {
    var before, e, after := db.entries[..i], db.entries[i], db.entries[i + 1..];
    var entries' := before + [e'] + after;
    var tag := OfTransaction(e.transaction);
    assert db.entries == before + [e] + after;
    GroupOfHealthy(db, e);
    MatchAround(before, e, after, TRANSACTION_ID, tag);
    MatchAround(before, e', after, TRANSACTION_ID, tag);
    var group := Match(entries', TRANSACTION_ID, tag);
    if e'.transaction != e.transaction {
      MatchIn(entries', TRANSACTION_ID, tag, group[0]);
      GroupOfHealthy(db.(entries := entries'), group[0]);
    }
  }

  /** If the ledger is still healthy, the replaced entry kept its direction, amount and currency too. */
  lemma HealthyKeepsRest(db: Db, i: nat, e': Entry)
    requires AllAdmitted(db.entries) && Reconcile(db).healthy && i < |db.entries| && EntryAdmitted(e')
    requires e'.transaction == db.entries[i].transaction
    requires Reconcile(db.(entries := db.entries[..i] + [e'] + db.entries[i + 1..])).healthy
    ensures SameButAccount(db.entries[i], e')
  {
    var before, e, after := db.entries[..i], db.entries[i], db.entries[i + 1..];
    var db' := db.(entries := before + [e'] + after);
    var tag := OfTransaction(e.transaction);
    assert db.entries == before + [e] + after;
    GroupOfHealthy(db, e);
    GroupOfHealthy(db', e');
    MatchAround(before, e, after, TRANSACTION_ID, tag);
    MatchAround(before, e', after, TRANSACTION_ID, tag);
    assert e'.direction == e.direction && e'.amount == e.amount;
    HealthyIffSound(db);
    HealthyIffSound(db');
    SumInAround(before, e, after, e.currency);
    SumInAround(before, e', after, e.currency);
  }

  /** Replacing any one entry of a healthy ledger by an entry that the validator admits goes undetected exactly
      if nothing but its account changes and no USER account becomes negative by it. In particular every
      self-consistent change of an amount, a direction, a currency or a transaction is detected. */
  lemma ReplacementIsDetectedExactly(db: Db, i: nat, e': Entry)
    requires AllAdmitted(db.entries) && Reconcile(db).healthy && i < |db.entries| && EntryAdmitted(e')
    ensures var db' := db.(entries := db.entries[..i] + [e'] + db.entries[i + 1..]);
            Reconcile(db').healthy <==> SameButAccount(db.entries[i], e') && NoOverdraft(db')
  {
    var db' := db.(entries := db.entries[..i] + [e'] + db.entries[i + 1..]);
    assert AllAdmitted(db'.entries);
    HealthyIffSound(db');
    if Reconcile(db').healthy {
      HealthyKeepsTransaction(db, i, e');
      HealthyKeepsRest(db, i, e');
    }
    if SameButAccount(db.entries[i], e') {
      RedirectionKeepsRest(db, i, e');
    }
  }
}
