// `$group` aggregations over ledger entries, and the balance service.
module Aggregation {
  import opened Domain

  /** The `$field` that a `$group` stage groups by, and a value of it. */
  datatype Field = TRANSACTION_ID | ACCOUNT_ID | CURRENCY

  datatype Tag = OfTransaction(id: TransactionId) | OfAccount(account: AccountId) | OfCurrency(currency: Currency)

  function TagOf(e: Entry, field: Field): Tag {
    match field
    case TRANSACTION_ID => OfTransaction(e.transaction)
    case ACCOUNT_ID => OfAccount(e.account)
    case CURRENCY => OfCurrency(e.currency)
  }

  /** All accumulators that the pipelines use: `$sum` of 1, of the signed amount, of 1 or of the amount
      conditional on the direction. */
  datatype Row = Row(count: nat, net: int, debits: nat, credits: nat, debited: int, credited: int)

  const NO_ROW := Row(0, 0, 0, 0, 0, 0)

  function Accumulate(row: Row, e: Entry): Row {
    var debit := e.direction == DEBIT;
    var credit := e.direction == CREDIT;
    Row(row.count + 1, row.net + e.signed,
        row.debits + if debit then 1 else 0,
        row.credits + if credit then 1 else 0,
        row.debited + if debit then e.amount else 0,
        row.credited + if credit then e.amount else 0)
  }

  /** `$group: {_id: null}`: one row over all entries. */
  function Total(entries: seq<Entry>): Row {
    if entries == [] then NO_ROW
    else Accumulate(Total(entries[..|entries| - 1]), entries[|entries| - 1])
  }

  /** `$group: {_id: "$field"}`: one row per value of the field that occurs. */
  function Group(entries: seq<Entry>, field: Field): map<Tag, Row> {
    if entries == [] then map[]
    else
      var rows := Group(entries[..|entries| - 1], field);
      var last := entries[|entries| - 1];
      var tag := TagOf(last, field);
      rows[tag := Accumulate(if tag in rows then rows[tag] else NO_ROW, last)]
  }

  /** `$match: {field: tag}`. */
  function Match(entries: seq<Entry>, field: Field, tag: Tag): seq<Entry> {
    if entries == [] then []
    else
      var last := entries[|entries| - 1];
      var rest := Match(entries[..|entries| - 1], field, tag);
      if TagOf(last, field) == tag then rest + [last] else rest
  }

  /** The values of a field that occur. */
  function Tags(entries: seq<Entry>, field: Field): set<Tag> {
    set e | e in entries :: TagOf(e, field)
  }

  lemma TotalAppend(entries: seq<Entry>, e: Entry)
    ensures Total(entries + [e]) == Accumulate(Total(entries), e)
  {
    assert (entries + [e])[..|entries|] == entries;
  }

  lemma MatchAppend(entries: seq<Entry>, e: Entry, field: Field, tag: Tag)
    ensures Match(entries + [e], field, tag)
         == if TagOf(e, field) == tag then Match(entries, field, tag) + [e] else Match(entries, field, tag)
  {
    assert (entries + [e])[..|entries|] == entries;
  }

  lemma {:induction false} MatchConcat(left: seq<Entry>, right: seq<Entry>, field: Field, tag: Tag)
    ensures Match(left + right, field, tag) == Match(left, field, tag) + Match(right, field, tag)
    decreases |right|
  {
    if right == [] {
      assert left + right == left;
    } else {
      var n := |right| - 1;
      MatchConcat(left, right[..n], field, tag);
      MatchAppend(left + right[..n], right[n], field, tag);
      assert left + right == left + right[..n] + [right[n]];
    }
  }

  lemma {:induction false} MatchIn(entries: seq<Entry>, field: Field, tag: Tag, e: Entry)
    ensures e in Match(entries, field, tag) <==> e in entries && TagOf(e, field) == tag
  {
    if entries != [] {
      var n := |entries| - 1;
      MatchIn(entries[..n], field, tag, e);
      assert entries == entries[..n] + [entries[n]];
    }
  }

  /** Grouping is exact: there is a row for each value that occurs, and it is the aggregate of the entries that
      match the value. */
  lemma {:induction false} GroupIsExact(entries: seq<Entry>, field: Field, tag: Tag)
    ensures tag in Group(entries, field) <==> tag in Tags(entries, field)
    ensures tag in Group(entries, field) <==> Match(entries, field, tag) != []
    ensures tag in Group(entries, field) ==> Group(entries, field)[tag] == Total(Match(entries, field, tag))
  {
    if entries != [] {
      var n := |entries| - 1;
      GroupIsExact(entries[..n], field, tag);
      TagsAppend(entries[..n], entries[n], field);
      assert entries == entries[..n] + [entries[n]];
      if TagOf(entries[n], field) == tag {
        TotalAppend(Match(entries[..n], field, tag), entries[n]);
      }
    }
  }

  lemma TagsAppend(entries: seq<Entry>, e: Entry, field: Field)
    ensures Tags(entries + [e], field) == Tags(entries, field) + {TagOf(e, field)}
  {
    assert forall x | x in entries :: TagOf(x, field) in Tags(entries, field);
  }

  // ----- Regrouping: a sum over the groups is the sum over the list -----

  /** The sum of one column over the groups of the tags in s. */
  ghost function NetOfGroups(entries: seq<Entry>, field: Field, tags: set<Tag>): int {
    if tags == {} then 0
    else
      var tag :| tag in tags;
      Total(Match(entries, field, tag)).net + NetOfGroups(entries, field, tags - {tag})
  }

  /** The entries whose tag is in s. */
  function MatchAny(entries: seq<Entry>, field: Field, tags: set<Tag>): seq<Entry> {
    if entries == [] then []
    else
      var last := entries[|entries| - 1];
      var rest := MatchAny(entries[..|entries| - 1], field, tags);
      if TagOf(last, field) in tags then rest + [last] else rest
  }

  lemma {:induction false} MatchAnySplits(entries: seq<Entry>, field: Field, tags: set<Tag>, tag: Tag)
    requires tag in tags
    ensures var whole := MatchAny(entries, field, tags);
            var part, rest := Match(entries, field, tag), MatchAny(entries, field, tags - {tag});
            Total(whole).net == Total(part).net + Total(rest).net && |whole| == |part| + |rest|
  {
    if entries != [] {
      var n := |entries| - 1;
      var last := entries[n];
      MatchAnySplits(entries[..n], field, tags, tag);
      TotalAppend(MatchAny(entries[..n], field, tags), last);
      TotalAppend(Match(entries[..n], field, tag), last);
      TotalAppend(MatchAny(entries[..n], field, tags - {tag}), last);
    }
  }

  lemma {:induction false} MatchNone(entries: seq<Entry>, field: Field)
    ensures MatchAny(entries, field, {}) == []
  {
    if entries != [] {
      MatchNone(entries[..|entries| - 1], field);
    }
  }

  lemma {:induction false} MatchAll(entries: seq<Entry>, field: Field, tags: set<Tag>)
    requires Tags(entries, field) <= tags
    ensures MatchAny(entries, field, tags) == entries
  {
    if entries != [] {
      var n := |entries| - 1;
      assert entries == entries[..n] + [entries[n]];
      assert TagOf(entries[n], field) in Tags(entries, field);
      MatchAll(entries[..n], field, tags);
    }
  }

  lemma {:induction false} GroupsSumUp(entries: seq<Entry>, field: Field, tags: set<Tag>)
    ensures NetOfGroups(entries, field, tags) == Total(MatchAny(entries, field, tags)).net
    decreases |tags|
  {
    if tags == {} {
      MatchNone(entries, field);
    } else {
      var tag :| tag in tags && NetOfGroups(entries, field, tags)
                              == Total(Match(entries, field, tag)).net + NetOfGroups(entries, field, tags - {tag});
      GroupsSumUp(entries, field, tags - {tag});
      MatchAnySplits(entries, field, tags, tag);
    }
  }

  /** The sums per transaction, per account and per currency are three partitions of one list: each totals to
      the global net. */
  lemma PartitionsAgree(entries: seq<Entry>, field: Field)
    ensures NetOfGroups(entries, field, Group(entries, field).Keys) == Total(entries).net
  {
    forall tag
      ensures tag in Group(entries, field) <==> tag in Tags(entries, field)
    {
      GroupIsExact(entries, field, tag);
    }
    assert Group(entries, field).Keys == Tags(entries, field);
    GroupsSumUp(entries, field, Tags(entries, field));
    MatchAll(entries, field, Tags(entries, field));
  }

  /** If every group nets to zero, so does the whole list. */
  lemma {:induction false} ZeroGroupsZeroNet(entries: seq<Entry>, field: Field, tags: set<Tag>)
    requires forall tag | tag in tags :: Total(Match(entries, field, tag)).net == 0
    ensures Total(MatchAny(entries, field, tags)).net == 0
    decreases |tags|
  {
    if tags == {} {
      MatchNone(entries, field);
    } else {
      var tag :| tag in tags;
      ZeroGroupsZeroNet(entries, field, tags - {tag});
      MatchAnySplits(entries, field, tags, tag);
    }
  }

  /** If every group has two members, there are twice as many entries as groups. */
  lemma {:induction false} PairsCount(entries: seq<Entry>, field: Field, tags: set<Tag>)
    requires forall tag | tag in tags :: |Match(entries, field, tag)| == 2
    ensures |MatchAny(entries, field, tags)| == 2 * |tags|
    decreases |tags|
  {
    if tags == {} {
      MatchNone(entries, field);
    } else {
      var tag :| tag in tags;
      PairsCount(entries, field, tags - {tag});
      MatchAnySplits(entries, field, tags, tag);
    }
  }

  // ----- The balance service -----

  datatype ComputedBalance = ComputedBalance(balance: int, credited: int, debited: int, count: nat)

  const ZERO_BALANCE := ComputedBalance(0, 0, 0, 0)

  /** compute_balance: `$match` on the account, then `$group: {_id: null}`; no rows give the zero value. */
  function ComputeBalance(entries: seq<Entry>, account: AccountId): ComputedBalance {
    var matched := Match(entries, ACCOUNT_ID, OfAccount(account));
    if matched == [] then ZERO_BALANCE
    else
      var row := Total(matched);
      ComputedBalance(row.net, row.credited, row.debited, row.count)
  }

  lemma {:induction false} TotalCounts(entries: seq<Entry>)
    ensures Total(entries).count == |entries|
    ensures Total(entries).debits + Total(entries).credits == |entries|
  {
    if entries != [] {
      TotalCounts(entries[..|entries| - 1]);
    }
  }

  lemma {:induction false} MatchedNetIsBalance(entries: seq<Entry>, account: AccountId)
    ensures Total(Match(entries, ACCOUNT_ID, OfAccount(account))).net == Balance(entries, account)
  {
    if entries != [] {
      var n := |entries| - 1;
      MatchedNetIsBalance(entries[..n], account);
      TotalAppend(Match(entries[..n], ACCOUNT_ID, OfAccount(account)), entries[n]);
    }
  }

  /** The sum of the magnitudes of one account's entries in one direction. */
  function Moved(entries: seq<Entry>, account: AccountId, direction: Direction): int {
    if entries == [] then 0
    else
      var last := entries[|entries| - 1];
      Moved(entries[..|entries| - 1], account, direction)
      + if last.account == account && last.direction == direction then last.amount else 0
  }

  /** The number of one account's entries. */
  function EntryCount(entries: seq<Entry>, account: AccountId): nat {
    if entries == [] then 0
    else EntryCount(entries[..|entries| - 1], account) + if entries[|entries| - 1].account == account then 1 else 0
  }

  /** A row tells an account's gross flows and the number of its entries. */
  predicate RowTells(row: Row, entries: seq<Entry>, account: AccountId) {
    && row.credited == Moved(entries, account, CREDIT) && row.debited == Moved(entries, account, DEBIT)
    && row.count == EntryCount(entries, account)
  }

  lemma OneMoreTold(row: Row, entries: seq<Entry>, e: Entry, account: AccountId)
    requires RowTells(row, entries, account)
    ensures RowTells(if e.account == account then Accumulate(row, e) else row, entries + [e], account)
  {
    assert (entries + [e])[..|entries|] == entries;
  }

  lemma {:induction false} MatchedSubtotals(entries: seq<Entry>, account: AccountId)
    ensures RowTells(Total(Match(entries, ACCOUNT_ID, OfAccount(account))), entries, account)
  {
    if entries != [] {
      var n := |entries| - 1;
      var before := Match(entries[..n], ACCOUNT_ID, OfAccount(account));
      MatchedSubtotals(entries[..n], account);
      OneMoreTold(Total(before), entries[..n], entries[n], account);
      MatchAppend(entries[..n], entries[n], ACCOUNT_ID, OfAccount(account));
      TotalAppend(before, entries[n]);
      assert entries == entries[..n] + [entries[n]];
    }
  }

  lemma {:induction false} BalanceIsMoved(entries: seq<Entry>, account: AccountId)
    requires forall e | e in entries :: EntryAdmitted(e)
    ensures Balance(entries, account) == Moved(entries, account, CREDIT) - Moved(entries, account, DEBIT)
    ensures Moved(entries, account, CREDIT) >= 0 && Moved(entries, account, DEBIT) >= 0
  {
    if entries != [] {
      var n := |entries| - 1;
      assert entries[n] in entries;
      BalanceIsMoved(entries[..n], account);
    }
  }

  /** What compute_balance reports, on every list of entries: the sum of the account's signed amounts, the sum of
      the magnitudes of its CREDIT entries and of its DEBIT entries, and their number. On entries that the
      collection validator admits, the balance is what was credited less what was debited. */
  lemma ComputedBalanceIsExact(entries: seq<Entry>, account: AccountId)
    ensures var b := ComputeBalance(entries, account);
            && b.balance == Balance(entries, account)
            && b.credited == Moved(entries, account, CREDIT)
            && b.debited == Moved(entries, account, DEBIT)
            && b.count == EntryCount(entries, account)
            && ((forall e | e in entries :: EntryAdmitted(e)) ==>
                  b.balance == b.credited - b.debited && b.credited >= 0 && b.debited >= 0)
  {
    MatchedNetIsBalance(entries, account);
    MatchedSubtotals(entries, account);
    if forall e | e in entries :: EntryAdmitted(e) {
      BalanceIsMoved(entries, account);
    }
  }

  // ----- Machine integers -----

  const MAX_LONG: int := 0x7FFF_FFFF_FFFF_FFFF

  /** Every sum column of a row lies between these bounds. */
  predicate Within(row: Row, low: int, high: int) {
    low <= row.net <= high && 0 <= row.debited <= high && 0 <= row.credited <= high
  }

  lemma {:induction false} SumsAreBounded(entries: seq<Entry>)
    requires forall e | e in entries :: EntryAdmitted(e) && e.amount <= MAX_AMOUNT
    ensures Within(Total(entries), -|entries| * MAX_AMOUNT, |entries| * MAX_AMOUNT)
  {
    if entries != [] {
      var n := |entries| - 1;
      assert entries[n] in entries;
      SumsAreBounded(entries[..n]);
    }
  }

  /** With amounts up to 10^12, every partial sum of up to 9,223,372 entries, in whatever order they are
      scanned, stays inside a signed 64-bit integer: the net, and what was debited and credited. */
  lemma SumsFitInLong(entries: seq<Entry>, scan: seq<Entry>, k: nat)
    requires |entries| <= 9_223_372 && forall e | e in entries :: EntryAdmitted(e) && e.amount <= MAX_AMOUNT
    requires multiset(scan) == multiset(entries) && k <= |scan|
    ensures Within(Total(scan[..k]), -MAX_LONG - 1, MAX_LONG)
  {
    assert |scan| == |multiset(scan)| && |entries| == |multiset(entries)|;
    forall e | e in scan[..k]
      ensures EntryAdmitted(e) && e.amount <= MAX_AMOUNT
    {
      assert e in multiset(scan);
    }
    SumsAreBounded(scan[..k]);
  }
}
