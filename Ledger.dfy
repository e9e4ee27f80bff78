/**
 * The bookkeeping of the transaction-record service, as values: records and
 * accounts, how each mutation moves an account's running totals, the cache
 * snapshot it writes, and the invariant that the totals are the per-type sums
 * of the account's records.
 */
module Ledger {
  import opened Wrappers
  import opened Text
  import opened Decimal

  type RecordId = int
  type AccountId = int
  type UserId = int

  /** Which running total a record's `type` string moves. */
  datatype Kind = Expense | Income | Other

  /** A stored transaction record: the owning account, the user who added it, its type and amount. */
  datatype Record = Record(accountId: AccountId, userId: UserId, recordType: string, amount: real)

  /** The fields of a transaction-record request that the bookkeeping reads. */
  datatype RecordDto = RecordDto(recordType: string, amount: real)

  /** An account with its owner and running totals. */
  datatype Account = Account(id: AccountId, accountName: string, ownerId: UserId, totalIncome: real, totalExpense: real)

  /** The account snapshot written to the cache. */
  datatype RedisAccount = RedisAccount(id: AccountId, accountName: string, totalIncome: real, totalExpense: real)

  /** The exceptions the service throws. */
  datatype Error = RecordNotFound(recordId: RecordId) | AccountNotFound(accountId: AccountId) | NoRecordsFound(owner: AccountId)

  /** The record store and the account table together. */
  datatype Store = Store(records: map<RecordId, Record>, accounts: map<AccountId, Account>)

  /**
   * A type string counts as an expense when it equals "expense" ignoring case,
   * as an income when it equals "income" ignoring case, and otherwise as neither.
   * No string is both, so the service's `if ... if` and `if ... else if` agree.
   */
  function KindOf(t: string): (k: Kind)
    ensures k == Expense <==> EqualsIgnoreCase(t, "expense")
    ensures k == Income <==> EqualsIgnoreCase(t, "income")
  {
    if EqualsIgnoreCase(t, "expense") then Expense
    else if EqualsIgnoreCase(t, "income") then Income
    else Other
  }

  /** The exception text of each error. */
  function Message(e: Error): string {
    match e
    case RecordNotFound(id) => "Record not found for id: " + IntToString(id)
    case AccountNotFound(id) => "Account not found for id: " + IntToString(id)
    case NoRecordsFound(id) => "No records found for provided IDs and accountId: " + IntToString(id)
  }

  /** Different errors never carry the same text. */
  lemma MessageInjective(e1: Error, e2: Error)
    requires Message(e1) == Message(e2)
    ensures e1 == e2
  {
    MessageStartsWithTag(e1);
    MessageStartsWithTag(e2);
    match e1
    case RecordNotFound(i) =>
      var j := e2.recordId;
      var p := "Record not found for id: ";
      assert Message(e1)[|p|..] == IntToString(i) && Message(e2)[|p|..] == IntToString(j);
      IntToStringInjective(i, j);
    case AccountNotFound(i) =>
      var j := e2.accountId;
      var p := "Account not found for id: ";
      assert Message(e1)[|p|..] == IntToString(i) && Message(e2)[|p|..] == IntToString(j);
      IntToStringInjective(i, j);
    case NoRecordsFound(i) =>
      var j := e2.owner;
      var p := "No records found " + "for provided IDs and accountId: ";
      NoRecordsText(i);
      NoRecordsText(j);
      assert Message(e1)[|p|..] == IntToString(i) && Message(e2)[|p|..] == IntToString(j);
      IntToStringInjective(i, j);
  }

  /** The batch-delete text, with its literal split so that its characters can be read. */
  lemma NoRecordsText(i: AccountId)
    ensures Message(NoRecordsFound(i)) == "No records found " + "for provided IDs and accountId: " + IntToString(i)
  {
    assert "No records found for provided IDs and accountId: " == "No records found " + "for provided IDs and accountId: ";
  }

  lemma MessageStartsWithTag(e: Error)
    ensures |Message(e)| > 0 && Message(e)[0] == Tag(e)
  {
    match e
    case RecordNotFound(i) =>
      var p := "Record not found for id: ";
      assert (p + IntToString(i))[0] == p[0];
    case AccountNotFound(i) =>
      var p := "Account not found for id: ";
      assert (p + IntToString(i))[0] == p[0];
    case NoRecordsFound(i) =>
      var p := "No records found " + "for provided IDs and accountId: ";
      NoRecordsText(i);
      assert (p + IntToString(i))[0] == p[0];
  }

  /** The first letter of each error's text, which tells the three apart. */
  function Tag(e: Error): char {
    match e
    case RecordNotFound(_) => 'R'
    case AccountNotFound(_) => 'A'
    case NoRecordsFound(_) => 'N'
  }

  /** The cache key of an account: `"login_user:" + ownerId + ":account:" + accountId`. */
  function CacheKey(userId: UserId, accountId: AccountId): string {
    "login_user:" + IntToString(userId) + ":account:" + IntToString(accountId)
  }

  /** The cached snapshot of an account: its id, name and two totals. */
  function Snapshot(a: Account): RedisAccount {
    RedisAccount(a.id, a.accountName, a.totalIncome, a.totalExpense)
  }

  /** Two accounts share a cache entry only when both the owner and the account id coincide. */
  lemma CacheKeyInjective(u1: UserId, a1: AccountId, u2: UserId, a2: AccountId)
    requires CacheKey(u1, a1) == CacheKey(u2, a2)
    ensures u1 == u2 && a1 == a2
  {
    IntToStringColonFree(u1);
    IntToStringColonFree(u2);
    KeyPartsUnique(IntToString(u1), IntToString(a1), IntToString(u2), IntToString(a2));
    IntToStringInjective(u1, u2);
    IntToStringInjective(a1, a2);
  }

  /** The two parts of a key are recovered from it when the first part has no colon. */
  lemma KeyPartsUnique(x1: string, y1: string, x2: string, y2: string)
    requires ColonFree(x1) && ColonFree(x2)
    requires "login_user:" + x1 + ":account:" + y1 == "login_user:" + x2 + ":account:" + y2
    ensures x1 == x2 && y1 == y2
  {
    var p, mid := "login_user:", ":account:";
    var t1, t2 := mid + y1, mid + y2;
    assert x1 + t1 == (p + x1 + mid + y1)[|p|..];
    assert x2 + t2 == (p + x2 + mid + y2)[|p|..];
    SplitAtColon(x1, t1, x2, t2);
    assert y1 == t1[|mid|..] && y2 == t2[|mid|..];
  }

  predicate ColonFree(x: string) {
    forall i :: 0 <= i < |x| ==> x[i] != ':'
  }

  lemma IntToStringColonFree(i: int)
    ensures ColonFree(IntToString(i))
  {
    IntToStringChars(i);
  }

  /** The index of the first colon in `s`, or `|s|` when there is none. */
  function ColonIndex(s: string): nat {
    if s == [] || s[0] == ':' then 0 else 1 + ColonIndex(s[1..])
  }

  lemma {:induction false} ColonIndexAfter(x: string, t: string)
    requires ColonFree(x)
    requires t != [] && t[0] == ':'
    ensures ColonIndex(x + t) == |x|
  {
    if x != [] {
      assert (x + t)[1..] == x[1..] + t;
      ColonIndexAfter(x[1..], t);
    }
  }

  /** A colon-free string followed by a part that starts with a colon splits back uniquely. */
  lemma SplitAtColon(x1: string, t1: string, x2: string, t2: string)
    requires ColonFree(x1) && ColonFree(x2)
    requires t1 != [] && t1[0] == ':' && t2 != [] && t2[0] == ':'
    requires x1 + t1 == x2 + t2
    ensures x1 == x2 && t1 == t2
  {
    ColonIndexAfter(x1, t1);
    ColonIndexAfter(x2, t2);
    assert x1 == (x1 + t1)[..|x1|];
    assert x2 == (x2 + t2)[..|x2|];
    assert t1 == (x1 + t1)[|x1|..];
    assert t2 == (x2 + t2)[|x2|..];
  }

  /** Adds `amount` to the total that `k` selects (an expense or an income) and leaves the other alone. */
  function Credit(a: Account, k: Kind, amount: real): Account {
    match k
    case Expense => a.(totalExpense := a.totalExpense + amount)
    case Income => a.(totalIncome := a.totalIncome + amount)
    case Other => a
  }

  /** Subtracts `amount` from the total that `k` selects. */
  function Debit(a: Account, k: Kind, amount: real): Account {
    Credit(a, k, -amount)
  }

  /** What one record adds to account `acct`'s total of kind `k`. */
  function Contribution(r: Record, acct: AccountId, k: Kind): real {
    if r.accountId == acct && KindOf(r.recordType) == k then r.amount else 0.0
  }

  /** The sum of the contributions of all records in `m` to account `acct`'s total of kind `k`. */
  ghost function Total(m: map<RecordId, Record>, acct: AccountId, k: Kind): real
    decreases m.Keys
  {
    if m.Keys == {} then 0.0
    else
      var id := Pick(m.Keys);
      Contribution(m[id], acct, k) + Total(m - {id}, acct, k)
  }

  /** Some element of a non-empty set. */
  ghost function Pick(ids: set<RecordId>): (id: RecordId)
    requires ids != {}
    ensures id in ids
  {
    assert exists id :: id in ids by {
      if forall id :: id !in ids {
        assert false;
      }
    }
    var id :| id in ids; id
  }

  /** The records of `m` whose ids are in `ids`. */
  function Restrict(m: map<RecordId, Record>, ids: set<RecordId>): map<RecordId, Record> {
    map id | id in m && id in ids :: m[id]
  }

  /** Every account's totals are the sums of its records' amounts, by type. */
  ghost predicate Consistent(s: Store) {
    forall a :: a in s.accounts ==>
      s.accounts[a].totalExpense == Total(s.records, a, Expense) &&
      s.accounts[a].totalIncome == Total(s.records, a, Income)
  }

  // ---------------------------------------------------------------------------
  // The effect of each service operation on the store.

  /** Adding a record: store it and credit its amount to the account. */
  function AfterAdd(s: Store, id: RecordId, userId: UserId, accountId: AccountId, dto: RecordDto): Store
    requires accountId in s.accounts
  {
    Store(s.records[id := Record(accountId, userId, dto.recordType, dto.amount)],
          s.accounts[accountId := Credit(s.accounts[accountId], KindOf(dto.recordType), dto.amount)])
  }

  /** Updating a record: take back its old contribution, replace type and amount, credit the new one. */
  function AfterUpdate(s: Store, id: RecordId, dto: RecordDto): Store
    requires id in s.records && s.records[id].accountId in s.accounts
  {
    var r := s.records[id];
    var a := r.accountId;
    Store(s.records[id := r.(recordType := dto.recordType, amount := dto.amount)],
          s.accounts[a := Credit(Debit(s.accounts[a], KindOf(r.recordType), r.amount), KindOf(dto.recordType), dto.amount)])
  }

  /** Deleting a record: remove it and take back its contribution. */
  function AfterDelete(s: Store, id: RecordId): Store
    requires id in s.records && s.records[id].accountId in s.accounts
  {
    var r := s.records[id];
    var a := r.accountId;
    Store(s.records - {id}, s.accounts[a := Debit(s.accounts[a], KindOf(r.recordType), r.amount)])
  }

  /** The ids among `ids` of stored records that belong to account `acct`. */
  function MatchedIds(s: Store, acct: AccountId, ids: seq<RecordId>): set<RecordId> {
    set id | id in s.records.Keys && id in ids && s.records[id].accountId == acct
  }

  /** Batch delete: remove the matched records and take back their summed contributions. */
  ghost function AfterBatchDelete(s: Store, acct: AccountId, ids: seq<RecordId>): Store
    requires acct in s.accounts
  {
    var found := Restrict(s.records, MatchedIds(s, acct, ids));
    Store(s.records - MatchedIds(s, acct, ids),
          s.accounts[acct := Debit(Debit(s.accounts[acct], Expense, Total(found, acct, Expense)),
                                   Income, Total(found, acct, Income))])
  }

  /** Deleting the records `order` one at a time, in that order. */
  ghost function DeleteEach(s: Store, order: seq<RecordId>): Store
    requires forall i :: 0 <= i < |order| ==> order[i] in s.records && s.records[order[i]].accountId in s.accounts
    requires forall i, j :: 0 <= i < j < |order| ==> order[i] != order[j]
    decreases |order|
  {
    if order == [] then s
    else
      var s1 := AfterDelete(s, order[0]);
      assert forall i :: 1 <= i < |order| ==> order[i] in s1.records && s1.records[order[i]] == s.records[order[i]];
      DeleteEach(s1, order[1..])
  }

  // ---------------------------------------------------------------------------
  // Sums over the record store.

  /** Any one record can be taken out of the sum first. */
  lemma {:induction false} TotalRemove(m: map<RecordId, Record>, id: RecordId, acct: AccountId, k: Kind)
    requires id in m
    ensures Total(m, acct, k) == Contribution(m[id], acct, k) + Total(m - {id}, acct, k)
    decreases m.Keys
  {
    var j := Pick(m.Keys);
    if j != id {
      TotalRemove(m - {j}, id, acct, k);
      TotalRemove(m - {id}, j, acct, k);
      assert m - {j} - {id} == m - {id} - {j};
    }
  }

  /** The sum over a store is the sum over the records outside `ids` plus the sum over those inside. */
  lemma {:induction false} TotalSplit(m: map<RecordId, Record>, ids: set<RecordId>, acct: AccountId, k: Kind)
    ensures Total(m, acct, k) == Total(m - ids, acct, k) + Total(Restrict(m, ids), acct, k)
    decreases m.Keys
  {
    var both := m.Keys * ids;
    if both == {} {
      forall x | x in m ensures x !in ids {
        assert x in m.Keys && (x in ids ==> x in both);
      }
      assert m - ids == m;
      assert Restrict(m, ids).Keys == {};
    } else {
      var id := Pick(both);
      TotalRemove(m, id, acct, k);
      TotalSplit(m - {id}, ids, acct, k);
      TotalRemove(Restrict(m, ids), id, acct, k);
      assert (m - {id}) - ids == m - ids;
      assert Restrict(m - {id}, ids) == Restrict(m, ids) - {id};
    }
  }

  /** Records of other accounts add nothing to an account's totals. */
  lemma {:induction false} TotalOfOtherAccounts(m: map<RecordId, Record>, acct: AccountId, k: Kind)
    requires forall id :: id in m ==> m[id].accountId != acct
    ensures Total(m, acct, k) == 0.0
    decreases m.Keys
  {
    if m.Keys != {} {
      var id := Pick(m.Keys);
      TotalOfOtherAccounts(m - {id}, acct, k);
    }
  }

  // ---------------------------------------------------------------------------
  // What each operation does to the totals.

  /**
   * Adding a record of type "expense" (ignoring case) raises the account's
   * expense total by its amount, "income" raises the income total, and any
   * other type moves neither; no other account changes.
   */
  lemma AddMovesMatchingTotal(s: Store, id: RecordId, userId: UserId, accountId: AccountId, dto: RecordDto)
    requires accountId in s.accounts
    ensures var before, after := s.accounts[accountId], AfterAdd(s, id, userId, accountId, dto).accounts[accountId];
      && (EqualsIgnoreCase(dto.recordType, "expense") ==>
            after.totalExpense == before.totalExpense + dto.amount && after.totalIncome == before.totalIncome)
      && (EqualsIgnoreCase(dto.recordType, "income") ==>
            after.totalIncome == before.totalIncome + dto.amount && after.totalExpense == before.totalExpense)
      && (!EqualsIgnoreCase(dto.recordType, "expense") && !EqualsIgnoreCase(dto.recordType, "income") ==>
            after == before)
      && after.id == before.id && after.accountName == before.accountName && after.ownerId == before.ownerId
    ensures forall a :: a in s.accounts && a != accountId ==>
      AfterAdd(s, id, userId, accountId, dto).accounts[a] == s.accounts[a]
  {
  }

  /**
   * After an update each total of the record's account is its old value, minus
   * the old record's contribution, plus the new request's contribution.
   */
  lemma UpdateMovesTotals(s: Store, id: RecordId, dto: RecordDto)
    requires id in s.records && s.records[id].accountId in s.accounts
    ensures var r := s.records[id];
      var before, after := s.accounts[r.accountId], AfterUpdate(s, id, dto).accounts[r.accountId];
      var updated := r.(recordType := dto.recordType, amount := dto.amount);
      && after.totalExpense == before.totalExpense - Contribution(r, r.accountId, Expense) + Contribution(updated, r.accountId, Expense)
      && after.totalIncome == before.totalIncome - Contribution(r, r.accountId, Income) + Contribution(updated, r.accountId, Income)
      && after.id == before.id && after.accountName == before.accountName && after.ownerId == before.ownerId
    ensures forall a :: a in s.accounts && a != s.records[id].accountId ==>
      AfterUpdate(s, id, dto).accounts[a] == s.accounts[a]
  {
  }

  /** An update that keeps the type (up to case) and the amount leaves every account as it was. */
  lemma UpdateSameKindAndAmount(s: Store, id: RecordId, dto: RecordDto)
    requires id in s.records && s.records[id].accountId in s.accounts
    requires KindOf(dto.recordType) == KindOf(s.records[id].recordType) && dto.amount == s.records[id].amount
    ensures AfterUpdate(s, id, dto).accounts == s.accounts
  {
    var r := s.records[id];
    var a := r.accountId;
    var after := AfterUpdate(s, id, dto).accounts[a];
    assert after == s.accounts[a];
  }

  /** Deleting a record takes its amount off the total its type selects, and nothing else. */
  lemma DeleteMovesMatchingTotal(s: Store, id: RecordId)
    requires id in s.records && s.records[id].accountId in s.accounts
    ensures var r := s.records[id];
      var before, after := s.accounts[r.accountId], AfterDelete(s, id).accounts[r.accountId];
      && after.totalExpense == before.totalExpense - Contribution(r, r.accountId, Expense)
      && after.totalIncome == before.totalIncome - Contribution(r, r.accountId, Income)
      && after.id == before.id && after.accountName == before.accountName && after.ownerId == before.ownerId
    ensures forall a :: a in s.accounts && a != s.records[id].accountId ==>
      AfterDelete(s, id).accounts[a] == s.accounts[a]
    ensures AfterDelete(s, id).records.Keys == s.records.Keys - {id}
  {
  }

  /** Adding a record and then deleting it restores the store, totals included. */
  lemma AddThenDeleteRestores(s: Store, id: RecordId, userId: UserId, accountId: AccountId, dto: RecordDto)
    requires accountId in s.accounts && id !in s.records
    ensures var s1 := AfterAdd(s, id, userId, accountId, dto);
      id in s1.records && s1.records[id].accountId in s1.accounts && AfterDelete(s1, id) == s
  {
    var s1 := AfterAdd(s, id, userId, accountId, dto);
    var a := s.accounts[accountId];
    assert Debit(Credit(a, KindOf(dto.recordType), dto.amount), KindOf(dto.recordType), dto.amount) == a;
    assert s1.records - {id} == s.records;
    assert s1.accounts[accountId := a] == s.accounts;
  }

  /**
   * A batch delete removes exactly the requested records of the account and
   * lowers its totals by their summed amounts, by type; the other accounts and
   * their records stay as they were.
   */
  lemma BatchDeleteMovesTotals(s: Store, acct: AccountId, ids: seq<RecordId>)
    requires acct in s.accounts
    ensures var s1 := AfterBatchDelete(s, acct, ids);
      var found := Restrict(s.records, MatchedIds(s, acct, ids));
      && s1.records.Keys == s.records.Keys - MatchedIds(s, acct, ids)
      && (forall id :: id in s1.records ==> s1.records[id] == s.records[id])
      && (forall id :: id in s.records && s.records[id].accountId != acct ==> id in s1.records)
      && s1.accounts[acct].totalExpense == s.accounts[acct].totalExpense - Total(found, acct, Expense)
      && s1.accounts[acct].totalIncome == s.accounts[acct].totalIncome - Total(found, acct, Income)
      && (forall a :: a in s.accounts && a != acct ==> s1.accounts[a] == s.accounts[a])
  {
  }

  /** Deleting one matched record first and batch-deleting the rest is the same as the whole batch. */
  lemma BatchAfterOneDelete(s: Store, acct: AccountId, ids: seq<RecordId>, k0: RecordId)
    requires acct in s.accounts && k0 in MatchedIds(s, acct, ids)
    ensures MatchedIds(AfterDelete(s, k0), acct, ids) == MatchedIds(s, acct, ids) - {k0}
    ensures AfterBatchDelete(AfterDelete(s, k0), acct, ids) == AfterBatchDelete(s, acct, ids)
  {
    var s1 := AfterDelete(s, k0);
    var matched, matched1 := MatchedIds(s, acct, ids), MatchedIds(s1, acct, ids);
    assert matched1 == matched - {k0};
    var found, found1 := Restrict(s.records, matched), Restrict(s1.records, matched1);
    assert found1 == found - {k0};
    TotalRemove(found, k0, acct, Expense);
    TotalRemove(found, k0, acct, Income);
    assert s1.records - matched1 == s.records - matched;
    assert AfterBatchDelete(s1, acct, ids).accounts[acct] == AfterBatchDelete(s, acct, ids).accounts[acct];
  }

  /** The store after a batch delete, given the account with both totals lowered by the matched sums. */
  lemma BatchDeleteStore(s: Store, acct: AccountId, ids: seq<RecordId>, account: Account)
    requires acct in s.accounts
    requires var a, found := s.accounts[acct], Restrict(s.records, MatchedIds(s, acct, ids));
      account == a.(totalIncome := a.totalIncome - Total(found, acct, Income),
                    totalExpense := a.totalExpense - Total(found, acct, Expense))
    ensures AfterBatchDelete(s, acct, ids) == Store(s.records - MatchedIds(s, acct, ids), s.accounts[acct := account])
  {
  }

  /** Deleting the matched records one at a time, in any order, gives the same store as the batch delete. */
  lemma {:induction false} BatchDeleteIsDeletingOneAtATime(s: Store, acct: AccountId, ids: seq<RecordId>, order: seq<RecordId>)
    requires acct in s.accounts
    requires forall i, j :: 0 <= i < j < |order| ==> order[i] != order[j]
    requires forall id :: id in order <==> id in MatchedIds(s, acct, ids)
    ensures forall i :: 0 <= i < |order| ==> order[i] in s.records && s.records[order[i]].accountId in s.accounts
    ensures DeleteEach(s, order) == AfterBatchDelete(s, acct, ids)
    decreases |order|
  {
    assert forall i :: 0 <= i < |order| ==> order[i] in order;
    if order == [] {
      var matched := MatchedIds(s, acct, ids);
      assert forall id :: id !in matched;
      assert matched == {};
      assert Restrict(s.records, matched).Keys == {};
      assert s.records - matched == s.records;
      assert s.accounts[acct := s.accounts[acct]] == s.accounts;
    } else {
      var k0 := order[0];
      BatchAfterOneDelete(s, acct, ids, k0);
      DistinctTail(order, MatchedIds(s, acct, ids));
      BatchDeleteIsDeletingOneAtATime(AfterDelete(s, k0), acct, ids, order[1..]);
    }
  }

  /** The tail of a repetition-free enumeration of `set` enumerates the set without its first element. */
  lemma DistinctTail(order: seq<RecordId>, ids: set<RecordId>)
    requires order != []
    requires forall i, j :: 0 <= i < j < |order| ==> order[i] != order[j]
    requires forall id :: id in order <==> id in ids
    ensures forall id :: id in order[1..] <==> id in ids - {order[0]}
  {
    forall id ensures id in order[1..] <==> id in ids - {order[0]} {
      if id in ids - {order[0]} {
        var i :| 0 <= i < |order| && order[i] == id;
        assert order[1..][i - 1] == id;
      }
    }
  }

  // ---------------------------------------------------------------------------
  // The invariant: every operation keeps each account's totals equal to the
  // per-type sums over its records.

  lemma AddPreservesConsistency(s: Store, id: RecordId, userId: UserId, accountId: AccountId, dto: RecordDto)
    requires Consistent(s) && accountId in s.accounts && id !in s.records
    ensures Consistent(AfterAdd(s, id, userId, accountId, dto))
  {
    var s1 := AfterAdd(s, id, userId, accountId, dto);
    assert s1.records - {id} == s.records;
    forall a | a in s1.accounts
      ensures s1.accounts[a].totalExpense == Total(s1.records, a, Expense)
      ensures s1.accounts[a].totalIncome == Total(s1.records, a, Income)
    {
      TotalRemove(s1.records, id, a, Expense);
      TotalRemove(s1.records, id, a, Income);
    }
  }

  lemma UpdatePreservesConsistency(s: Store, id: RecordId, dto: RecordDto)
    requires Consistent(s) && id in s.records && s.records[id].accountId in s.accounts
    ensures Consistent(AfterUpdate(s, id, dto))
  {
    var s1 := AfterUpdate(s, id, dto);
    assert s1.records - {id} == s.records - {id};
    forall a | a in s1.accounts
      ensures s1.accounts[a].totalExpense == Total(s1.records, a, Expense)
      ensures s1.accounts[a].totalIncome == Total(s1.records, a, Income)
    {
      TotalRemove(s.records, id, a, Expense);
      TotalRemove(s.records, id, a, Income);
      TotalRemove(s1.records, id, a, Expense);
      TotalRemove(s1.records, id, a, Income);
    }
  }

  lemma DeletePreservesConsistency(s: Store, id: RecordId)
    requires Consistent(s) && id in s.records && s.records[id].accountId in s.accounts
    ensures Consistent(AfterDelete(s, id))
  {
    var s1 := AfterDelete(s, id);
    forall a | a in s1.accounts
      ensures s1.accounts[a].totalExpense == Total(s1.records, a, Expense)
      ensures s1.accounts[a].totalIncome == Total(s1.records, a, Income)
    {
      TotalRemove(s.records, id, a, Expense);
      TotalRemove(s.records, id, a, Income);
    }
  }

  lemma BatchDeletePreservesConsistency(s: Store, acct: AccountId, ids: seq<RecordId>)
    requires Consistent(s) && acct in s.accounts
    ensures Consistent(AfterBatchDelete(s, acct, ids))
  {
    var s1 := AfterBatchDelete(s, acct, ids);
    var matched := MatchedIds(s, acct, ids);
    var found := Restrict(s.records, matched);
    forall a | a in s1.accounts
      ensures s1.accounts[a].totalExpense == Total(s1.records, a, Expense)
      ensures s1.accounts[a].totalIncome == Total(s1.records, a, Income)
    {
      TotalSplit(s.records, matched, a, Expense);
      TotalSplit(s.records, matched, a, Income);
      if a != acct {
        TotalOfOtherAccounts(found, a, Expense);
        TotalOfOtherAccounts(found, a, Income);
      }
    }
  }
}
