/**
 * The transaction-record service as a stateful object: the record store, the
 * account table and the account cache are fields, and each service method
 * changes them the way the corresponding AfterX function of `Ledger` says.
 */
module RecordService {
  import opened Wrappers
  import opened Text
  import opened Ledger

  class TransactionRecordService {
    /** The transaction-record table, by record id. */
    var records: map<RecordId, Record>
    /** The account table, by account id. */
    var accounts: map<AccountId, Account>
    /** The key-value cache holding account snapshots. */
    var cache: map<string, RedisAccount>

    /** An account is stored under its own id. */
    ghost predicate Valid()
      reads this
    {
      forall a :: a in accounts ==> accounts[a].id == a
    }

    function Current(): Store
      reads this
    {
      Store(records, accounts)
    }

    constructor (records: map<RecordId, Record>, accounts: map<AccountId, Account>, cache: map<string, RedisAccount>)
      requires forall a :: a in accounts ==> accounts[a].id == a
      ensures Valid()
      ensures this.records == records && this.accounts == accounts && this.cache == cache
    {
      this.records := records;
      this.accounts := accounts;
      this.cache := cache;
    }

    /** Looks a record up, throwing "Record not found" when there is none. */
    method FindTransactionRecordById(id: RecordId) returns (r: Result<Record, Error>)
      ensures id in records ==> r == Success(records[id])
      ensures id !in records ==> r == Failure(RecordNotFound(id))
    {
      if id in records {
        r := Success(records[id]);
      } else {
        r := Failure(RecordNotFound(id));
      }
    }

    /** Looks an account up, throwing "Account not found" when there is none. */
    method FindAccountById(id: AccountId) returns (r: Result<Account, Error>)
      ensures id in accounts ==> r == Success(accounts[id])
      ensures id !in accounts ==> r == Failure(AccountNotFound(id))
    {
      if id in accounts {
        r := Success(accounts[id]);
      } else {
        r := Failure(AccountNotFound(id));
      }
    }

    /** The records whose ids are among `ids` and that belong to account `accountId`. */
    method FindAllByIdInAndAccountId(ids: seq<RecordId>, accountId: AccountId) returns (found: map<RecordId, Record>)
      ensures forall id :: id in found <==> id in records && id in ids && records[id].accountId == accountId
      ensures forall id :: id in found ==> found[id] == records[id]
      ensures found == Restrict(records, MatchedIds(Current(), accountId, ids))
    {
      found := map id | id in records && id in ids && records[id].accountId == accountId :: records[id];
    }

    /** Overwrites the account's cache entry with a snapshot of its id, name and totals. */
    method UpdateRedisAccount(account: Account)
      modifies this`cache
      ensures cache == old(cache)[CacheKey(account.ownerId, account.id) := Snapshot(account)]
    {
      var key := CacheKey(account.ownerId, account.id);
      cache := cache[key := Snapshot(account)];
    }

    /**
     * Stores a new record under the fresh id `id` for the current account and
     * credits its amount to the total its type selects. The cache is not written.
     */
    method AddTransactionRecord(userId: UserId, accountId: AccountId, id: RecordId, dto: RecordDto) returns (res: Outcome<Error>)
      requires Valid()
      requires id !in records
      modifies this`records, this`accounts
      ensures Valid()
      ensures accountId !in old(accounts) ==>
        res == Fail(AccountNotFound(accountId)) && Current() == old(Current())
      ensures accountId in old(accounts) ==>
        res == Pass && Current() == AfterAdd(old(Current()), id, userId, accountId, dto)
      ensures old(Consistent(Current())) ==> Consistent(Current())
      ensures cache == old(cache)
    {
      var found := FindAccountById(accountId);
      if found.Failure? {
        return Fail(found.error);
      }
      var account := found.value;
      if EqualsIgnoreCase(dto.recordType, "expense") {
        account := account.(totalExpense := account.totalExpense + dto.amount);
      }
      if EqualsIgnoreCase(dto.recordType, "income") {
        account := account.(totalIncome := account.totalIncome + dto.amount);
      }
      records := records[id := Record(accountId, userId, dto.recordType, dto.amount)];
      accounts := accounts[account.id := account];
      if old(Consistent(Current())) {
        AddPreservesConsistency(old(Current()), id, userId, accountId, dto);
      }
      return Pass;
    }

    /**
     * Replaces a record's type and amount: its old contribution is taken off its
     * account's totals and the new one added, and the account's cache entry is
     * refreshed.
     */
    method UpdateTransactionRecord(id: RecordId, dto: RecordDto) returns (res: Outcome<Error>)
      requires Valid()
      modifies this`records, this`accounts, this`cache
      ensures Valid()
      ensures id !in old(records) ==>
        res == Fail(RecordNotFound(id)) && unchanged(this)
      ensures id in old(records) && old(records)[id].accountId !in old(accounts) ==>
        res == Fail(AccountNotFound(old(records)[id].accountId)) && unchanged(this)
      ensures id in old(records) && old(records)[id].accountId in old(accounts) ==>
        var a := old(records)[id].accountId;
        && res == Pass
        && Current() == AfterUpdate(old(Current()), id, dto)
        && cache == old(cache)[CacheKey(accounts[a].ownerId, a) := Snapshot(accounts[a])]
      ensures old(Consistent(Current())) ==> Consistent(Current())
    {
      var found := FindTransactionRecordById(id);
      if found.Failure? {
        return Fail(found.error);
      }
      var existing := found.value;
      var owner := FindAccountById(existing.accountId);
      if owner.Failure? {
        return Fail(owner.error);
      }
      var account := owner.value;
      if EqualsIgnoreCase(existing.recordType, "expense") {
        account := account.(totalExpense := account.totalExpense - existing.amount);
      } else if EqualsIgnoreCase(existing.recordType, "income") {
        account := account.(totalIncome := account.totalIncome - existing.amount);
      }
      if EqualsIgnoreCase(dto.recordType, "expense") {
        account := account.(totalExpense := account.totalExpense + dto.amount);
      } else if EqualsIgnoreCase(dto.recordType, "income") {
        account := account.(totalIncome := account.totalIncome + dto.amount);
      }
      records := records[id := existing.(recordType := dto.recordType, amount := dto.amount)];
      accounts := accounts[account.id := account];
      UpdateRedisAccount(account);
      if old(Consistent(Current())) {
        UpdatePreservesConsistency(old(Current()), id, dto);
      }
      return Pass;
    }

    /**
     * Removes a record, takes its amount off the total its type selects, and
     * refreshes the account's cache entry.
     */
    method DeleteTransactionRecord(id: RecordId) returns (res: Outcome<Error>)
      requires Valid()
      modifies this`records, this`accounts, this`cache
      ensures Valid()
      ensures id !in old(records) ==>
        res == Fail(RecordNotFound(id)) && unchanged(this)
      ensures id in old(records) && old(records)[id].accountId !in old(accounts) ==>
        res == Fail(AccountNotFound(old(records)[id].accountId)) && unchanged(this)
      ensures id in old(records) && old(records)[id].accountId in old(accounts) ==>
        var a := old(records)[id].accountId;
        && res == Pass
        && Current() == AfterDelete(old(Current()), id)
        && cache == old(cache)[CacheKey(accounts[a].ownerId, a) := Snapshot(accounts[a])]
      ensures old(Consistent(Current())) ==> Consistent(Current())
    {
      var found := FindTransactionRecordById(id);
      if found.Failure? {
        return Fail(found.error);
      }
      var record := found.value;
      var owner := FindAccountById(record.accountId);
      if owner.Failure? {
        return Fail(owner.error);
      }
      var account := owner.value;
      if EqualsIgnoreCase(record.recordType, "expense") {
        account := account.(totalExpense := account.totalExpense - record.amount);
      } else if EqualsIgnoreCase(record.recordType, "income") {
        account := account.(totalIncome := account.totalIncome - record.amount);
      }
      records := records - {id};
      accounts := accounts[account.id := account];
      UpdateRedisAccount(account);
      if old(Consistent(Current())) {
        DeletePreservesConsistency(old(Current()), id);
      }
      return Pass;
    }

    /**
     * Deletes the requested records of the current account: throws when none of
     * them is found; otherwise takes each found record's amount off the total
     * its type selects, removes exactly the found records, and refreshes the
     * account's cache entry.
     */
    method DeleteTransactionRecordsInBatch(accountId: AccountId, recordIds: seq<RecordId>) returns (res: Outcome<Error>)
      requires Valid()
      modifies this`records, this`accounts, this`cache
      ensures Valid()
      ensures accountId !in old(accounts) ==>
        res == Fail(AccountNotFound(accountId)) && unchanged(this)
      ensures accountId in old(accounts) && MatchedIds(old(Current()), accountId, recordIds) == {} ==>
        res == Fail(NoRecordsFound(accountId)) && unchanged(this)
      ensures accountId in old(accounts) && MatchedIds(old(Current()), accountId, recordIds) != {} ==>
        && res == Pass
        && Current() == AfterBatchDelete(old(Current()), accountId, recordIds)
        && cache == old(cache)[CacheKey(accounts[accountId].ownerId, accountId) := Snapshot(accounts[accountId])]
      ensures old(Consistent(Current())) ==> Consistent(Current())
    {
      var owner := FindAccountById(accountId);
      if owner.Failure? {
        return Fail(owner.error);
      }
      var account := owner.value;
      var found := FindAllByIdInAndAccountId(recordIds, accountId);
      if found == map[] {
        assert MatchedIds(Current(), accountId, recordIds) == {} by {
          assert forall id :: id in MatchedIds(Current(), accountId, recordIds) ==> id in found;
        }
        return Fail(NoRecordsFound(accountId));
      }
      assert found.Keys == MatchedIds(Current(), accountId, recordIds);
      // The records are visited in whatever order the store returns them.
      var left := found;
      while left != map[]
        invariant records == old(records) && accounts == old(accounts) && cache == old(cache)
        invariant left.Keys <= found.Keys
        invariant forall id :: id in left ==> left[id] == found[id] && left[id].accountId == accountId
        invariant account == accounts[accountId].(totalIncome := account.totalIncome, totalExpense := account.totalExpense)
        invariant account.totalExpense - Total(left, accountId, Expense)
          == accounts[accountId].totalExpense - Total(found, accountId, Expense)
        invariant account.totalIncome - Total(left, accountId, Income)
          == accounts[accountId].totalIncome - Total(found, accountId, Income)
        decreases left.Keys
      {
        assert exists id :: id in left.Keys by {
          if forall id :: id !in left.Keys {
            assert false;
          }
        }
        var id :| id in left.Keys;
        var record := left[id];
        if EqualsIgnoreCase(record.recordType, "expense") {
          account := account.(totalExpense := account.totalExpense - record.amount);
        } else if EqualsIgnoreCase(record.recordType, "income") {
          account := account.(totalIncome := account.totalIncome - record.amount);
        }
        TotalRemove(left, id, accountId, Expense);
        TotalRemove(left, id, accountId, Income);
        left := left - {id};
      }
      assert left.Keys == {};
      BatchDeleteStore(Current(), accountId, recordIds, account);
      records := records - found.Keys;
      accounts := accounts[account.id := account];
      UpdateRedisAccount(account);
      if old(Consistent(Current())) {
        BatchDeletePreservesConsistency(old(Current()), accountId, recordIds);
      }
      return Pass;
    }
  }
}
