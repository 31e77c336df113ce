/** The transaction service: create, list, update and delete over the
    transaction table, and a read-through cache with one entry per user that
    no write ever invalidates. */
module TransactionService {
  import opened Common
  import opened Entities
  import opened UserService

  /** The time to live each cache entry is stored with: one hour. */
  const CacheTtlMs: nat := 1000 * 60 * 60

  /** The `take` bound of every listing query. */
  const FindAllCap: nat := 10000

  const CacheKeyPrefix := "transactions-"

  /** The cache key of a user's transaction list. */
  function CacheKey(userId: string): (key: string)
    ensures |key| == |CacheKeyPrefix| + |userId|
    ensures key[..|CacheKeyPrefix|] == CacheKeyPrefix
    ensures key[|CacheKeyPrefix|..] == userId
  {
    CacheKeyPrefix + userId
  }

  /** Different users never share a cache entry. */
  lemma CacheKeyInjective(a: string, b: string)
    requires CacheKey(a) == CacheKey(b)
    ensures a == b
  {
    assert a == CacheKey(a)[|CacheKeyPrefix|..];
    assert b == CacheKey(b)[|CacheKeyPrefix|..];
  }

  /** A stored cache value and the TTL it was stored with; expiry is the
      cache's own business. */
  datatype CacheEntry = CacheEntry(value: seq<Transaction>, ttlMs: nat)

  /** The validated body of a create-transaction request. */
  datatype CreateTransactionRequest = CreateTransactionRequest(
    amount: real, category: string, kind: TransactionType, note: Option<string>)

  /** A partial transaction: the fields an update overwrites. */
  datatype TransactionPatch = TransactionPatch(
    amount: Option<real>,
    category: Option<string>,
    kind: Option<TransactionType>,
    date: Option<Timestamp>,
    note: Option<Option<string>>)

  /** The outcome of a delete: the number of rows removed. */
  datatype DeleteResult = DeleteResult(affected: nat)

  predicate UniqueRowIds(rows: seq<Transaction>) {
    forall i, j :: 0 <= i < j < |rows| ==> rows[i].id != rows[j].id
  }

  /** The rows owned by `userId`. */
  function OwnedRows(rows: seq<Transaction>, userId: string): (r: seq<Transaction>)
    ensures |r| <= |rows|
    ensures forall t :: t in r <==> t in rows && t.userId == Some(userId)
  {
    if rows == [] then []
    else
      var init := rows[..|rows| - 1];
      var last := rows[|rows| - 1];
      assert rows == init + [last];
      var rest := OwnedRows(init, userId);
      if last.userId == Some(userId) then rest + [last] else rest
  }

  /** `find({ where: { user: { id } }, take })`. */
  function Listing(rows: seq<Transaction>, userId: string): (r: seq<Transaction>)
    ensures |r| <= FindAllCap
    ensures forall t :: t in r ==> t in rows && t.userId == Some(userId)
  {
    Take(OwnedRows(rows, userId), FindAllCap)
  }

  /** The row with that id, if any. */
  function FindRow(rows: seq<Transaction>, id: string): (r: Option<Transaction>)
    ensures r.Some? ==> r.value in rows && r.value.id == id
    ensures r.None? <==> forall t :: t in rows ==> t.id != id
  {
    if rows == [] then None
    else if rows[0].id == id then Some(rows[0])
    else FindRow(rows[1..], id)
  }

  /** The row with each patched field overwritten: the id and the owner are
      never patched, and an empty patch changes nothing. */
  function ApplyPatch(t: Transaction, p: TransactionPatch): (u: Transaction)
    ensures u.id == t.id && u.userId == t.userId
    ensures p == TransactionPatch(None, None, None, None, None) ==> u == t
  {
    Transaction(
      t.id,
      t.userId,
      if p.amount.Some? then p.amount.value else t.amount,
      if p.category.Some? then p.category.value else t.category,
      if p.kind.Some? then p.kind.value else t.kind,
      if p.date.Some? then p.date.value else t.date,
      if p.note.Some? then p.note.value else t.note)
  }

  /** The rows without the one with that id, in store order. */
  function Without(rows: seq<Transaction>, id: string): (r: seq<Transaction>)
    ensures |r| <= |rows|
    ensures forall t :: t in r <==> t in rows && t.id != id
  {
    if rows == [] then []
    else if rows[0].id == id then Without(rows[1..], id)
    else [rows[0]] + Without(rows[1..], id)
  }

  /** A patch overwrites exactly the fields it carries, and applying it
      twice is applying it once. */
  lemma PatchOverwritesItsFields(t: Transaction, p: TransactionPatch)
    ensures var u := ApplyPatch(t, p);
            && (p.amount.Some? ==> u.amount == p.amount.value)
            && (p.amount.None? ==> u.amount == t.amount)
            && (p.category.Some? ==> u.category == p.category.value)
            && (p.category.None? ==> u.category == t.category)
            && (p.kind.Some? ==> u.kind == p.kind.value)
            && (p.kind.None? ==> u.kind == t.kind)
            && (p.date.Some? ==> u.date == p.date.value)
            && (p.date.None? ==> u.date == t.date)
            && (p.note.Some? ==> u.note == p.note.value)
            && (p.note.None? ==> u.note == t.note)
    ensures ApplyPatch(ApplyPatch(t, p), p) == ApplyPatch(t, p)
  {
  }

  /** The tail of a table with unique ids has unique ids, none of them the
      head's. */
  lemma UniqueTail(rows: seq<Transaction>)
    requires UniqueRowIds(rows) && rows != []
    ensures UniqueRowIds(rows[1..])
    ensures forall t :: t in rows[1..] ==> t.id != rows[0].id
  {
    var rest := rows[1..];
    forall i, j | 0 <= i < j < |rest| ensures rest[i].id != rest[j].id {
      assert rest[i] == rows[i + 1] && rest[j] == rows[j + 1];
    }
    forall t | t in rest ensures t.id != rows[0].id {
      var j :| 0 <= j < |rest| && rest[j] == t;
      assert rows[j + 1] == t;
    }
  }

  /** A row in front of rows with unique ids none of which is its own
      keeps the ids unique. */
  lemma UniqueCons(t: Transaction, w: seq<Transaction>)
    requires UniqueRowIds(w)
    requires forall u :: u in w ==> u.id != t.id
    ensures UniqueRowIds([t] + w)
  {
    var s := [t] + w;
    forall i, j | 0 <= i < j < |s| ensures s[i].id != s[j].id {
      assert s[j] == w[j - 1];
      if i > 0 {
        assert s[i] == w[i - 1];
      }
    }
  }

  /** Where ids are unique, removing an id removes exactly one row when it
      is present and none otherwise, and the ids left are still unique. */
  lemma {:induction false} WithoutRemovesAtMostOne(rows: seq<Transaction>, id: string)
    requires UniqueRowIds(rows)
    ensures |Without(rows, id)| == |rows| - (if FindRow(rows, id).Some? then 1 else 0)
    ensures UniqueRowIds(Without(rows, id))
    decreases |rows|
  {
    if rows != [] {
      var rest := rows[1..];
      UniqueTail(rows);
      WithoutRemovesAtMostOne(rest, id);
      if rows[0].id == id {
        assert FindRow(rest, id).None?;
      } else {
        UniqueCons(rows[0], Without(rest, id));
      }
    }
  }

  /** The transaction table, the user table it reads owners from, and the
      cache. */
  class TransactionStore {
    var rows: seq<Transaction>
    var users: seq<User>
    var cache: map<string, CacheEntry>

    /** Transaction ids are unique. */
    ghost predicate Valid()
      reads this
    {
      UniqueRowIds(rows)
    }

    constructor (rows: seq<Transaction>, users: seq<User>)
      requires UniqueRowIds(rows)
      ensures Valid()
      ensures this.rows == rows && this.users == users && cache == map[]
    {
      this.rows := rows;
      this.users := users;
      cache := map[];
    }

    /** create: saves one transaction with the request's fields, dated
        `now`, owned by the user the id looks up, or by no user when the
        lookup finds none. `id` is the key the store generates. The cache is
        left as it was. */
    method Create(dto: CreateTransactionRequest, userId: string, id: string, now: Timestamp)
      returns (saved: Transaction)
      requires Valid()
      requires FindRow(rows, id).None?
      modifies this`rows
      ensures Valid()
      ensures saved.id == id && saved.date == now
      ensures saved.amount == dto.amount && saved.category == dto.category
      ensures saved.kind == dto.kind && saved.note == dto.note
      ensures saved.userId.Some? <==> FindById(users, userId).Some?
      ensures saved.userId.Some? ==> saved.userId.value == userId
      ensures rows == old(rows) + [saved]
      ensures cache == old(cache)
    {
      var user := FindById(users, userId);
      var owner: Option<string> := if user.Some? then Some(user.value.id) else None;
      saved := Transaction(id, owner, dto.amount, dto.category, dto.kind, now, dto.note);
      rows := rows + [saved];
    }

    /** findAll: the user's transactions and no others, the first
        `FindAllCap` of them. */
    method FindAll(userId: string) returns (r: seq<Transaction>)
      ensures r == Listing(rows, userId)
      ensures |r| <= FindAllCap
      ensures forall t :: t in r ==> t in rows && t.userId == Some(userId)
      ensures |OwnedRows(rows, userId)| <= FindAllCap ==> r == OwnedRows(rows, userId)
    {
      r := Take(OwnedRows(rows, userId), FindAllCap);
    }

    /** findAllWithCache: a stored entry, even an empty list, is returned as
        it is without reading the table; otherwise the listing is read once,
        stored under the user's key for one hour and returned. `storeReads`
        counts the table reads. */
    method FindAllWithCache(userId: string) returns (r: seq<Transaction>, storeReads: nat)
      modifies this`cache
      ensures CacheKey(userId) in old(cache) ==>
                r == old(cache)[CacheKey(userId)].value && storeReads == 0 && cache == old(cache)
      ensures CacheKey(userId) !in old(cache) ==>
                r == Listing(rows, userId) && storeReads == 1
                && cache == old(cache)[CacheKey(userId) := CacheEntry(r, CacheTtlMs)]
      ensures CacheKey(userId) in cache && cache[CacheKey(userId)].value == r
    {
      var key := CacheKey(userId);
      if key in cache {
        return cache[key].value, 0;
      }
      r := Take(OwnedRows(rows, userId), FindAllCap);
      storeReads := 1;
      cache := cache[key := CacheEntry(r, CacheTtlMs)];
    }

    /** update: the row with that id gets the patch, every other row is left
        as it was, and the row is read back: the patched row, or nothing when
        no row has that id. The cache is left as it was. */
    method Update(id: string, patch: TransactionPatch) returns (r: Option<Transaction>)
      requires Valid()
      modifies this`rows
      ensures Valid()
      ensures |rows| == |old(rows)|
      ensures forall k :: 0 <= k < |rows| ==>
                rows[k] == if old(rows)[k].id == id then ApplyPatch(old(rows)[k], patch) else old(rows)[k]
      ensures FindRow(old(rows), id).None? ==> r.None? && rows == old(rows)
      ensures FindRow(old(rows), id).Some? ==> r == Some(ApplyPatch(FindRow(old(rows), id).value, patch))
      ensures r == FindRow(rows, id)
      ensures cache == old(cache)
    {
      var before := rows;
      rows := seq(|before|, k requires 0 <= k < |before| =>
                if before[k].id == id then ApplyPatch(before[k], patch) else before[k]);
      assert forall k :: 0 <= k < |rows| ==> rows[k].id == before[k].id;
      PatchedRowFound(before, rows, id, patch);
      r := FindRow(rows, id);
    }

    /** remove: deletes the row with that id and no other; one row is
        affected when it was present, none otherwise. The cache is left as it
        was. */
    method Remove(id: string) returns (result: DeleteResult)
      requires Valid()
      modifies this`rows
      ensures Valid()
      ensures forall t :: t in rows <==> t in old(rows) && t.id != id
      ensures result.affected == |old(rows)| - |rows|
      ensures result.affected == if FindRow(old(rows), id).Some? then 1 else 0
      ensures cache == old(cache)
    {
      WithoutRemovesAtMostOne(rows, id);
      var before := |rows|;
      rows := Without(rows, id);
      result := DeleteResult(before - |rows|);
    }
  }

  /** Patching the rows with that id, position by position, makes the row
      found by that id the patched original, and keeps ids unique. */
  lemma {:induction false} PatchedRowFound(before: seq<Transaction>, after: seq<Transaction>, id: string,
                                           patch: TransactionPatch)
    requires |after| == |before|
    requires forall k :: 0 <= k < |after| ==>
               after[k] == if before[k].id == id then ApplyPatch(before[k], patch) else before[k]
    ensures FindRow(after, id) ==
              if FindRow(before, id).Some? then Some(ApplyPatch(FindRow(before, id).value, patch)) else None
    ensures UniqueRowIds(before) ==> UniqueRowIds(after)
    decreases |before|
  {
    assert forall k :: 0 <= k < |after| ==> after[k].id == before[k].id;
    if before != [] {
      PatchedRowFound(before[1..], after[1..], id, patch);
    }
  }

  /** Writes never invalidate the cache: once a user's list is cached, a
      transaction created for that user is not in what the cached read
      returns. */
  method StaleReadAfterCreate(store: TransactionStore, dto: CreateTransactionRequest, userId: string,
                              id: string, now: Timestamp)
    returns (first: seq<Transaction>, saved: Transaction, second: seq<Transaction>)
    requires store.Valid()
    requires FindRow(store.rows, id).None?
    requires FindById(store.users, userId).Some?
    requires CacheKey(userId) !in store.cache
    modifies store
    ensures first == Listing(old(store.rows), userId)
    ensures saved.userId == Some(userId) && store.rows == old(store.rows) + [saved]
    ensures saved in Listing(store.rows, userId) || |OwnedRows(old(store.rows), userId)| >= FindAllCap
    ensures second == first && saved !in second
  {
    var storeReads: nat;
    first, storeReads := store.FindAllWithCache(userId);
    saved := store.Create(dto, userId, id, now);
    second, storeReads := store.FindAllWithCache(userId);
    OwnedAfterAppend(old(store.rows), saved, userId);
  }

  /** A row appended for a user ends the user's owned rows. */
  lemma OwnedAfterAppend(rows: seq<Transaction>, t: Transaction, userId: string)
    requires t.userId == Some(userId)
    ensures OwnedRows(rows + [t], userId) == OwnedRows(rows, userId) + [t]
    ensures |OwnedRows(rows, userId)| < FindAllCap ==> t in Listing(rows + [t], userId)
  {
    assert (rows + [t])[..|rows + [t]| - 1] == rows;
  }
}
