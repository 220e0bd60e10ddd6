/** One-time prekeys (server/routes/keys.py, server/core/cache.py): rows
    claimed by a compare-and-set with retries, next to uploads, cleanups and a
    cache of bundles, all running in threads that interleave between transactions. */
module Prekeys {
  import opened Text

  type User = string

  datatype Row = Row(owner: User, key: string, used: bool)
  datatype Bundle = Bundle(opk: Option<nat>)          // the row whose key the bundle carries, if any
  datatype Cached = Cached(expires: int, bundle: Bundle)

  const ATTEMPTS: nat := 3
  const BATCH: nat := 100
  const MIN_KEY_LENGTH: nat := 10
  const BUNDLE_TTL := 10

  predicate Free(rows: map<nat, Row>, owner: User, id: nat) {
    id in rows && rows[id].owner == owner && !rows[id].used
  }

  /** `id` is what the ordered SELECT returns: rows are numbered in the order it would return them. */
  predicate Oldest(rows: map<nat, Row>, owner: User, id: nat) {
    Free(rows, owner, id) && forall k | k in rows && Free(rows, owner, k) :: id <= k
  }

  ghost predicate NoneFree(rows: map<nat, Row>, owner: User) {
    forall id :: !Free(rows, owner, id)
  }

  /** The row a claim would select is among those rivals take. */
  ghost predicate LosesTo(rows: map<nat, Row>, owner: User, rivals: set<nat>) {
    exists id :: Oldest(rows, owner, id) && id in rivals
  }

  function Use(rows: map<nat, Row>, id: nat): map<nat, Row> {
    if id in rows then rows[id := rows[id].(used := true)] else rows
  }

  function WithoutUsed(rows: map<nat, Row>, owner: User): map<nat, Row> {
    map id | id in rows && !(rows[id].owner == owner && rows[id].used) :: rows[id]
  }

  /** The keys of an upload that are long enough to be stored. */
  function Storable(keys: seq<string>): seq<string> {
    if keys == [] then []
    else
      var n := |keys| - 1;
      Storable(keys[..n]) + if |keys[n]| < MIN_KEY_LENGTH then [] else [keys[n]]
  }

  /** An upload keeps the keys of ten characters or more and no others, in their order. */
  lemma {:induction false} StorableExactly(a: seq<string>, b: seq<string>, k: string)
    ensures Storable([k]) == if |k| >= 10 then [k] else []
    ensures Storable(a + b) == Storable(a) + Storable(b)
  {
    assert [k][..0] == [];
    if b == [] {
      assert a + b == a && Storable(a) + [] == Storable(a);
    } else {
      var n := |b| - 1;
      assert (a + b)[..|a + b| - 1] == a + b[..n] && (a + b)[|a + b| - 1] == b[n];
      StorableExactly(a, b[..n], k);
    }
  }

  function Inserted(rows: map<nat, Row>, next: nat, owner: User, keys: seq<string>): map<nat, Row> {
    if keys == [] then rows
    else
      var n := |keys| - 1;
      Inserted(rows, next, owner, keys[..n])[next + n := Row(owner, keys[n], false)]
  }

  lemma {:induction false} InsertedRows(rows: map<nat, Row>, next: nat, owner: User, keys: seq<string>)
    ensures forall id ::
      id in Inserted(rows, next, owner, keys) <==> id in rows || next <= id < next + |keys|
    ensures forall id | id in Inserted(rows, next, owner, keys) ::
      Inserted(rows, next, owner, keys)[id]
      == if next <= id < next + |keys| then Row(owner, keys[id - next], false) else rows[id]
  {
    if keys != [] {
      InsertedRows(rows, next, owner, keys[..|keys| - 1]);
    }
  }

  // ---- A claim against rivals ----

  function TakeAll(rows: map<nat, Row>, ids: set<nat>): map<nat, Row> {
    map id | id in rows :: if id in ids then rows[id].(used := true) else rows[id]
  }

  ghost function Candidate(rows: map<nat, Row>, owner: User): (r: Option<nat>)
    ensures match r { case None => NoneFree(rows, owner) case Some(id) => Oldest(rows, owner, id) }
  {
    if id :| Free(rows, owner, id) then
      OldestExists(rows, owner, id);
      var k :| Oldest(rows, owner, k);
      Some(k)
    else None
  }

  lemma {:induction false} OldestExists(rows: map<nat, Row>, owner: User, id: nat)
    requires Free(rows, owner, id)
    ensures exists k :: Oldest(rows, owner, k)
  {
    if k: nat :| Free(rows, owner, k) && k < id {
      OldestExists(rows, owner, k);
    } else {
      assert Oldest(rows, owner, id);
    }
  }

  /** What a claim does when `rivals[i]` are the rows other requests take
      between the SELECT and the UPDATE of its attempt i. */
  ghost function ClaimAgainst(rows: map<nat, Row>, owner: User, rivals: seq<set<nat>>): (Option<nat>, map<nat, Row>) {
    var c := Candidate(rows, owner);
    if rivals == [] || c.None? then (None, rows)
    else
      var then' := TakeAll(rows, rivals[0]);
      if c.value !in rivals[0] then (c, Use(then', c.value))
      else ClaimAgainst(then', owner, rivals[1..])
  }

  /** The rows after the first k rounds of rivals. */
  function Interfered(rows: map<nat, Row>, rivals: seq<set<nat>>, k: nat): map<nat, Row>
    requires k <= |rivals|
  {
    if k == 0 then rows else Interfered(TakeAll(rows, rivals[0]), rivals[1..], k - 1)
  }

  /** What may come of a claim: it took a row that was the oldest free at some
      attempt and that no rival took, or it came back empty because at some
      attempt no row was free, or every attempt lost the oldest free row. */
  ghost predicate Outcome(
      rows: map<nat, Row>, owner: User, rivals: seq<set<nat>>, r: Option<nat>, rows': map<nat, Row>)
  {
      match r
      case Some(id) =>
        && Free(rows, owner, id) && id in rows' && rows'[id].used
        && exists k | 0 <= k < |rivals| ::
             && Oldest(Interfered(rows, rivals, k), owner, id) && id !in rivals[k]
             && rows' == Use(Interfered(rows, rivals, k + 1), id)
      case None =>
        || (exists k | 0 <= k < |rivals| :: NoneFree(Interfered(rows, rivals, k), owner))
        || (forall k | 0 <= k < |rivals| :: LosesTo(Interfered(rows, rivals, k), owner, rivals[k]))
  }

  /** That is all that comes of one. */
  lemma {:induction false} ClaimExactly(rows: map<nat, Row>, owner: User, rivals: seq<set<nat>>)
    ensures var (r, rows') := ClaimAgainst(rows, owner, rivals); Outcome(rows, owner, rivals, r, rows')
    decreases rivals, 1
  {
    var c := Candidate(rows, owner);
    if rivals != [] {
      assert Interfered(rows, rivals, 0) == rows;
      if c.None? {
        assert NoneFree(Interfered(rows, rivals, 0), owner);
      } else {
        ClaimStep(rows, owner, rivals, c.value);
      }
    }
  }

  lemma {:induction false} ClaimStep(rows: map<nat, Row>, owner: User, rivals: seq<set<nat>>, c: nat)
    requires rivals != [] && Candidate(rows, owner) == Some(c)
    ensures var (r, rows') := ClaimAgainst(rows, owner, rivals); Outcome(rows, owner, rivals, r, rows')
    decreases rivals, 0
  {
    var then', rest := TakeAll(rows, rivals[0]), rivals[1..];
    assert Interfered(rows, rivals, 0) == rows && Interfered(then', rest, 0) == then';
    forall k: nat | k <= |rest| ensures Interfered(rows, rivals, k + 1) == Interfered(then', rest, k) { }
    if c !in rivals[0] {
      assert Interfered(rows, rivals, 0 + 1) == Interfered(then', rest, 0);
    } else {
      assert LosesTo(rows, owner, rivals[0]);
      ClaimExactly(then', owner, rest);
      var (r, rows') := ClaimAgainst(then', owner, rest);
      if r.Some? {
        var k :| 0 <= k < |rest| && Oldest(Interfered(then', rest, k), owner, r.value) && r.value !in rest[k]
                 && rows' == Use(Interfered(then', rest, k + 1), r.value);
        assert rivals[k + 1] == rest[k];
        assert Interfered(rows, rivals, k + 1) == Interfered(then', rest, k);
        assert Interfered(rows, rivals, k + 2) == Interfered(then', rest, k + 1);
      } else if k :| 0 <= k < |rest| && NoneFree(Interfered(then', rest, k), owner) {
        assert Interfered(rows, rivals, k + 1) == Interfered(then', rest, k);
        assert 0 <= k + 1 < |rivals| && NoneFree(Interfered(rows, rivals, k + 1), owner);
      } else {
        forall k | 0 <= k < |rivals| ensures LosesTo(Interfered(rows, rivals, k), owner, rivals[k]) {
          if k > 0 {
            assert LosesTo(Interfered(then', rest, k - 1), owner, rest[k - 1]);
            assert Interfered(rows, rivals, (k - 1) + 1) == Interfered(then', rest, k - 1);
          }
        }
      }
    }
  }

  // ---- Cleanup and claims ----

  /** The same rows are free for the same users. */
  ghost predicate SameFree(a: map<nat, Row>, b: map<nat, Row>) {
    forall u, id :: Free(a, u, id) <==> Free(b, u, id)
  }

  lemma SameFreeSameCandidate(a: map<nat, Row>, b: map<nat, Row>, owner: User)
    requires SameFree(a, b)
    ensures Candidate(a, owner) == Candidate(b, owner)
  {
  }

  lemma {:induction false} SameFreeSameAnswer(a: map<nat, Row>, b: map<nat, Row>, owner: User, rivals: seq<set<nat>>)
    requires SameFree(a, b)
    ensures ClaimAgainst(a, owner, rivals).0 == ClaimAgainst(b, owner, rivals).0
    decreases rivals
  {
    hide Candidate, Oldest, NoneFree;
    SameFreeSameCandidate(a, b, owner);
    if rivals != [] {
      forall u, id ensures Free(TakeAll(a, rivals[0]), u, id) <==> Free(TakeAll(b, rivals[0]), u, id) {
        assert Free(a, u, id) <==> Free(b, u, id);
      }
      SameFreeSameAnswer(TakeAll(a, rivals[0]), TakeAll(b, rivals[0]), owner, rivals[1..]);
    }
  }

  /** Deleting a user's used rows changes the answer of no claim, theirs or another's. */
  lemma {:induction false} CleanupIsInvisible(rows: map<nat, Row>, owner: User, u: User, rivals: seq<set<nat>>)
    ensures ClaimAgainst(WithoutUsed(rows, owner), u, rivals).0 == ClaimAgainst(rows, u, rivals).0
  {
    SameFreeSameAnswer(WithoutUsed(rows, owner), rows, u, rivals);
  }

  // ---- The table ----

  class PrekeyTable {
    var rows: map<nat, Row>
    var next: nat

    ghost predicate Valid()
      reads this
    {
      forall id | id in rows :: id < next
    }

    constructor ()
      ensures Valid() && rows == map[] && next == 0
    {
      rows, next := map[], 0;
    }

    /** `upload_one_time_prekeys`: None for a batch of a size the endpoint refuses. */
    method Upload(owner: User, keys: seq<string>) returns (count: Option<nat>)
      requires Valid()
      modifies this
      ensures Valid()
      ensures |keys| == 0 || |keys| > BATCH ==> count == None && rows == old(rows) && next == old(next)
      ensures 1 <= |keys| <= BATCH ==>
        && count == Some(|Storable(keys)|)
        && next == old(next) + |Storable(keys)|
        && rows == Inserted(old(rows), old(next), owner, Storable(keys))
    {
      if |keys| == 0 || |keys| > BATCH { return None; }
      var n, i := 0, 0;
      while i < |keys|
        invariant 0 <= i <= |keys|
        invariant n == |Storable(keys[..i])| && next == old(next) + n
        invariant rows == Inserted(old(rows), old(next), owner, Storable(keys[..i]))
      {
        assert keys[..i + 1][..i] == keys[..i];
        ghost var stored := Storable(keys[..i]);
        assert |keys[i]| < MIN_KEY_LENGTH ==> Storable(keys[..i + 1]) == stored;
        if |keys[i]| >= MIN_KEY_LENGTH {
          assert Storable(keys[..i + 1]) == stored + [keys[i]];
          assert (stored + [keys[i]])[..|stored + [keys[i]]| - 1] == stored;
          rows := rows[next := Row(owner, keys[i], false)];
          next := next + 1;
          n := n + 1;
        }
        i := i + 1;
      }
      assert keys[..i] == keys;
      InsertedRows(old(rows), old(next), owner, Storable(keys));
      return Some(n);
    }

    /** The SELECT of a claim. */
    method SelectCandidate(owner: User) returns (r: Option<nat>)
      requires Valid()
      ensures match r
              case None => NoneFree(rows, owner)
              case Some(id) => Oldest(rows, owner, id)
      ensures match r
              case None => forall k | k in rows && rows[k].owner == owner :: rows[k].used
              case Some(id) =>
                && id in rows && rows[id].owner == owner && !rows[id].used
                && forall k | k in rows && rows[k].owner == owner && !rows[k].used :: id <= k
    {
      if id :| id in rows && Oldest(rows, owner, id) { return Some(id); }
      assert NoneFree(rows, owner) by {
        if id: nat :| Free(rows, owner, id) { OldestExists(rows, owner, id); }
      }
      forall k | k in rows && rows[k].owner == owner ensures rows[k].used { assert !Free(rows, owner, k); }
      return None;
    }

    /** The conditional UPDATE of a claim; true if it changed a row. */
    method CompareAndSet(id: nat) returns (updated: bool)
      modifies this
      ensures next == old(next)
      ensures updated == (id in old(rows) && !old(rows)[id].used)
      ensures rows == if updated then Use(old(rows), id) else old(rows)
    {
      updated := id in rows && !rows[id].used;
      if updated { rows := Use(rows, id); }
    }

    /** `_claim_one_time_prekey`, with the rows rivals take in each attempt as an input. */
    method Claim(owner: User, rivals: seq<set<nat>>) returns (r: Option<nat>)
      requires Valid() && |rivals| == ATTEMPTS
      modifies this
      ensures Valid() && next == old(next)
      ensures (r, rows) == ClaimAgainst(old(rows), owner, rivals)
    {
      var attempt := 0;
      while attempt < ATTEMPTS
        invariant 0 <= attempt <= ATTEMPTS && Valid() && next == old(next)
        invariant ClaimAgainst(rows, owner, rivals[attempt..]) == ClaimAgainst(old(rows), owner, rivals)
      {
        var candidate := SelectCandidate(owner);
        if candidate.None? { return None; }
        rows := TakeAll(rows, rivals[attempt]);
        var updated := CompareAndSet(candidate.value);
        if updated { return candidate; }
        attempt := attempt + 1;
      }
      return None;
    }

    /** `cleanup_used_prekeys`: the user's used rows go, and no claim can tell. */
    method CleanupUsed(owner: User)
      requires Valid()
      modifies this
      ensures Valid() && next == old(next)
      ensures forall id :: id in rows <==> id in old(rows) && (old(rows)[id].owner == owner ==> !old(rows)[id].used)
      ensures forall id | id in rows :: rows[id] == old(rows)[id]
      ensures forall u, rivals :: ClaimAgainst(rows, u, rivals).0 == ClaimAgainst(old(rows), u, rivals).0
    {
      forall u, rivals ensures ClaimAgainst(WithoutUsed(rows, owner), u, rivals).0 == ClaimAgainst(rows, u, rivals).0 {
        CleanupIsInvisible(rows, owner, u, rivals);
      }
      rows := WithoutUsed(rows, owner);
    }
  }

  // ---- Concurrent claims ----

  datatype Endpoint = OneTime | ForBundle

  /** Where a request stands between two transactions. */
  datatype Phase =
    | Arrived
    | Selecting
    | Swapping(row: nat)
    | Reading(row: nat)
    | Finishing(opk: Option<nat>)
    | Answered(opk: Option<nat>)

  /** `lost` are the rows whose compare-and-set the request lost so far. */
  datatype Request = Request(endpoint: Endpoint, target: User, phase: Phase, lost: set<nat>)

  /** The database, the process cache and the requests by number, and history:
      the uploader of every row ever stored, the request that won each used
      row, and the rows that were deleted. */
  datatype Server = Server(
    rows: map<nat, Row>, next: nat, cache: map<User, Cached>, now: int, requests: map<nat, Request>,
    owners: map<nat, User>, won: map<nat, nat>, deleted: set<nat>)

  const EMPTY := Server(map[], 0, map[], 0, map[], map[], map[], {})

  datatype Event =
    | Start(t: nat, endpoint: Endpoint, target: User)
    | Proceed(t: nat, published: bool, row: Option<nat>)
    | Upload(owner: User, keys: seq<string>)
    | Invalidate(owner: User)
    | Cleanup(owner: User)
    | Tick(seconds: nat)

  function CacheGet(cache: map<User, Cached>, now: int, u: User): (Option<Bundle>, map<User, Cached>) {
    if u !in cache then (None, cache)
    else if now > cache[u].expires then (None, cache - {u})
    else (Some(cache[u].bundle), cache)
  }

  function CachePut(cache: map<User, Cached>, u: User, bundle: Bundle, now: int, ttl: int): map<User, Cached> {
    cache[u := Cached(now + ttl, bundle)]
  }

  /** The uses of a cache, each with its clock reading. */
  datatype CacheUse =
    | Put(u: User, bundle: Bundle, ttl: int, at: int)
    | Drop(u: User, at: int)
    | Look(u: User, at: int)

  function CacheAfter(uses: seq<CacheUse>): map<User, Cached> {
    if uses == [] then map[]
    else
      var cache := CacheAfter(uses[..|uses| - 1]);
      match uses[|uses| - 1]
      case Put(u, bundle, ttl, at) => CachePut(cache, u, bundle, at, ttl)
      case Drop(u, at) => cache - {u}
      case Look(u, at) => CacheGet(cache, at, u).1
  }

  /** The last value put for the user with no drop since, whatever was looked up. */
  function LatestPut(uses: seq<CacheUse>, u: User): Option<Cached> {
    if uses == [] then None
    else
      var last := uses[|uses| - 1];
      if last.u != u || last.Look? then LatestPut(uses[..|uses| - 1], u)
      else if last.Put? then Some(Cached(last.at + last.ttl, last.bundle))
      else None
  }

  predicate InOrder(uses: seq<CacheUse>, now: int) {
    uses == [] || (uses[|uses| - 1].at <= now && InOrder(uses[..|uses| - 1], uses[|uses| - 1].at))
  }

  lemma {:induction false} CacheKeepsTheLatest(uses: seq<CacheUse>, now: int, u: User)
    requires InOrder(uses, now)
    ensures if u in CacheAfter(uses) then LatestPut(uses, u) == Some(CacheAfter(uses)[u])
            else LatestPut(uses, u).Some? ==> LatestPut(uses, u).value.expires < now
  {
    if uses != [] {
      CacheKeepsTheLatest(uses[..|uses| - 1], uses[|uses| - 1].at, u);
    }
  }

  /** With a clock that never goes back a lookup gives the last value put and
      not dropped since, up to the end of its lifetime, that moment included. */
  lemma {:induction false} CacheAnswersTheLatest(uses: seq<CacheUse>, now: int, u: User)
    requires InOrder(uses, now)
    ensures CacheGet(CacheAfter(uses), now, u).0
         == match LatestPut(uses, u)
            case None => None
            case Some(c) => if now <= c.expires then Some(c.bundle) else None
  {
    CacheKeepsTheLatest(uses, now, u);
  }

  /** `TTLCache`, as it is used for bundles. */
  class TtlCache {
    var store: map<User, Cached>

    constructor ()
      ensures store == map[]
    {
      store := map[];
    }

    /** An entry is given out up to its expiry, that moment included, and dropped after. */
    method Get(u: User, now: int) returns (r: Option<Bundle>)
      modifies this
      ensures (r, store) == CacheGet(old(store), now, u)
      ensures r.Some? <==> u in old(store) && now <= old(store)[u].expires
    {
      if u !in store { return None; }
      if now > store[u].expires {
        store := store - {u};
        return None;
      }
      return Some(store[u].bundle);
    }

    method Set(u: User, bundle: Bundle, now: int, ttl: int)
      modifies this
      ensures store == CachePut(old(store), u, bundle, now, ttl)
    {
      store := store[u := Cached(now + ttl, bundle)];
    }

    method Invalidate(u: User)
      modifies this
      ensures store == old(store) - {u}
    {
      store := store - {u};
    }
  }

  function To(s: Server, t: nat, r: Request, phase: Phase): Server {
    s.(requests := s.requests[t := r.(phase := phase)])
  }

  /** The bundle endpoint before it claims: the cache, then user and signed prekey. */
  function Lookup(s: Server, t: nat, r: Request, published: bool): Server {
    var (hit, cache) := CacheGet(s.cache, s.now, r.target);
    To(s.(cache := cache), t, r,
       if hit.Some? then Answered(hit.value.opk) else if published then Selecting else Answered(None))
  }

  /** The SELECT; `row` is the free row it came back with. */
  function Select(s: Server, t: nat, r: Request, row: Option<nat>): Server {
    if |r.lost| >= ATTEMPTS then To(s, t, r, Finishing(None))
    else if row.Some? && Free(s.rows, r.target, row.value) then To(s, t, r, Swapping(row.value))
    else if forall id | id in s.rows :: !Free(s.rows, r.target, id) then To(s, t, r, Finishing(None))
    else s
  }

  /** The conditional UPDATE and its commit. */
  function Swap(s: Server, t: nat, r: Request, row: nat): Server {
    if row in s.rows && !s.rows[row].used
    then To(s.(rows := Use(s.rows, row), won := s.won[row := t]), t, r, Reading(row))
    else To(s, t, r.(lost := r.lost + {row}), Selecting)
  }

  /** The answer, and the bundle endpoint's last word to the cache. */
  function Finish(s: Server, t: nat, r: Request, opk: Option<nat>): Server {
    var cache :=
      if r.endpoint.OneTime? then s.cache
      else if opk.Some? then s.cache - {r.target}
      else CachePut(s.cache, r.target, Bundle(opk), s.now, BUNDLE_TTL);
    To(s.(cache := cache), t, r, Answered(opk))
  }

  function Step(s: Server, t: nat, r: Request, published: bool, row: Option<nat>): Server {
    match r.phase
    case Arrived => Lookup(s, t, r, published)
    case Selecting => Select(s, t, r, row)
    case Swapping(row) => Swap(s, t, r, row)
    case Reading(row) => To(s, t, r, Finishing(if row in s.rows then Some(row) else None))
    case Finishing(opk) => Finish(s, t, r, opk)
    case Answered(_) => s
  }

  function Store(s: Server, owner: User, keys: seq<string>): Server {
    var n := |keys|;
    s.(rows := Inserted(s.rows, s.next, owner, keys), next := s.next + n,
       owners := map id: nat | id < s.next + n :: if id in s.owners then s.owners[id] else owner)
  }

  function Next(s: Server, e: Event): Server {
    match e
    case Start(t, endpoint, target) =>
      if t in s.requests then s
      else To(s, t, Request(endpoint, target, Arrived, {}), if endpoint.OneTime? then Selecting else Arrived)
    case Proceed(t, published, row) => if t in s.requests then Step(s, t, s.requests[t], published, row) else s
    case Upload(owner, keys) => if |keys| == 0 || |keys| > BATCH then s else Store(s, owner, Storable(keys))
    case Invalidate(owner) => s.(cache := s.cache - {owner})
    case Cleanup(owner) =>
      s.(rows := WithoutUsed(s.rows, owner), deleted := s.deleted + (s.rows.Keys - WithoutUsed(s.rows, owner).Keys))
    case Tick(seconds) => s.(now := s.now + seconds)
  }

  function Run(s: Server, es: seq<Event>): Server
    decreases |es|
  {
    if es == [] then s else Run(Next(s, es[0]), es[1..])
  }

  /** Row `row` was won by request t and is its target's. */
  predicate Holds(t: nat, target: User, row: nat, owners: map<nat, User>, won: map<nat, nat>) {
    row in won && won[row] == t && row in owners && owners[row] == target
  }

  predicate WonByOther(t: nat, target: User, row: nat, owners: map<nat, User>, won: map<nat, nat>) {
    row in won && won[row] != t && row in owners && owners[row] == target
  }

  predicate HasWonNone(t: nat, won: map<nat, nat>) {
    forall row | row in won :: won[row] != t
  }

  predicate RequestOk(t: nat, r: Request, owners: map<nat, User>, won: map<nat, nat>) {
    && |r.lost| <= ATTEMPTS
    && (forall row | row in r.lost :: WonByOther(t, r.target, row, owners, won))
    && (match r.phase
        case Arrived => HasWonNone(t, won)
        case Selecting => HasWonNone(t, won)
        case Swapping(row) =>
          HasWonNone(t, won) && |r.lost| < ATTEMPTS && row !in r.lost && row in owners && owners[row] == r.target
        case Reading(row) => Holds(t, r.target, row, owners, won)
        case Finishing(opk) => opk.Some? ==> Holds(t, r.target, opk.value, owners, won)
        case Answered(opk) => opk.Some? ==> Holds(t, r.target, opk.value, owners, won))
  }

  ghost predicate RowsOk(s: Server) {
    && (forall id: nat :: id < s.next <==> id in s.owners)
    && (forall id :: id in s.owners <==> id in s.rows || id in s.deleted)
    && s.rows.Keys !! s.deleted
    && (forall id | id in s.rows :: s.rows[id].owner == s.owners[id] && (s.rows[id].used <==> id in s.won))
    && (forall id | id in s.deleted :: id in s.won)
    && (forall id | id in s.won :: id in s.owners)
  }

  ghost predicate Inv(s: Server) {
    && RowsOk(s)
    && (forall u | u in s.cache :: s.cache[u].bundle.opk == None)
    && (forall t | t in s.requests :: RequestOk(t, s.requests[t], s.owners, s.won))
    && (forall row | row in s.won :: s.won[row] in s.requests)
  }

  // ---- One event ----

  /** A step that touches neither rows nor history. */
  lemma ToKeeps(s: Server, t: nat, r: Request, phase: Phase, cache: map<User, Cached>)
    requires Inv(s) && RequestOk(t, r.(phase := phase), s.owners, s.won)
    requires forall u | u in cache :: cache[u].bundle.opk == None
    ensures Inv(To(s.(cache := cache), t, r, phase))
    ensures s.cache == cache ==> Inv(To(s, t, r, phase))
  {
    assert s.cache == cache ==> s.(cache := cache) == s;
  }

  lemma SwapKeeps(s: Server, t: nat, r: Request, row: nat)
    requires Inv(s) && t in s.requests && s.requests[t] == r && r.phase == Swapping(row)
    ensures Inv(Swap(s, t, r, row))
  {
    assert RequestOk(t, r, s.owners, s.won);
    if row in s.rows && !s.rows[row].used {
      WinKeeps(s, t, r, row);
    } else {
      hide RowsOk;
      LosingIsPaidFor(s, row, r.target);
      LosingRequest(t, r, s.owners, s.won, row);
      ToKeeps(s, t, r.(lost := r.lost + {row}), Selecting, s.cache);
    }
  }

  /** A row that is gone or used was won by some request. */
  lemma LosingIsPaidFor(s: Server, row: nat, target: User)
    requires RowsOk(s) && row in s.owners && !(row in s.rows && !s.rows[row].used)
    ensures row in s.won
  {
  }

  lemma WinKeeps(s: Server, t: nat, r: Request, row: nat)
    requires Inv(s) && t in s.requests && s.requests[t] == r && r.phase == Swapping(row)
    requires row in s.rows && !s.rows[row].used
    ensures Inv(Swap(s, t, r, row))
  {
    hide RequestOk, RowsOk;
    var s', moved := Swap(s, t, r, row), r.(phase := Reading(row));
    WinRows(s, t, r, row);
    UnusedIsUnwon(s, row);
    WinMovesWinner(t, r, s.owners, s.won, row);
    forall k | k in s'.requests ensures RequestOk(k, s'.requests[k], s'.owners, s'.won) {
      if k != t {
        WinKeepsRequest(k, s.requests[k], s.owners, s.won, row, t);
      }
    }
  }

  lemma UnusedIsUnwon(s: Server, row: nat)
    requires RowsOk(s) && row in s.rows && !s.rows[row].used
    ensures row !in s.won
  {
  }

  lemma WinRows(s: Server, t: nat, r: Request, row: nat)
    requires RowsOk(s) && row in s.rows && !s.rows[row].used
    ensures RowsOk(Swap(s, t, r, row))
  {
    hide RequestOk;
  }

  lemma WinKeepsRequest(k: nat, r: Request, owners: map<nat, User>, won: map<nat, nat>, row: nat, t: nat)
    requires RequestOk(k, r, owners, won) && row !in won && k != t
    ensures RequestOk(k, r, owners, won[row := t])
  {
    forall lost | lost in r.lost ensures WonByOther(k, r.target, lost, owners, won[row := t]) {
      assert WonByOther(k, r.target, lost, owners, won);
    }
  }

  lemma WinMovesWinner(t: nat, r: Request, owners: map<nat, User>, won: map<nat, nat>, row: nat)
    requires RequestOk(t, r, owners, won) && r.phase == Swapping(row) && row !in won
    ensures RequestOk(t, r.(phase := Reading(row)), owners, won[row := t])
  {
    forall lost | lost in r.lost ensures WonByOther(t, r.target, lost, owners, won[row := t]) {
      assert WonByOther(t, r.target, lost, owners, won);
    }
  }

  lemma LosingRequest(t: nat, r: Request, owners: map<nat, User>, won: map<nat, nat>, row: nat)
    requires RequestOk(t, r, owners, won) && r.phase == Swapping(row) && row in won
    ensures RequestOk(t, r.(phase := Selecting, lost := r.lost + {row}), owners, won)
  {
  }

  lemma StepRequestKeeps(s: Server, t: nat, published: bool, row: Option<nat>)
    requires Inv(s) && t in s.requests
    ensures Inv(Step(s, t, s.requests[t], published, row))
  {
    hide RowsOk;
    var r := s.requests[t];
    assert RequestOk(t, r, s.owners, s.won);
    match r.phase
    case Arrived =>
      var (hit, cache) := CacheGet(s.cache, s.now, r.target);
      var phase := if hit.Some? then Answered(hit.value.opk) else if published then Selecting else Answered(None);
      ToKeeps(s, t, r, phase, cache);
    case Selecting => SelectKeeps(s, t, r, row);
    case Swapping(row) => SwapKeeps(s, t, r, row);
    case Reading(row) => ToKeeps(s, t, r, Finishing(if row in s.rows then Some(row) else None), s.cache);
    case Finishing(opk) => ToKeeps(s, t, r, Answered(opk), Finish(s, t, r, opk).cache);
    case Answered(_) =>
  }

  lemma SelectKeeps(s: Server, t: nat, r: Request, row: Option<nat>)
    requires Inv(s) && t in s.requests && s.requests[t] == r && r.phase == Selecting
    ensures Inv(Select(s, t, r, row))
  {
    assert RequestOk(t, r, s.owners, s.won);
    if |r.lost| < ATTEMPTS && row.Some? && Free(s.rows, r.target, row.value) {
      ToKeeps(s, t, r, Swapping(row.value), s.cache);
    } else {
      ToKeeps(s, t, r, Finishing(None), s.cache);
    }
  }

  lemma StoreKeeps(s: Server, owner: User, keys: seq<string>)
    requires Inv(s)
    ensures Inv(Store(s, owner, keys))
  {
    InsertedRows(s.rows, s.next, owner, keys);
    var s' := Store(s, owner, keys);
    forall id | id in s.owners ensures id in s'.owners && s'.owners[id] == s.owners[id] { }
    forall t | t in s.requests ensures RequestOk(t, s.requests[t], s'.owners, s.won) {
      assert RequestOk(t, s.requests[t], s.owners, s.won);
      GrowKeeps(t, s.requests[t], s.owners, s'.owners, s.won);
    }
  }

  lemma GrowKeeps(t: nat, r: Request, owners: map<nat, User>, owners': map<nat, User>, won: map<nat, nat>)
    requires RequestOk(t, r, owners, won) && forall id | id in owners :: id in owners' && owners'[id] == owners[id]
    ensures RequestOk(t, r, owners', won)
  {
  }

  lemma {:induction false} NextKeeps(s: Server, e: Event)
    requires Inv(s)
    ensures Inv(Next(s, e))
  {
    match e
    case Start(t, endpoint, target) =>
      if t !in s.requests {
        var phase := if endpoint.OneTime? then Selecting else Arrived;
        ToKeeps(s, t, Request(endpoint, target, Arrived, {}), phase, s.cache);
      }
    case Proceed(t, published, row) => if t in s.requests { StepRequestKeeps(s, t, published, row); }
    case Upload(owner, keys) => StoreKeeps(s, owner, Storable(keys));
    case Invalidate(owner) =>
    case Cleanup(owner) =>
    case Tick(n) =>
  }

  // ---- Every interleaving ----

  lemma {:induction false} RunKeeps(s: Server, es: seq<Event>)
    requires Inv(s)
    ensures Inv(Run(s, es))
    decreases |es|
  {
    hide Next, Inv;
    if es != [] {
      NextKeeps(s, es[0]);
      RunKeeps(Next(s, es[0]), es[1..]);
    }
  }

  /** The row request t answered with, if any. */
  function HandedTo(s: Server, t: nat): Option<nat> {
    if t in s.requests && s.requests[t].phase.Answered? then s.requests[t].phase.opk else None
  }

  /** No row is handed out twice: whatever the interleaving of claims,
      uploads, cleanups and cached reads, two requests never answer with the
      same row, and a row is only handed out for the user who uploaded it. */
  lemma {:induction false} NoRowHandedOutTwice(es: seq<Event>, t: nat, u: nat)
    requires HandedTo(Run(EMPTY, es), t).Some? && HandedTo(Run(EMPTY, es), t) == HandedTo(Run(EMPTY, es), u)
    ensures t == u
    ensures var s := Run(EMPTY, es); var row := HandedTo(s, t).value;
      row in s.owners && s.owners[row] == s.requests[t].target && (row in s.rows ==> s.rows[row].used)
  {
    RunKeeps(EMPTY, es);
    var s := Run(EMPTY, es);
    assert RequestOk(t, s.requests[t], s.owners, s.won) && RequestOk(u, s.requests[u], s.owners, s.won);
  }

  /** No cached bundle carries a one-time key. */
  lemma {:induction false} NoKeyIsCached(es: seq<Event>, u: User)
    requires u in Run(EMPTY, es).cache
    ensures Run(EMPTY, es).cache[u].bundle.opk == None
  {
    RunKeeps(EMPTY, es);
  }

  /** Every uploaded row is exactly one of unused, used, or deleted after use,
      and it is used or deleted exactly if some request won it. */
  lemma {:induction false} RowsAreConserved(es: seq<Event>, id: nat)
    ensures var s := Run(EMPTY, es);
      && (id < s.next <==> id in s.rows || id in s.deleted)
      && !(id in s.rows && id in s.deleted)
      && (id in s.won <==> (id in s.rows && s.rows[id].used) || id in s.deleted)
  {
    RunKeeps(EMPTY, es);
  }

  /** A row that was won stays won by the same request: it is never free again. */
  lemma {:induction false} WonStaysWon(s: Server, es: seq<Event>, id: nat)
    requires Inv(s) && id in s.won
    ensures var s' := Run(s, es);
      id in s'.won && s'.won[id] == s.won[id] && (id in s'.rows ==> s'.rows[id].used)
    decreases |es|
  {
    if es != [] {
      NextKeeps(s, es[0]);
      WonStep(s, es[0], id);
      WonStaysWon(Next(s, es[0]), es[1..], id);
    }
  }

  lemma WonStep(s: Server, e: Event, id: nat)
    requires Inv(s) && id in s.won
    ensures id in Next(s, e).won && Next(s, e).won[id] == s.won[id]
  {
    hide RequestOk, WithoutUsed, Inserted, Select, Finish, Lookup;
    assert id in s.rows ==> s.rows[id].used;
    if e.Proceed? && e.t in s.requests {
      StepWon(s, e.t, s.requests[e.t], e.published, e.row);
      assert Next(s, e) == Step(s, e.t, s.requests[e.t], e.published, e.row);
    }
  }

  lemma StepWon(s: Server, t: nat, r: Request, published: bool, row: Option<nat>)
    ensures var s' := Step(s, t, r, published, row);
      s'.won == s.won || exists w :: w in s.rows && !s.rows[w].used && s'.won == s.won[w := t]
  {
    hide Free, CacheGet, Use;
    match r.phase
    case Arrived =>
    case Selecting =>
    case Swapping(w) => assert Swap(s, t, r, w).won == if w in s.rows && !s.rows[w].used then s.won[w := t] else s.won;
    case Reading(_) =>
    case Finishing(_) =>
    case Answered(_) =>
  }

  /** A claim that gives up after its attempts lost that many different rows,
      all of them its target's and each won by another request. */
  lemma {:induction false} LossesArePaidFor(es: seq<Event>, t: nat)
    requires t in Run(EMPTY, es).requests
    ensures var s := Run(EMPTY, es); var r := s.requests[t];
      && |r.lost| <= ATTEMPTS
      && forall row | row in r.lost ::
           row in s.won && s.won[row] != t && s.won[row] in s.requests && row in s.owners && s.owners[row] == r.target
  {
    RunKeeps(EMPTY, es);
    var s := Run(EMPTY, es);
    assert RequestOk(t, s.requests[t], s.owners, s.won);
    forall row | row in s.requests[t].lost ensures row in s.won && s.won[row] != t && row in s.owners {
      assert WonByOther(t, s.requests[t].target, row, s.owners, s.won);
    }
  }

  // ---- What one event does to rows, cache and answers ----

  /** Rows come with an upload of one to a hundred keys, numbered on, and go
      when their owner cleans up and they are used; they are used up by the
      update of a request that selected them, and change in no other way. */
  lemma RowsExactly(s: Server, e: Event, id: nat)
    requires Inv(s)
    ensures var s' := Next(s, e); var stored := if e.Upload? && 1 <= |e.keys| <= 100 then Storable(e.keys) else [];
      var takes := e.Proceed? && e.t in s.requests && s.requests[e.t].phase == Swapping(id);
      && (id in s'.rows <==> || (id in s.rows && !(e.Cleanup? && s.rows[id].owner == e.owner && s.rows[id].used))
                             || s.next <= id < s.next + |stored|)
      && (id in s'.rows && s.next <= id ==> s'.rows[id] == Row(e.owner, stored[id - s.next], false))
      && (id in s'.rows && id < s.next ==> s'.rows[id] == s.rows[id].(used := s.rows[id].used || takes))
  {
    hide Storable, CacheGet, CachePut, RequestOk;
    assert id in s.rows ==> id < s.next;
    if e.Upload? { InsertedRows(s.rows, s.next, e.owner, Storable(e.keys)); }
    if e.Proceed? && e.t in s.requests { StepRows(s, e.t, s.requests[e.t], e.published, e.row, id); hide Step; }
    hide Inserted;
  }

  lemma StepRows(s: Server, t: nat, r: Request, published: bool, choice: Option<nat>, id: nat)
    ensures var s' := Step(s, t, r, published, choice);
      && (id in s'.rows <==> id in s.rows)
      && (id in s.rows ==> s'.rows[id] == s.rows[id].(used := s.rows[id].used || r.phase == Swapping(id)))
  {
    hide Free, CacheGet, CachePut;
  }

  /** A bundle request is answered from the cache while an entry lives, its
      last second included, and with an error when the target published no
      signed prekey; else, like a request for a key alone, it goes on to claim. */
  lemma BundleExactly(s: Server, t: nat, published: bool, row: Option<nat>)
    requires t in s.requests && s.requests[t].phase.Arrived?
    ensures var u := s.requests[t].target; var s' := Next(s, Proceed(t, published, row));
      && t in s'.requests
      && s'.requests[t].phase
         == (if u in s.cache && s.now <= s.cache[u].expires then Answered(s.cache[u].bundle.opk)
             else if published then Selecting else Answered(None))
  {
  }

  lemma StartExactly(s: Server, t: nat, endpoint: Endpoint, target: User)
    requires t !in s.requests
    ensures var s' := Next(s, Start(t, endpoint, target));
      var phase := if endpoint.ForBundle? then Arrived else Selecting;
      s' == s.(requests := s.requests[t := Request(endpoint, target, phase, {})])
  {
  }

  /** The cache entry of a user after an event: ten seconds of a bundle
      without a key once a bundle request found none, nothing once one found a
      key or the user invalidates it, and less what has expired. */
  lemma CacheExactly(s: Server, e: Event, u: User)
    ensures var s' := Next(s, e);
      var r := if e.Proceed? && e.t in s.requests && s.requests[e.t].target == u then Some(s.requests[e.t]) else None;
      if r.Some? && r.value.endpoint.ForBundle? && r.value.phase == Finishing(None)
      then u in s'.cache && s'.cache[u] == Cached(s.now + 10, Bundle(None))
      else if (r.Some? && r.value.endpoint.ForBundle? && r.value.phase.Finishing?) || e == Invalidate(u)
              || (r.Some? && r.value.phase.Arrived? && u in s.cache && s.now > s.cache[u].expires)
      then u !in s'.cache
      else (u in s'.cache <==> u in s.cache) && (u in s.cache ==> s'.cache[u] == s.cache[u])
  {
    hide Inserted, Storable, WithoutUsed, Free, Use;
    if e.Proceed? && e.t in s.requests { StepCache(s, e.t, s.requests[e.t], e.published, e.row, u); hide Step; }
  }

  lemma StepCache(s: Server, t: nat, r: Request, published: bool, choice: Option<nat>, u: User)
    ensures var cache := Step(s, t, r, published, choice).cache;
      if u == r.target && r.endpoint.ForBundle? && r.phase == Finishing(None)
      then u in cache && cache[u] == Cached(s.now + 10, Bundle(None))
      else if u == r.target && ((r.endpoint.ForBundle? && r.phase.Finishing?)
                                || (r.phase.Arrived? && u in s.cache && s.now > s.cache[u].expires))
      then u !in cache
      else (u in cache <==> u in s.cache) && (u in s.cache ==> cache[u] == s.cache[u])
  {
    hide Lookup, Select, Swap, Finish;
    match r.phase
    case Arrived => LookupCache(s, t, r, published, u);
    case Selecting => SelectCache(s, t, r, choice);
    case Swapping(row) => SwapCache(s, t, r, row);
    case Reading(_) =>
    case Finishing(opk) => FinishCache(s, t, r, opk, u);
    case Answered(_) =>
  }

  lemma LookupCache(s: Server, t: nat, r: Request, published: bool, u: User)
    ensures var cache := Lookup(s, t, r, published).cache;
      if u == r.target && u in s.cache && s.now > s.cache[u].expires then u !in cache
      else (u in cache <==> u in s.cache) && (u in s.cache ==> cache[u] == s.cache[u])
  {
  }

  lemma SelectCache(s: Server, t: nat, r: Request, choice: Option<nat>)
    ensures Select(s, t, r, choice).cache == s.cache
  {
    hide Free;
  }

  lemma SwapCache(s: Server, t: nat, r: Request, row: nat)
    ensures Swap(s, t, r, row).cache == s.cache
  {
    hide Use;
  }

  lemma FinishCache(s: Server, t: nat, r: Request, opk: Option<nat>, u: User)
    ensures var cache := Finish(s, t, r, opk).cache;
      if u == r.target && r.endpoint.ForBundle?
      then if opk == None then u in cache && cache[u] == Cached(s.now + 10, Bundle(None)) else u !in cache
      else (u in cache <==> u in s.cache) && (u in s.cache ==> cache[u] == s.cache[u])
  {
  }

  // ---- The answer of a winner ----

  /** The winner of a row is about to read it, or answers with it, or with
      nothing if the row was deleted. */
  ghost predicate WinnerOk(s: Server, row: nat)
    requires row in s.won
  {
    var t := s.won[row];
    && t in s.requests
    && match s.requests[t].phase
       case Reading(x) => x == row
       case Finishing(opk) => opk == Some(row) || (opk == None && row in s.deleted)
       case Answered(opk) => opk == Some(row) || (opk == None && row in s.deleted)
       case _ => false
  }

  ghost predicate WinnersOk(s: Server) {
    forall row | row in s.won :: WinnerOk(s, row)
  }

  lemma WinnersStep(s: Server, e: Event)
    requires Inv(s) && WinnersOk(s)
    ensures WinnersOk(Next(s, e))
  {
    hide Inserted, Storable, Free, CacheGet;
    if e.Proceed? && e.t in s.requests {
      WinnersProceed(s, e.t, e.published, e.row);
    } else {
      forall row | row in Next(s, e).won ensures WinnerOk(Next(s, e), row) { assert WinnerOk(s, row); }
    }
  }

  lemma WinnersProceed(s: Server, t: nat, published: bool, choice: Option<nat>)
    requires Inv(s) && WinnersOk(s) && t in s.requests
    ensures WinnersOk(Step(s, t, s.requests[t], published, choice))
  {
    var s', r := Step(s, t, s.requests[t], published, choice), s.requests[t];
    assert RequestOk(t, r, s.owners, s.won);
    WinnerMoves(s, t, published, choice);
    StepsAlone(s, t, published, choice);
    hide Step, RowsOk, RequestOk, Inv, HasWonNone;
    forall row | row in s'.won ensures WinnerOk(s', row) {
      if row in s.won {
        assert WinnerOk(s, row);
        if s.won[row] == t { NotWonNone(s.won, row); }
      }
    }
  }

  lemma NotWonNone(won: map<nat, nat>, row: nat)
    requires row in won
    ensures !HasWonNone(won[row], won)
  {
  }

  /** A step of request t changes no other request, and takes no row from its winner. */
  lemma StepsAlone(s: Server, t: nat, published: bool, choice: Option<nat>)
    requires t in s.requests && RowsOk(s)
    ensures var s' := Step(s, t, s.requests[t], published, choice);
      && s'.deleted == s.deleted && t in s'.requests && s'.requests == s.requests[t := s'.requests[t]]
      && (s'.won == s.won
          || (s'.requests[t].phase.Reading? && s'.requests[t].phase.row !in s.won
              && s'.won == s.won[s'.requests[t].phase.row := t]))
  {
    StepMovesOne(s, t, s.requests[t], published, choice);
    hide RowsOk, Free, CacheGet, CachePut, Use;
    if s.requests[t].phase.Swapping? {
      var row := s.requests[t].phase.row;
      if row in s.rows && !s.rows[row].used { UnusedIsUnwon(s, row); }
    } else {
      StepWinsNone(s, t, s.requests[t], published, choice);
      hide Step;
    }
  }

  lemma StepWinsNone(s: Server, t: nat, r: Request, published: bool, choice: Option<nat>)
    requires !r.phase.Swapping?
    ensures Step(s, t, r, published, choice).won == s.won
  {
    hide Free, CacheGet, CachePut;
  }

  /** The phases of a winner. */
  lemma WinnerMoves(s: Server, t: nat, published: bool, choice: Option<nat>)
    requires t in s.requests && RequestOk(t, s.requests[t], s.owners, s.won) && RowsOk(s)
    ensures var phase, phase' := s.requests[t].phase, Step(s, t, s.requests[t], published, choice).requests[t].phase;
      match phase
      case Reading(row) => phase' == Finishing(Some(row)) || (phase' == Finishing(None) && row in s.deleted)
      case Finishing(opk) => phase' == Answered(opk)
      case Answered(_) => phase' == phase
      case _ => HasWonNone(t, s.won)
  {
    hide Free, CacheGet, CachePut, Use;
  }

  lemma {:induction false} WinnersRun(s: Server, es: seq<Event>)
    requires Inv(s) && WinnersOk(s)
    ensures WinnersOk(Run(s, es))
    decreases |es|
  {
    hide Next, Inv, WinnersOk;
    if es != [] {
      NextKeeps(s, es[0]);
      WinnersStep(s, es[0]);
      WinnersRun(Next(s, es[0]), es[1..]);
    }
  }

  /** In every run a request that won a row and has answered has answered with
      that row, or with none and the row has been deleted. */
  lemma {:induction false} WinnerAnswers(es: seq<Event>, row: nat)
    requires var s := Run(EMPTY, es);
      row in s.won && s.won[row] in s.requests && s.requests[s.won[row]].phase.Answered?
    ensures var s := Run(EMPTY, es); var answer := HandedTo(s, s.won[row]);
      answer == Some(row) || (answer == None && row in s.deleted)
  {
    WinnersRun(EMPTY, es);
    assert WinnerOk(Run(EMPTY, es), row);
  }

  lemma StepMovesOne(s: Server, t: nat, r: Request, published: bool, choice: Option<nat>)
    requires t in s.requests && s.requests[t] == r
    ensures var s' := Step(s, t, r, published, choice);
      t in s'.requests && s'.requests == s.requests[t := s'.requests[t]] && s'.deleted == s.deleted
  {
    match r.phase
    case Arrived => LookupMovesOne(s, t, r, published);
    case Selecting => SelectMovesOne(s, t, r, choice);
    case Swapping(row) => SwapMovesOne(s, t, r, row);
    case Reading(_) =>
    case Finishing(opk) => FinishMovesOne(s, t, r, opk);
    case Answered(_) => assert s.requests[t := r] == s.requests;
  }

  lemma LookupMovesOne(s: Server, t: nat, r: Request, published: bool)
    ensures var s' := Lookup(s, t, r, published);
      t in s'.requests && s'.requests == s.requests[t := s'.requests[t]] && s'.deleted == s.deleted
  {
    hide CacheGet;
  }

  lemma SelectMovesOne(s: Server, t: nat, r: Request, choice: Option<nat>)
    requires t in s.requests && s.requests[t] == r
    ensures var s' := Select(s, t, r, choice);
      t in s'.requests && s'.requests == s.requests[t := s'.requests[t]] && s'.deleted == s.deleted
  {
    assert s.requests[t := r] == s.requests;
    hide Free;
  }

  lemma SwapMovesOne(s: Server, t: nat, r: Request, row: nat)
    ensures var s' := Swap(s, t, r, row);
      t in s'.requests && s'.requests == s.requests[t := s'.requests[t]] && s'.deleted == s.deleted
  {
    hide Use;
  }

  lemma FinishMovesOne(s: Server, t: nat, r: Request, opk: Option<nat>)
    ensures var s' := Finish(s, t, r, opk);
      t in s'.requests && s'.requests == s.requests[t := s'.requests[t]] && s'.deleted == s.deleted
  {
    hide CachePut;
  }

  predicate Settled(s: Server, t: nat, answer: Option<nat>) {
    t in s.requests && s.requests[t].phase in {Finishing(answer), Answered(answer)}
  }

  lemma {:induction false} SettledStays(s: Server, es: seq<Event>, t: nat, answer: Option<nat>)
    requires Settled(s, t, answer)
    ensures Settled(Run(s, es), t, answer)
    decreases |es|
  {
    if es != [] {
      SettledStep(s, es[0], t, answer);
      SettledStays(Next(s, es[0]), es[1..], t, answer);
    }
  }

  lemma SettledStep(s: Server, e: Event, t: nat, answer: Option<nat>)
    requires Settled(s, t, answer)
    ensures Settled(Next(s, e), t, answer)
  {
    hide Inserted, Storable, WithoutUsed, Free, CacheGet, CachePut, Use;
    if e.Proceed? && e.t in s.requests && e.t != t {
      StepMovesOne(s, e.t, s.requests[e.t], e.published, e.row);
      hide Step;
    }
  }

  /** What the row is when its winner reads it decides the answer: the row if
      it is there, none exactly if a cleanup was faster; two steps later it is
      given, and nothing that happens in between or afterwards changes it. */
  lemma {:induction false} ReadDecidesAnswer(s: Server, t: nat, row: nat, between: seq<Event>, after: seq<Event>,
        read: Event, done: Event)
    requires t in s.requests && s.requests[t].phase == Reading(row)
    requires read.Proceed? && read.t == t && done.Proceed? && done.t == t
    ensures var s' := Run(Next(Run(Next(s, read), between), done), after);
      t in s'.requests && s'.requests[t].phase == Answered(if row in s.rows then Some(row) else None)
  {
    var answer := if row in s.rows then Some(row) else None;
    var s1 := Next(s, read);
    SettledStays(s1, between, t, answer);
    var s2 := Next(Run(s1, between), done);
    hide Run;
    assert s2.requests[t].phase == Answered(answer);
    AnsweredStays(s2, after, t);
  }

  lemma {:induction false} AnsweredStays(s: Server, es: seq<Event>, t: nat)
    requires t in s.requests && s.requests[t].phase.Answered?
    ensures t in Run(s, es).requests && Run(s, es).requests[t] == s.requests[t]
    decreases |es|
  {
    if es != [] {
      AnsweredStep(s, es[0], t);
      AnsweredStays(Next(s, es[0]), es[1..], t);
    }
  }

  lemma AnsweredStep(s: Server, e: Event, t: nat)
    requires t in s.requests && s.requests[t].phase.Answered?
    ensures t in Next(s, e).requests && Next(s, e).requests[t] == s.requests[t]
  {
    hide Inserted, Storable, WithoutUsed, Free, CacheGet, CachePut, Use;
    if e.Proceed? && e.t in s.requests && e.t != t {
      StepMovesOne(s, e.t, s.requests[e.t], e.published, e.row);
      hide Step;
    }
  }

  // ---- A claim as a run ----

  /** Request t claims, and between its SELECT and its UPDATE of attempt i the
      rows `rivals[i]` are taken. */
  ghost function ClaimRun(s: Server, t: nat, rivals: seq<set<nat>>): Server
    requires t in s.requests && s.requests[t].phase.Selecting?
    decreases |rivals|
  {
    if rivals == [] then s
    else
      var r := s.requests[t];
      var s1 := Step(s, t, r, true, Candidate(s.rows, r.target));
      if !s1.requests[t].phase.Swapping? then s1
      else
        var s2 := s1.(rows := TakeAll(s1.rows, rivals[0]));
        var s3 := Step(s2, t, s2.requests[t], true, None);
        if s3.requests[t].phase.Selecting? then ClaimRun(s3, t, rivals[1..]) else s3
  }

  /** The rows a request lost are not free for it. */
  predicate LostAreTaken(rows: map<nat, Row>, r: Request) {
    forall row <- r.lost :: !Free(rows, r.target, row)
  }

  /** A request that is through with its attempts, two steps on. */
  function Conclude(s: Server, t: nat): Server
    requires t in s.requests
  {
    var s' := Step(s, t, s.requests[t], true, None);
    if t in s'.requests then Step(s', t, s'.requests[t], true, None) else s'
  }

  /** The steps of a request do what the claim of the table does: the same
      rows, and in the end its answer. */
  lemma {:induction false} ClaimRunAnswers(s: Server, t: nat, rivals: seq<set<nat>>)
    requires t in s.requests && s.requests[t].phase.Selecting?
    requires |s.requests[t].lost| + |rivals| == ATTEMPTS && LostAreTaken(s.rows, s.requests[t])
    ensures t in ClaimRun(s, t, rivals).requests
    ensures var s' := Conclude(ClaimRun(s, t, rivals), t);
      var (r, rows') := ClaimAgainst(s.rows, s.requests[t].target, rivals);
      s'.rows == rows' && t in s'.requests && s'.requests[t].phase == Answered(r)
  {
    ClaimRunIsClaim(s, t, rivals);
    ClaimExactly(s.rows, s.requests[t].target, rivals);
    var (r, _) := ClaimAgainst(s.rows, s.requests[t].target, rivals);
    Concluded(ClaimRun(s, t, rivals), t, r);
    hide ClaimRun, ClaimAgainst, LostAreTaken, Interfered, Conclude;
  }

  lemma Concluded(s: Server, t: nat, answer: Option<nat>)
    requires t in s.requests
    requires match answer
      case Some(id) => s.requests[t].phase == Reading(id) && id in s.rows
      case None => s.requests[t].phase == Finishing(None)
                   || (s.requests[t].phase == Selecting && |s.requests[t].lost| == ATTEMPTS)
    ensures var s' := Conclude(s, t); s'.rows == s.rows && t in s'.requests && s'.requests[t].phase == Answered(answer)
  {
    hide Free, CacheGet, CachePut;
  }

  /** Up to the reading of the row: its rows, and who won which. */
  lemma {:induction false} ClaimRunIsClaim(s: Server, t: nat, rivals: seq<set<nat>>)
    requires t in s.requests && s.requests[t].phase.Selecting?
    requires |s.requests[t].lost| + |rivals| == ATTEMPTS && LostAreTaken(s.rows, s.requests[t])
    ensures var s' := ClaimRun(s, t, rivals); var (r, rows') := ClaimAgainst(s.rows, s.requests[t].target, rivals);
      && s'.rows == rows' && t in s'.requests
      && match r
         case Some(id) => s'.requests[t].phase == Reading(id) && id in s'.won && s'.won[id] == t
         case None => s'.requests[t].phase == Finishing(None)
                      || (s'.requests[t].phase == Selecting && |s'.requests[t].lost| == ATTEMPTS)
    decreases |rivals|
  {
    hide Oldest, Candidate, ClaimRun, Free;
    if rivals == [] {
      NoAttempt(s, t);
    } else {
      var r := s.requests[t];
      var c, taken := Candidate(s.rows, r.target), TakeAll(s.rows, rivals[0]);
      if c.None? {
        AttemptEmpty(s, t, rivals);
      } else if c.value in rivals[0] {
        AttemptLost(s, t, rivals);
        CandidateIsFree(s.rows, r.target);
        LostStayTaken(s.rows, r, rivals[0], c.value);
        ClaimRunIsClaim(To(s.(rows := taken), t, r.(lost := r.lost + {c.value}), Selecting), t, rivals[1..]);
      } else {
        AttemptWon(s, t, rivals);
      }
    }
  }

  lemma CandidateIsFree(rows: map<nat, Row>, owner: User)
    requires Candidate(rows, owner).Some?
    ensures Free(rows, owner, Candidate(rows, owner).value)
  {
  }

  lemma NoAttempt(s: Server, t: nat)
    requires t in s.requests && s.requests[t].phase.Selecting?
    ensures ClaimRun(s, t, []) == s
  {
  }

  lemma AttemptEmpty(s: Server, t: nat, rivals: seq<set<nat>>)
    requires t in s.requests && s.requests[t].phase.Selecting? && rivals != []
    requires Candidate(s.rows, s.requests[t].target).None?
    ensures ClaimRun(s, t, rivals) == To(s, t, s.requests[t], Finishing(None))
  {
  }

  lemma AttemptLost(s: Server, t: nat, rivals: seq<set<nat>>)
    requires t in s.requests && s.requests[t].phase.Selecting? && rivals != [] && |s.requests[t].lost| < ATTEMPTS
    requires var c := Candidate(s.rows, s.requests[t].target); c.Some? && c.value in rivals[0]
    ensures var r, c := s.requests[t], Candidate(s.rows, s.requests[t].target).value;
      ClaimRun(s, t, rivals)
      == ClaimRun(To(s.(rows := TakeAll(s.rows, rivals[0])), t, r.(lost := r.lost + {c}), Selecting), t, rivals[1..])
  {
    var r := s.requests[t];
    var c := Candidate(s.rows, r.target);
    hide Candidate;
    var s2 := To(s, t, r, Swapping(c.value)).(rows := TakeAll(s.rows, rivals[0]));
    var s3 := To(s.(rows := TakeAll(s.rows, rivals[0])), t, r.(lost := r.lost + {c.value}), Selecting);
    assert Step(s, t, r, true, c) == To(s, t, r, Swapping(c.value));
    assert Step(s2, t, s2.requests[t], true, None) == s3;
    hide Step, To;
  }

  lemma AttemptWon(s: Server, t: nat, rivals: seq<set<nat>>)
    requires t in s.requests && s.requests[t].phase.Selecting? && rivals != [] && |s.requests[t].lost| < ATTEMPTS
    requires var c := Candidate(s.rows, s.requests[t].target); c.Some? && c.value !in rivals[0]
    ensures var r, c := s.requests[t], Candidate(s.rows, s.requests[t].target).value;
      ClaimRun(s, t, rivals)
      == To(s.(rows := Use(TakeAll(s.rows, rivals[0]), c), won := s.won[c := t]), t, r, Reading(c))
  {
    var r := s.requests[t];
    var c := Candidate(s.rows, r.target);
    hide Candidate;
    var s2 := To(s, t, r, Swapping(c.value)).(rows := TakeAll(s.rows, rivals[0]));
    var won := s.won[c.value := t];
    var s3 := To(s.(rows := Use(TakeAll(s.rows, rivals[0]), c.value), won := won), t, r, Reading(c.value));
    assert Step(s, t, r, true, c) == To(s, t, r, Swapping(c.value));
    assert Step(s2, t, s2.requests[t], true, None) == s3;
    hide Step;
  }

  lemma LostStayTaken(rows: map<nat, Row>, r: Request, taken: set<nat>, c: nat)
    requires LostAreTaken(rows, r) && Free(rows, r.target, c) && c in taken
    ensures c !in r.lost && LostAreTaken(TakeAll(rows, taken), r.(lost := r.lost + {c}))
  {
  }
}
