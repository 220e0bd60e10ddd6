/** Token lifecycle: per-process caches over the database
    (server/utils/security.py), token checks (server/core/security.py), logout,
    logout-all and refresh rotation with reuse detection (server/routes/auth.py).
    A signed token is one that was issued; presenting anything else fails to decode. */
module Tokens {
  type User = string
  type Jti = string

  datatype Kind = Access | Refresh
  datatype Token = Token(jti: Jti, sub: User, iat: nat, exp: nat, kind: Kind, pending: bool)

  /** A row of the revocation table: when its token expires, in seconds, and when it was revoked, in ticks. */
  datatype Revocation = Revocation(expires: nat, at: nat)

  datatype Db = Db(revoked: map<Jti, Revocation>, cutoffs: map<User, nat>)

  /** The module globals of one process. */
  datatype Cache = Cache(black: set<Jti>, blackLoaded: bool, cutoffs: map<User, nat>, cutoffsLoaded: bool)

  const COLD := Cache({}, false, map[], false)

  const TICKS: nat := 1_000_000
  const REUSE_GRACE: nat := 120 * TICKS

  /** Times in tokens and cutoffs are whole seconds. */
  function Seconds(now: nat): nat { now / TICKS }

  predicate Expired(exp: nat, now: nat) { exp * TICKS <= now }

  // ---- The caches ----

  /** The rows a load leaves in the table. */
  function Unexpired(rows: map<Jti, Revocation>, now: nat): map<Jti, Revocation> {
    map j | j in rows && !(rows[j].expires * TICKS < now) :: rows[j]
  }

  /** `_load_persisted_blacklist`. */
  function LoadBlack(c: Cache, db: Db, now: nat): (Cache, Db) {
    if c.blackLoaded then (c, db)
    else
      var all, kept := c.black + db.revoked.Keys, Unexpired(db.revoked, now);
      (c.(blackLoaded := true, black := if kept.Keys == db.revoked.Keys then all else all * kept.Keys),
          db.(revoked := kept))
  }

  /** `is_token_revoked`. */
  function IsRevoked(c: Cache, db: Db, now: nat, jti: Jti): (bool, Cache, Db) {
    if jti in c.black then (true, c, db)
    else
      var (c', db') := LoadBlack(c, db, now);
      (jti in c'.black, c', db')
  }

  /** `revoke_token`; a jti that has a row keeps it. */
  function Revoke(c: Cache, db: Db, now: nat, t: Token): (Cache, Db) {
    (c.(black := c.black + {t.jti}),
     if t.jti in db.revoked then db else db.(revoked := db.revoked[t.jti := Revocation(t.exp, now)]))
  }

  /** `_load_valid_after`. */
  function LoadCutoffs(c: Cache, db: Db): Cache {
    if c.cutoffsLoaded then c else c.(cutoffs := c.cutoffs + db.cutoffs, cutoffsLoaded := true)
  }

  /** `remember_tokens_valid_after`. */
  function Remember(c: Cache, u: User, ts: nat): Cache {
    c.(cutoffs := c.cutoffs[u := if u in c.cutoffs && c.cutoffs[u] > ts then c.cutoffs[u] else ts])
  }

  /** `is_token_stale` once the cutoffs are loaded. */
  predicate Stale(c: Cache, t: Token) {
    t.sub in c.cutoffs && t.iat <= c.cutoffs[t.sub]
  }

  /** `verify_token`, and `verify_refresh_token` when `refresh`: the decoding
      refuses what was not issued or is expired, then the caches are asked. */
  function Check(c: Cache, db: Db, now: nat, issued: set<Token>, t: Token, refresh: bool): (bool, Cache, Db) {
    if t !in issued || Expired(t.exp, now) || (refresh && t.kind != Refresh) then (false, c, db)
    else
      var (revoked, c', db') := IsRevoked(c, db, now, t.jti);
      if revoked then (false, c', db')
      else
        var c'' := LoadCutoffs(c', db');
        (!Stale(c'', t), c'', db')
  }

  /** `logout_all`, and what a detected reuse does. */
  function CutOff(c: Cache, db: Db, now: nat, u: User): (Cache, Db) {
    (Remember(c, u, Seconds(now)), db.(cutoffs := db.cutoffs[u := Seconds(now)]))
  }

  /** `_kill_chain_on_refresh_reuse` reads the presented payload and the row of its jti. */
  predicate ReuseDetected(db: Db, now: nat, users: set<User>, t: Token) {
    t.kind == Refresh && t.jti in db.revoked && now - db.revoked[t.jti].at > REUSE_GRACE && t.sub in users
  }

  /** `refresh_token`: whether new tokens are issued. */
  function Rotate(c: Cache, db: Db, now: nat, issued: set<Token>, users: set<User>, t: Token): (bool, Cache, Db) {
    var (ok, c', db') := Check(c, db, now, issued, t, true);
    if !ok then
      if ReuseDetected(db', now, users, t) then
        var (c'', db'') := CutOff(c', db', now, t.sub);
        (false, c'', db'')
      else (false, c', db')
    else if t.pending || t.sub !in users then (false, c', db')
    else
      var (c'', db'') := Revoke(c', db', now, t);
      (true, c'', db'')
  }

  // ---- One process ----

  /** The module globals of a process, and the tables it works on. */
  class TokenState {
    var blacklist: set<Jti>
    var blacklistLoaded: bool
    var validAfter: map<User, nat>
    var validAfterLoaded: bool
    var revokedTokens: map<Jti, Revocation>
    var tokensValidAfter: map<User, nat>

    ghost function Caches(): Cache
      reads this
    {
      Cache(blacklist, blacklistLoaded, validAfter, validAfterLoaded)
    }

    ghost function Tables(): Db
      reads this
    {
      Db(revokedTokens, tokensValidAfter)
    }

    /** A process starting over existing tables. */
    constructor (revoked: map<Jti, Revocation>, cutoffs: map<User, nat>)
      ensures Caches() == COLD && Tables() == Db(revoked, cutoffs)
    {
      blacklist, blacklistLoaded, validAfter, validAfterLoaded := {}, false, map[], false;
      revokedTokens, tokensValidAfter := revoked, cutoffs;
    }

    method LoadPersistedBlacklist(now: nat)
      modifies this
      ensures (Caches(), Tables()) == LoadBlack(old(Caches()), old(Tables()), now)
      ensures old(blacklistLoaded) ==> blacklist == old(blacklist) && revokedTokens == old(revokedTokens)
      ensures !old(blacklistLoaded) ==> forall j :: j in revokedTokens <==>
        j in old(revokedTokens) && now <= old(revokedTokens)[j].expires * 1_000_000
      ensures !old(blacklistLoaded) ==> forall j | j in revokedTokens ::
        j in blacklist && revokedTokens[j] == old(revokedTokens)[j]
    {
      if blacklistLoaded { return; }
      blacklistLoaded := true;
      var rest := revokedTokens.Keys;
      while rest != {}
        invariant rest <= revokedTokens.Keys && blacklist == old(blacklist) + (revokedTokens.Keys - rest)
        invariant blacklistLoaded && revokedTokens == old(revokedTokens)
        invariant validAfter == old(validAfter) && validAfterLoaded == old(validAfterLoaded)
            && tokensValidAfter == old(tokensValidAfter)
      {
        var jti :| jti in rest;
        blacklist := blacklist + {jti};
        rest := rest - {jti};
      }
      assert blacklist == old(blacklist) + revokedTokens.Keys;
      var kept := Unexpired(revokedTokens, now);
      if kept.Keys != revokedTokens.Keys {
        blacklist := blacklist * kept.Keys;
      }
      revokedTokens := kept;
    }

    method IsTokenRevoked(jti: Jti, now: nat) returns (revoked: bool)
      modifies this
      ensures (revoked, Caches(), Tables()) == IsRevoked(old(Caches()), old(Tables()), now, jti)
    {
      if jti in blacklist { return true; }
      LoadPersistedBlacklist(now);
      return jti in blacklist;
    }

    method RevokeToken(t: Token, now: nat)
      modifies this
      ensures (Caches(), Tables()) == Revoke(old(Caches()), old(Tables()), now, t)
      ensures blacklist == old(blacklist) + {t.jti} && revokedTokens.Keys == old(revokedTokens).Keys + {t.jti}
      ensures forall j | j in revokedTokens ::
        revokedTokens[j] == if j in old(revokedTokens) then old(revokedTokens)[j] else Revocation(t.exp, now)
    {
      blacklist := blacklist + {t.jti};
      if t.jti !in revokedTokens {
        revokedTokens := revokedTokens[t.jti := Revocation(t.exp, now)];
      }
    }

    method LoadValidAfter()
      modifies this
      ensures Caches() == LoadCutoffs(old(Caches()), old(Tables())) && Tables() == old(Tables())
    {
      if validAfterLoaded { return; }
      var rest := tokensValidAfter.Keys;
      while rest != {}
        invariant rest <= tokensValidAfter.Keys
        invariant validAfter.Keys == old(validAfter).Keys + (tokensValidAfter.Keys - rest)
        invariant forall u | u in validAfter ::
          validAfter[u] == if u in tokensValidAfter && u !in rest then tokensValidAfter[u] else old(validAfter)[u]
        invariant blacklist == old(blacklist) && blacklistLoaded == old(blacklistLoaded) && !validAfterLoaded
        invariant Tables() == old(Tables())
      {
        var u :| u in rest;
        validAfter := validAfter[u := tokensValidAfter[u]];
        rest := rest - {u};
      }
      validAfterLoaded := true;
    }

    method RememberTokensValidAfter(u: User, ts: nat)
      modifies this
      ensures Caches() == Remember(old(Caches()), u, ts) && Tables() == old(Tables())
      ensures u in validAfter && validAfter[u] >= ts && (u in old(validAfter) ==> validAfter[u] >= old(validAfter)[u])
      ensures validAfter[u] == ts || (u in old(validAfter) && validAfter == old(validAfter))
    {
      var known := if u in validAfter then validAfter[u] else 0;
      validAfter := validAfter[u := if ts > known then ts else known];
    }

    /** `verify_token`, or `verify_refresh_token`. */
    method Verify(issued: set<Token>, t: Token, refresh: bool, now: nat) returns (ok: bool)
      modifies this
      ensures (ok, Caches(), Tables()) == Check(old(Caches()), old(Tables()), now, issued, t, refresh)
    {
      if t !in issued || Expired(t.exp, now) { return false; }
      if refresh && t.kind != Refresh { return false; }
      var revoked := IsTokenRevoked(t.jti, now);
      if revoked { return false; }
      LoadValidAfter();
      return !(t.sub in validAfter && t.iat <= validAfter[t.sub]);
    }

    method RefreshToken(issued: set<Token>, users: set<User>, t: Token, now: nat) returns (ok: bool)
      modifies this
      ensures (ok, Caches(), Tables()) == Rotate(old(Caches()), old(Tables()), now, issued, users, t)
    {
      ok := Verify(issued, t, true, now);
      if !ok {
        if t.kind == Refresh && t.jti in revokedTokens && t.sub in users {
          if now - revokedTokens[t.jti].at <= REUSE_GRACE { return; }
          LogoutAll(t.sub, now);
        }
        return;
      }
      if t.pending || t.sub !in users { return false; }
      RevokeToken(t, now);
    }

    method LogoutAll(u: User, now: nat)
      modifies this
      ensures (Caches(), Tables()) == CutOff(old(Caches()), old(Tables()), now, u)
      ensures tokensValidAfter == old(tokensValidAfter)[u := Seconds(now)]
      ensures u in validAfter && validAfter[u] >= Seconds(now)
    {
      tokensValidAfter := tokensValidAfter[u := Seconds(now)];
      RememberTokensValidAfter(u, Seconds(now));
    }
  }

  // ---- Processes over one database ----

  /** The database and clock, the processes that have started, then what was
      issued, to whom, and the refresh tokens exchanged so far. */
  datatype World = World(
    db: Db, procs: map<nat, Cache>, now: nat, users: set<User>, issued: set<Token>, exchanged: seq<Jti>)

  datatype Event =
    | Tick(d: nat)
    | Issue(t: Token)
    | Verify(p: nat, t: Token)
    | Logout(p: nat, t: Token)
    | LogoutAll(p: nat, u: User)
    | Exchange(p: nat, t: Token, access: Token, refresh: Token)
    | Restart(p: nat)

  function CacheOf(w: World, p: nat): Cache {
    if p in w.procs then w.procs[p] else COLD
  }

  function With(w: World, p: nat, c: Cache, db: Db): World {
    w.(db := db, procs := w.procs[p := c])
  }

  /** A new token: a jti never used, issued now, not yet expired. */
  predicate Fresh(w: World, t: Token) {
    t.iat == Seconds(w.now) && !Expired(t.exp, w.now) && forall x <- w.issued :: x.jti != t.jti
  }

  /** `revoke`: a token that no longer decodes is left alone. */
  function LogoutStep(w: World, p: nat, t: Token): World {
    if t !in w.issued || Expired(t.exp, w.now) then w
    else
      var (c, db) := Revoke(CacheOf(w, p), w.db, w.now, t);
      With(w, p, c, db)
  }

  function LogoutAllStep(w: World, p: nat, u: User): World {
    if u !in w.users then w
    else
      var (c, db) := CutOff(CacheOf(w, p), w.db, w.now, u);
      With(w, p, c, db)
  }

  /** An exchange; the tokens it would issue are inputs. */
  function ExchangeStep(w: World, p: nat, t: Token, access: Token, refresh: Token): World {
    var (ok, c, db) := Rotate(CacheOf(w, p), w.db, w.now, w.issued, w.users, t);
    var w' := With(w, p, c, db);
    if ok then w'.(issued := w.issued + {access, refresh}, exchanged := w.exchanged + [t.jti]) else w'
  }

  /** The exchange's new tokens are new, distinct and the user's. */
  predicate NewTokens(w: World, t: Token, access: Token, refresh: Token) {
    Fresh(w, access) && Fresh(w, refresh) && access.jti != refresh.jti && access.sub == t.sub && refresh.sub == t.sub
    && access.kind == Access && refresh.kind == Refresh && !access.pending && !refresh.pending
  }

  function Next(w: World, e: Event): World {
    match e
    case Tick(d) => w.(now := w.now + d)
    case Issue(t) => if Fresh(w, t) then w.(issued := w.issued + {t}) else w
    case Verify(p, t) =>
      var (ok, c, db) := Check(CacheOf(w, p), w.db, w.now, w.issued, t, false);
      With(w, p, c, db)
    case Logout(p, t) => LogoutStep(w, p, t)
    case LogoutAll(p, u) => LogoutAllStep(w, p, u)
    case Exchange(p, t, access, refresh) =>
      if NewTokens(w, t, access, refresh) then ExchangeStep(w, p, t, access, refresh) else w
    case Restart(p) => w.(procs := w.procs[p := COLD])
  }

  function Run(w: World, es: seq<Event>): World
    decreases |es|
  {
    if es == [] then w else Run(Next(w, es[0]), es[1..])
  }

  /** Whether process p accepts the token now, as access or as refresh token. */
  predicate Accepts(w: World, p: nat, t: Token, refresh: bool) {
    Check(CacheOf(w, p), w.db, w.now, w.issued, t, refresh).0
  }

  function Begin(users: set<User>): World {
    World(Db(map[], map[]), map[], 0, users, {}, [])
  }

  // ---- Logout-all ----

  /** The process will see the column when it next asks, or already holds a cutoff of at least T. */
  predicate Knows(w: World, p: nat, u: User, T: nat) {
    !CacheOf(w, p).cutoffsLoaded || (u in CacheOf(w, p).cutoffs && CacheOf(w, p).cutoffs[u] >= T)
  }

  /** The column holds a cutoff of at least T, and the clock has passed it. */
  predicate CutAt(w: World, u: User, T: nat) {
    u in w.db.cutoffs && w.db.cutoffs[u] >= T && T <= Seconds(w.now)
  }

  /** A process knowing the cutoff refuses every token issued up to it; one
      that does not accepts any that is otherwise good. */
  lemma {:induction false} RefusesExactly(w: World, p: nat, t: Token, T: nat, refresh: bool)
    requires CutAt(w, t.sub, T) && t.iat <= T
    ensures Knows(w, p, t.sub, T) ==> !Accepts(w, p, t, refresh)
    ensures var c := CacheOf(w, p);
      !Knows(w, p, t.sub, T) && t in w.issued && !Expired(t.exp, w.now) && (refresh ==> t.kind == Refresh)
      && !IsRevoked(c, w.db, w.now, t.jti).0 && (t.sub in c.cutoffs ==> t.iat > c.cutoffs[t.sub])
      ==> Accepts(w, p, t, refresh)
  {
  }

  lemma CutStays(w: World, e: Event, u: User, T: nat)
    requires CutAt(w, u, T)
    ensures CutAt(Next(w, e), u, T)
  {
    SecondsGrow(w.now, Next(w, e).now);
  }

  lemma SecondsGrow(a: nat, b: nat)
    requires a <= b
    ensures Seconds(a) <= Seconds(b)
  {
  }

  /** A check leaves the column alone and at most loads the cutoffs. */
  lemma CheckCutoffs(c: Cache, db: Db, now: nat, issued: set<Token>, t: Token, refresh: bool)
    ensures var (_, c', db') := Check(c, db, now, issued, t, refresh);
      db'.cutoffs == db.cutoffs && (SameCutoffs(c', c) || SameCutoffs(c', LoadCutoffs(c, db)))
  {
    hide Expired, Unexpired, Stale;
  }

  predicate SameCutoffs(c: Cache, d: Cache) {
    c.cutoffs == d.cutoffs && c.cutoffsLoaded == d.cutoffsLoaded
  }

  /** The acting process's cutoffs and the column after an event: as they
      were or loaded, or a new cutoff in both, or forgotten. */
  ghost predicate Moves(c: Cache, db: Db, now: nat, c': Cache, db': Db) {
    || ((SameCutoffs(c', c) || SameCutoffs(c', LoadCutoffs(c, db)) || SameCutoffs(c', COLD))
        && db'.cutoffs == db.cutoffs)
    || exists u, d ::
         && SameCutoffs(c', Remember(d, u, Seconds(now))) && (SameCutoffs(d, c) || SameCutoffs(d, LoadCutoffs(c, db)))
         && db'.cutoffs == db.cutoffs[u := Seconds(now)]
  }

  predicate Acts(e: Event, p: nat) {
    (e.Verify? || e.Logout? || e.LogoutAll? || e.Exchange? || e.Restart?) && e.p == p
  }

  lemma NextMoves(w: World, e: Event, p: nat)
    ensures Acts(e, p) ==> Moves(CacheOf(w, p), w.db, w.now, CacheOf(Next(w, e), p), Next(w, e).db)
    ensures !Acts(e, p) ==> CacheOf(Next(w, e), p) == CacheOf(w, p)
  {
    hide Fresh, NewTokens, Expired, Check, LoadCutoffs, Remember, SameCutoffs;
    var c := CacheOf(w, p);
    assert forall d: Cache :: SameCutoffs(d, d) by { SameSelf(); }
    match e
    case Verify(q, t) => CheckCutoffs(CacheOf(w, q), w.db, w.now, w.issued, t, false);
    case Logout(q, t) => RevokeCutoffs(CacheOf(w, q), w.db, w.now, t);
    case Exchange(q, t, access, refresh) =>
      if q == p && NewTokens(w, t, access, refresh) { ExchangeMoves(w, p, t, access, refresh); }
    case _ =>
  }

  lemma SameSelf()
    ensures forall d: Cache :: SameCutoffs(d, d)
  {
  }

  lemma RevokeCutoffs(c: Cache, db: Db, now: nat, t: Token)
    ensures SameCutoffs(Revoke(c, db, now, t).0, c) && Revoke(c, db, now, t).1.cutoffs == db.cutoffs
  {
  }

  lemma ExchangeMoves(w: World, p: nat, t: Token, access: Token, refresh: Token)
    ensures var w' := ExchangeStep(w, p, t, access, refresh); Moves(CacheOf(w, p), w.db, w.now, CacheOf(w', p), w'.db)
  {
    hide Expired, Check;
    var (ok, c, db) := Check(CacheOf(w, p), w.db, w.now, w.issued, t, true);
    CheckCutoffs(CacheOf(w, p), w.db, w.now, w.issued, t, true);
    RevokeCutoffs(c, db, w.now, t);
    if !ok && ReuseDetected(db, w.now, w.users, t) {
      assert SameCutoffs(Remember(c, t.sub, Seconds(w.now)), Remember(c, t.sub, Seconds(w.now)));
    }
  }

  lemma KnowsStays(w: World, e: Event, p: nat, u: User, T: nat)
    requires CutAt(w, u, T) && Knows(w, p, u, T)
    ensures Knows(Next(w, e), p, u, T)
  {
    hide Next;
    NextMoves(w, e, p);
  }

  lemma {:induction false} CutIsPermanent(w: World, es: seq<Event>, p: nat, u: User, T: nat)
    requires CutAt(w, u, T) && Knows(w, p, u, T)
    ensures CutAt(Run(w, es), u, T) && Knows(Run(w, es), p, u, T)
    decreases |es|
  {
    hide Next, CutAt, Knows;
    if es != [] {
      CutStays(w, es[0], u, T);
      KnowsStays(w, es[0], p, u, T);
      CutIsPermanent(Next(w, es[0]), es[1..], p, u, T);
    }
  }

  /** Once a user logged out everywhere at process p, in every continuation,
      restarts included, p refuses each access and refresh token issued to the
      user up to that second; so does any process that had not read the
      cutoffs before. */
  lemma {:induction false} LogoutAllIsPermanent(w: World, p: nat, q: nat, es: seq<Event>, t: Token, refresh: bool)
    requires t.sub in w.users && t.iat <= Seconds(w.now)
    requires q == p || !CacheOf(w, q).cutoffsLoaded
    ensures !Accepts(Run(Next(w, LogoutAll(p, t.sub)), es), q, t, refresh)
  {
    var w', T := Next(w, LogoutAll(p, t.sub)), Seconds(w.now);
    assert CutAt(w', t.sub, T) && Knows(w', q, t.sub, T);
    CutIsPermanent(w', es, q, t.sub, T);
    RefusesExactly(Run(w', es), q, t, T, refresh);
  }

  // ---- The cutoff map is the column ----

  /** Only process p takes part. */
  predicate Sole(es: seq<Event>, p: nat) {
    forall e <- es :: (e.Verify? || e.Logout? || e.LogoutAll? || e.Exchange? || e.Restart?) ==> e.p == p
  }

  predicate ColumnInv(w: World, p: nat) {
    && (forall u | u in w.db.cutoffs :: w.db.cutoffs[u] <= Seconds(w.now))
    && (forall u | u in CacheOf(w, p).cutoffs :: u in w.db.cutoffs && CacheOf(w, p).cutoffs[u] == w.db.cutoffs[u])
    && (CacheOf(w, p).cutoffsLoaded ==> CacheOf(w, p).cutoffs == w.db.cutoffs)
  }

  lemma ColumnStep(w: World, e: Event, p: nat)
    requires ColumnInv(w, p) && Sole([e], p)
    ensures ColumnInv(Next(w, e), p)
  {
    hide Next, Seconds;
    assert e in [e];
    var w' := Next(w, e);
    OthersKeepColumn(w, e);
    SecondsGrow(w.now, w'.now);
    NextMoves(w, e, p);
    if Acts(e, p) {
      ColumnMoves(CacheOf(w, p), w.db, w.now, CacheOf(w', p), w'.db);
    } else {
      hide Moves;
    }
  }

  /** The map stays within the column, and equal to it once loaded. */
  lemma ColumnMoves(c: Cache, db: Db, now: nat, c': Cache, db': Db)
    requires Moves(c, db, now, c', db')
    requires forall u | u in db.cutoffs :: db.cutoffs[u] <= Seconds(now)
    requires forall u | u in c.cutoffs :: u in db.cutoffs && c.cutoffs[u] == db.cutoffs[u]
    requires c.cutoffsLoaded ==> c.cutoffs == db.cutoffs
    ensures forall u | u in db'.cutoffs :: db'.cutoffs[u] <= Seconds(now)
    ensures forall u | u in c'.cutoffs :: u in db'.cutoffs && c'.cutoffs[u] == db'.cutoffs[u]
    ensures c'.cutoffsLoaded ==> c'.cutoffs == db'.cutoffs
  {
    hide Seconds;
  }

  /** The clock never goes back, and only a process changes the column. */
  lemma OthersKeepColumn(w: World, e: Event)
    ensures w.now <= Next(w, e).now
    ensures e.Tick? || e.Issue? ==> Next(w, e).db == w.db
  {
    hide Rotate, Check, Revoke, CutOff, Fresh, NewTokens;
  }

  lemma {:induction false} ColumnRun(w: World, es: seq<Event>, p: nat)
    requires ColumnInv(w, p) && Sole(es, p)
    ensures ColumnInv(Run(w, es), p)
    decreases |es|
  {
    hide Next, ColumnInv;
    if es != [] {
      ColumnStep(w, es[0], p);
      ColumnRun(Next(w, es[0]), es[1..], p);
    }
  }

  /** In a process of its own, across restarts, the cutoff map equals the
      database column whenever it is loaded. */
  lemma {:induction false} MapIsColumn(users: set<User>, es: seq<Event>, p: nat)
    requires Sole(es, p) && CacheOf(Run(Begin(users), es), p).cutoffsLoaded
    ensures CacheOf(Run(Begin(users), es), p).cutoffs == Run(Begin(users), es).db.cutoffs
  {
    ColumnRun(Begin(users), es, p);
  }

  // ---- What every run keeps about revocations ----

  /** Every token with this jti no longer decodes. */
  predicate Gone(issued: set<Token>, now: nat, j: Jti) {
    forall t <- issued :: t.jti == j ==> Expired(t.exp, now)
  }

  ghost predicate HasJti(issued: set<Token>, j: Jti) {
    exists t :: t in issued && t.jti == j
  }

  ghost predicate RowsOk(db: Db, issued: set<Token>) {
    forall j | j in db.revoked :: exists t :: t in issued && t.jti == j && t.exp == db.revoked[j].expires
  }

  predicate JtisUnique(issued: set<Token>) {
    forall s <- issued, t <- issued :: s.jti == t.jti ==> s == t
  }

  /** Whatever is in the set was issued and has a row, unless it no longer matters. */
  ghost predicate Backed(jtis: set<Jti>, db: Db, issued: set<Token>, now: nat) {
    forall j <- jtis :: HasJti(issued, j) && (j in db.revoked || Gone(issued, now, j))
  }

  function ExchangedSet(w: World): set<Jti> {
    set j | j in w.exchanged
  }

  ghost predicate Inv(w: World) {
    && RowsOk(w.db, w.issued) && JtisUnique(w.issued)
    && Backed(ExchangedSet(w), w.db, w.issued, w.now)
    && forall p :: Backed(CacheOf(w, p).black, w.db, w.issued, w.now)
  }

  lemma LoadKeeps(c: Cache, db: Db, now: nat, issued: set<Token>, jtis: set<Jti>)
    requires RowsOk(db, issued) && JtisUnique(issued)
    requires Backed(c.black, db, issued, now) && Backed(jtis, db, issued, now)
    ensures var (c', db') := LoadBlack(c, db, now);
      RowsOk(db', issued) && Backed(c'.black, db', issued, now) && Backed(jtis, db', issued, now)
  {
    var (c', db') := LoadBlack(c, db, now);
    if !c.blackLoaded {
      forall j | j in db.revoked && j !in db'.revoked ensures Gone(issued, now, j) {
        var t :| t in issued && t.jti == j && t.exp == db.revoked[j].expires;
      }
      forall j | j in db.revoked ensures HasJti(issued, j) {
        var t :| t in issued && t.jti == j && t.exp == db.revoked[j].expires;
      }
    }
  }

  lemma RevokeKeeps(c: Cache, db: Db, now: nat, issued: set<Token>, t: Token, jtis: set<Jti>)
    requires RowsOk(db, issued) && t in issued && Backed(jtis, db, issued, now)
    ensures var db' := Revoke(c, db, now, t).1; RowsOk(db', issued) && Backed(jtis + {t.jti}, db', issued, now)
  {
    assert HasJti(issued, t.jti);
  }

  lemma IssueKeeps(db: Db, now: nat, issued: set<Token>, t: Token, jtis: set<Jti>)
    requires forall x <- issued :: x.jti != t.jti
    ensures RowsOk(db, issued) ==> RowsOk(db, issued + {t})
    ensures JtisUnique(issued) ==> JtisUnique(issued + {t})
    ensures Backed(jtis, db, issued, now) ==> Backed(jtis, db, issued + {t}, now)
  {
    if RowsOk(db, issued) {
      forall j | j in db.revoked ensures exists x :: x in issued + {t} && x.jti == j && x.exp == db.revoked[j].expires {
        var x :| x in issued && x.jti == j && x.exp == db.revoked[j].expires;
        assert x in issued + {t};
      }
    }
    if Backed(jtis, db, issued, now) {
      forall j | j in jtis ensures HasJti(issued + {t}, j) && (j in db.revoked || Gone(issued + {t}, now, j)) {
        var x :| x in issued && x.jti == j;
        assert x in issued + {t};
      }
    }
  }

  /** A change of the database seen by process p alone, under which what was backed stays backed. */
  lemma WithKeeps(w: World, p: nat, c: Cache, db: Db)
    requires Inv(w) && RowsOk(db, w.issued) && Backed(c.black, db, w.issued, w.now)
    requires forall jtis | Backed(jtis, w.db, w.issued, w.now) :: Backed(jtis, db, w.issued, w.now)
    ensures Inv(With(w, p, c, db))
  {
    var w' := With(w, p, c, db);
    hide Backed;
    forall q ensures Backed(CacheOf(w', q).black, db, w.issued, w.now) {
      if q != p { assert CacheOf(w', q) == CacheOf(w, q); }
    }
    assert ExchangedSet(w') == ExchangedSet(w);
  }

  lemma LogoutKeeps(w: World, p: nat, t: Token)
    requires Inv(w)
    ensures Inv(LogoutStep(w, p, t))
  {
    hide Backed, RowsOk;
    if t in w.issued && !Expired(t.exp, w.now) {
      var (c, db) := Revoke(CacheOf(w, p), w.db, w.now, t);
      forall jtis | Backed(jtis, w.db, w.issued, w.now) ensures Backed(jtis, db, w.issued, w.now) {
        RevokeKeeps(CacheOf(w, p), w.db, w.now, w.issued, t, jtis);
        SubBacked(jtis, jtis + {t.jti}, db, w.issued, w.now);
      }
      RevokeKeeps(CacheOf(w, p), w.db, w.now, w.issued, t, CacheOf(w, p).black);
      WithKeeps(w, p, c, db);
    }
  }

  lemma SubBacked(few: set<Jti>, many: set<Jti>, db: Db, issued: set<Token>, now: nat)
    requires few <= many && Backed(many, db, issued, now)
    ensures Backed(few, db, issued, now)
  {
  }

  /** A check changes nothing but what a load changes. */
  lemma CheckLoads(c: Cache, db: Db, now: nat, issued: set<Token>, t: Token, refresh: bool)
    ensures var (_, c', db') := Check(c, db, now, issued, t, refresh);
      || (c'.black == c.black && c'.blackLoaded == c.blackLoaded && db' == db)
      || (c'.black == LoadBlack(c, db, now).0.black && c'.blackLoaded && db' == LoadBlack(c, db, now).1)
  {
  }

  lemma CheckKeeps(w: World, p: nat, t: Token, refresh: bool)
    requires Inv(w)
    ensures var (_, c, db) := Check(CacheOf(w, p), w.db, w.now, w.issued, t, refresh);
      Inv(With(w, p, c, db))
  {
    hide Backed, RowsOk, Check, LoadBlack;
    var (_, c, db) := Check(CacheOf(w, p), w.db, w.now, w.issued, t, refresh);
    CheckLoads(CacheOf(w, p), w.db, w.now, w.issued, t, refresh);
    forall jtis | Backed(jtis, w.db, w.issued, w.now) ensures Backed(jtis, db, w.issued, w.now) {
      LoadKeeps(CacheOf(w, p), w.db, w.now, w.issued, jtis);
    }
    LoadKeeps(CacheOf(w, p), w.db, w.now, w.issued, {});
    WithKeeps(w, p, c, db);
  }

  lemma CutOffKeeps(w: World, p: nat, u: User)
    requires Inv(w)
    ensures var (c, db) := CutOff(CacheOf(w, p), w.db, w.now, u); Inv(With(w, p, c, db))
  {
    var (c, db) := CutOff(CacheOf(w, p), w.db, w.now, u);
    WithKeeps(w, p, c, db);
  }

  lemma IssueStepKeeps(w: World, t: Token)
    requires Inv(w) && forall x <- w.issued :: x.jti != t.jti
    ensures Inv(w.(issued := w.issued + {t}))
  {
    hide Backed, RowsOk, JtisUnique;
    var w' := w.(issued := w.issued + {t});
    IssueKeeps(w.db, w.now, w.issued, t, ExchangedSet(w));
    forall p ensures Backed(CacheOf(w', p).black, w.db, w'.issued, w.now) {
      IssueKeeps(w.db, w.now, w.issued, t, CacheOf(w, p).black);
      assert CacheOf(w', p) == CacheOf(w, p);
    }
    assert ExchangedSet(w') == ExchangedSet(w);
  }

  /** Revoking the exchanged token pays for adding it to the exchanged ones. */
  lemma ExchangedKeeps(w: World, p: nat, t: Token)
    requires Inv(w) && t in w.issued && !Expired(t.exp, w.now)
    ensures Inv(LogoutStep(w, p, t).(exchanged := w.exchanged + [t.jti]))
  {
    hide Backed, RowsOk, JtisUnique;
    var (c, db) := Revoke(CacheOf(w, p), w.db, w.now, t);
    var w' := LogoutStep(w, p, t);
    LogoutKeeps(w, p, t);
    RevokeKeeps(CacheOf(w, p), w.db, w.now, w.issued, t, ExchangedSet(w));
    var w'' := w'.(exchanged := w.exchanged + [t.jti]);
    assert ExchangedSet(w'') == ExchangedSet(w) + {t.jti};
    forall q ensures Backed(CacheOf(w'', q).black, w''.db, w''.issued, w''.now) {
      assert CacheOf(w'', q) == CacheOf(w', q);
    }
  }

  lemma ExchangeKeeps(w: World, p: nat, t: Token, access: Token, refresh: Token)
    requires Inv(w) && NewTokens(w, t, access, refresh)
    ensures Inv(ExchangeStep(w, p, t, access, refresh))
  {
    hide Inv, Check, Revoke, CutOff;
    var (ok, c, db) := Check(CacheOf(w, p), w.db, w.now, w.issued, t, true);
    var w1 := With(w, p, c, db);
    CheckKeeps(w, p, t, true);
    if !ok {
      CutOffKeeps(w1, p, t.sub);
      assert With(w1, p, CutOff(c, db, w.now, t.sub).0, CutOff(c, db, w.now, t.sub).1)
          == With(w, p, CutOff(c, db, w.now, t.sub).0, CutOff(c, db, w.now, t.sub).1);
    } else if !(t.pending || t.sub !in w.users) {
      CheckedIsGood(w, p, t);
      ExchangedKeeps(w1, p, t);
      var w2 := LogoutStep(w1, p, t).(exchanged := w.exchanged + [t.jti]);
      IssueStepKeeps(w2, access);
      var w3 := w2.(issued := w2.issued + {access});
      IssueStepKeeps(w3, refresh);
      assert w3.issued + {refresh} == w.issued + {access, refresh};
      var (c', db') := Revoke(c, db, w.now, t);
      assert w3.(issued := w3.issued + {refresh})
          == With(w, p, c', db').(issued := w.issued + {access, refresh}, exchanged := w.exchanged + [t.jti]);
    }
  }

  lemma CheckedIsGood(w: World, p: nat, t: Token)
    requires Accepts(w, p, t, true)
    ensures t in w.issued && !Expired(t.exp, w.now)
  {
  }

  lemma TickKeeps(w: World, d: nat)
    requires Inv(w)
    ensures Inv(w.(now := w.now + d))
  {
    var w' := w.(now := w.now + d);
    forall jtis | Backed(jtis, w.db, w.issued, w.now) ensures Backed(jtis, w.db, w.issued, w'.now) {
    }
    assert ExchangedSet(w') == ExchangedSet(w);
    forall q ensures Backed(CacheOf(w', q).black, w'.db, w'.issued, w'.now) {
      assert CacheOf(w', q) == CacheOf(w, q);
    }
  }

  lemma {:induction false} NextKeeps(w: World, e: Event)
    requires Inv(w)
    ensures Inv(Next(w, e))
  {
    hide Inv, Check, Backed;
    match e
    case Tick(d) => TickKeeps(w, d);
    case Issue(t) => if Fresh(w, t) { IssueStepKeeps(w, t); }
    case Verify(p, t) => CheckKeeps(w, p, t, false);
    case Logout(p, t) => LogoutKeeps(w, p, t);
    case LogoutAll(p, u) => CutOffKeeps(w, p, u);
    case Exchange(p, t, access, refresh) =>
      if NewTokens(w, t, access, refresh) { ExchangeKeeps(w, p, t, access, refresh); }
    case Restart(p) => RestartKeeps(w, p);
  }

  lemma RestartKeeps(w: World, p: nat)
    requires Inv(w)
    ensures Inv(w.(procs := w.procs[p := COLD]))
  {
    assert w.(procs := w.procs[p := COLD]) == With(w, p, COLD, w.db);
    WithKeeps(w, p, COLD, w.db);
  }

  lemma {:induction false} RunKeeps(w: World, es: seq<Event>)
    requires Inv(w)
    ensures Inv(Run(w, es))
    decreases |es|
  {
    hide Next, Inv;
    if es != [] {
      NextKeeps(w, es[0]);
      RunKeeps(Next(w, es[0]), es[1..]);
    }
  }

  // ---- Rotation ----

  /** The process will read the row of this jti, or holds it. */
  predicate KnowsRow(c: Cache, j: Jti) {
    !c.blackLoaded || j in c.black
  }

  /** When an exchanged refresh token is still accepted: exactly by a process
      that loaded the revocations before the exchange and did not make it,
      as long as the token is not expired and not cut off. */
  lemma {:induction false} SecondExchangeExactly(users: set<User>, es: seq<Event>, p: nat, t: Token)
    requires var w := Run(Begin(users), es); t.jti in w.exchanged && t in w.issued && t.kind == Refresh
    ensures var w := Run(Begin(users), es); var c := CacheOf(w, p);
      Accepts(w, p, t, true) <==> !KnowsRow(c, t.jti) && !Expired(t.exp, w.now) && !Stale(LoadCutoffs(c, w.db), t)
  {
    RunKeeps(Begin(users), es);
    ExchangedIsRefused(Run(Begin(users), es), p, t);
  }

  lemma ExchangedIsRefused(w: World, p: nat, t: Token)
    requires Inv(w) && t.jti in w.exchanged && t in w.issued && t.kind == Refresh
    ensures var c := CacheOf(w, p);
      Accepts(w, p, t, true) <==> !KnowsRow(c, t.jti) && !Expired(t.exp, w.now) && !Stale(LoadCutoffs(c, w.db), t)
  {
    assert t.jti in ExchangedSet(w);
  }

  predicate HoldsRows(c: Cache, db: Db) {
    c.blackLoaded ==> forall j | j in db.revoked :: j in c.black
  }

  lemma HoldsRowsStep(w: World, e: Event, p: nat)
    requires HoldsRows(CacheOf(w, p), w.db) && Sole([e], p)
    ensures HoldsRows(CacheOf(Next(w, e), p), Next(w, e).db)
  {
    hide Fresh, NewTokens, Expired, Check;
    assert e in [e];
    match e
    case Verify(q, t) => CheckLoads(CacheOf(w, p), w.db, w.now, w.issued, t, false);
    case Exchange(q, t, access, refresh) => CheckLoads(CacheOf(w, p), w.db, w.now, w.issued, t, true);
    case _ =>
  }

  lemma {:induction false} ExchangedOnceRun(w: World, es: seq<Event>, p: nat)
    requires Inv(w) && HoldsRows(CacheOf(w, p), w.db) && Sole(es, p) && NoneTwice(w.exchanged)
    ensures NoneTwice(Run(w, es).exchanged)
    ensures HoldsRows(CacheOf(Run(w, es), p), Run(w, es).db)
    decreases |es|
  {
    hide Next, Inv, HoldsRows, NoneTwice;
    if es != [] {
      NextKeeps(w, es[0]);
      HoldsRowsStep(w, es[0], p);
      NoneTwiceStep(w, es[0], p);
      ExchangedOnceRun(Next(w, es[0]), es[1..], p);
    }
  }

  predicate NoneTwice(s: seq<Jti>) {
    forall i, j | 0 <= i < j < |s| :: s[i] != s[j]
  }

  lemma NoneTwiceStep(w: World, e: Event, p: nat)
    requires Inv(w) && HoldsRows(CacheOf(w, p), w.db) && Sole([e], p) && NoneTwice(w.exchanged)
    ensures NoneTwice(Next(w, e).exchanged)
  {
    hide Fresh, Inv, Check, CutOff, Revoke;
    assert e in [e];
    if e.Exchange? && NewTokens(w, e.t, e.access, e.refresh) && Accepts(w, p, e.t, true) {
      AcceptedIsNew(w, p, e.t);
    }
  }

  lemma AcceptedIsNew(w: World, p: nat, t: Token)
    requires Inv(w) && HoldsRows(CacheOf(w, p), w.db) && Accepts(w, p, t, true)
    ensures t.jti !in w.exchanged
  {
    if t.jti in w.exchanged {
      assert t.jti in ExchangedSet(w);
      ExchangedIsRefused(w, p, t);
    }
  }

  /** In a process of its own each refresh token is exchanged at most once,
      across restarts and however many expired rows were purged. */
  lemma {:induction false} ExchangedOnce(users: set<User>, es: seq<Event>, p: nat)
    requires Sole(es, p)
    ensures forall i, j | 0 <= i < j < |Run(Begin(users), es).exchanged| ::
      Run(Begin(users), es).exchanged[i] != Run(Begin(users), es).exchanged[j]
  {
    ExchangedOnceRun(Begin(users), es, p);
  }

  /** What a process accepts, read off its caches and the tables: an issued
      token before the second of its `exp`, of the kind asked for, whose jti
      the process neither holds as revoked nor would read from the table, and
      which was issued after the cutoff it holds or would read. */
  lemma {:induction false} AcceptedExactly(users: set<User>, es: seq<Event>, p: nat, t: Token, refresh: bool)
    ensures var w := Run(Begin(users), es); var c := CacheOf(w, p);
      Accepts(w, p, t, refresh)
      <==> && t in w.issued && Seconds(w.now) < t.exp && (refresh ==> t.kind == Refresh)
           && t.jti !in c.black && (!c.blackLoaded ==> t.jti !in w.db.revoked)
           && (if !c.cutoffsLoaded && t.sub in w.db.cutoffs then t.iat > w.db.cutoffs[t.sub]
               else t.sub in c.cutoffs ==> t.iat > c.cutoffs[t.sub])
  {
    RunKeeps(Begin(users), es);
    var w := Run(Begin(users), es);
    ExpiresBySecond(t.exp, w.now);
    if t in w.issued && !Expired(t.exp, w.now) { RevokedExactly(w, CacheOf(w, p), t); }
  }

  /** When tokens are issued and what else that does: exactly for an accepted
      refresh token that is not pending, of a user who is there. Both new
      tokens are issued, and the old one is revoked at the process and in the
      table. Otherwise nothing is issued. */
  lemma {:induction false} ExchangeExactly(
      users: set<User>, es: seq<Event>, p: nat, t: Token, access: Token, refresh: Token)
    requires NewTokens(Run(Begin(users), es), t, access, refresh)
    ensures var w := Run(Begin(users), es); var w' := Next(w, Exchange(p, t, access, refresh));
      if Accepts(w, p, t, true) && !t.pending && t.sub in users
      then w'.issued == w.issued + {access, refresh} && w'.exchanged == w.exchanged + [t.jti]
           && t.jti in CacheOf(w', p).black && t.jti in w'.db.revoked && w'.db.cutoffs == w.db.cutoffs
      else w'.issued == w.issued && w'.exchanged == w.exchanged
  {
    UsersOfRun(Begin(users), es);
    var w := Run(Begin(users), es);
    CheckCutoffs(CacheOf(w, p), w.db, w.now, w.issued, t, true);
    hide Check, NewTokens, Expired;
  }

  lemma {:induction false} UsersOfRun(w: World, es: seq<Event>)
    ensures Run(w, es).users == w.users
    decreases |es|
  {
    hide Next;
    if es != [] {
      UsersStay(w, es[0]);
      UsersOfRun(Next(w, es[0]), es[1..]);
    }
  }

  /** The token has a row, or no longer decodes. */
  predicate Dead(w: World, t: Token) {
    t in w.issued && (t.jti in w.db.revoked || Expired(t.exp, w.now))
  }

  lemma DeadStays(w: World, e: Event, t: Token)
    requires Inv(w) && Dead(w, t)
    ensures Dead(Next(w, e), t)
  {
    OthersKeepColumn(w, e);
    IssuedStays(w, e, t);
    if t.jti in w.db.revoked && !Expired(t.exp, Next(w, e).now) {
      RowIsItsToken(w, t);
      RowLasts(w, e, t.jti);
    }
    hide Next, Inv;
  }

  lemma IssuedStays(w: World, e: Event, t: Token)
    requires t in w.issued
    ensures t in Next(w, e).issued
  {
    hide Check, Revoke, CutOff, Fresh, NewTokens;
  }

  lemma RowIsItsToken(w: World, t: Token)
    requires Inv(w) && t in w.issued && t.jti in w.db.revoked
    ensures w.db.revoked[t.jti].expires == t.exp
  {
    var x :| x in w.issued && x.jti == t.jti && x.exp == w.db.revoked[t.jti].expires;
  }

  lemma {:induction false} DeadRun(w: World, es: seq<Event>, t: Token, p: nat)
    requires Inv(w) && Dead(w, t) && HoldsRows(CacheOf(w, p), w.db) && Sole(es, p)
    ensures var w' := Run(w, es); Inv(w') && Dead(w', t) && HoldsRows(CacheOf(w', p), w'.db)
    decreases |es|
  {
    hide Next, Inv, Dead, HoldsRows;
    if es != [] {
      NextKeeps(w, es[0]);
      DeadStays(w, es[0], t);
      HoldsRowsStep(w, es[0], p);
      DeadRun(Next(w, es[0]), es[1..], t, p);
    }
  }

  lemma DeadIsRefused(w: World, p: nat, t: Token, refresh: bool)
    requires Inv(w) && Dead(w, t) && HoldsRows(CacheOf(w, p), w.db)
    ensures !Accepts(w, p, t, refresh)
  {
    if !Expired(t.exp, w.now) { RevokedExactly(w, CacheOf(w, p), t); }
  }

  /** In a process of its own a token that was logged out is never accepted
      again, across restarts and purges. */
  lemma {:induction false} LogoutIsPermanent(
      users: set<User>, es: seq<Event>, p: nat, t: Token, later: seq<Event>, refresh: bool)
    requires Sole(es, p) && Sole(later, p) && t in Run(Begin(users), es).issued
    ensures !Accepts(Run(Next(Run(Begin(users), es), Logout(p, t)), later), p, t, refresh)
  {
    var w := Run(Begin(users), es);
    RunKeeps(Begin(users), es);
    ExchangedOnceRun(Begin(users), es, p);
    var w' := Next(w, Logout(p, t));
    NextKeeps(w, Logout(p, t));
    HoldsRowsStep(w, Logout(p, t), p);
    hide Inv, HoldsRows, Run;
    assert Dead(w', t);
    DeadRun(w', later, t, p);
    DeadIsRefused(Run(w', later), p, t, refresh);
  }

  // ---- Reuse ----

  /** Every token issued so far carries a time the clock has passed. */
  predicate IssuedBefore(w: World) {
    forall t <- w.issued :: t.iat <= Seconds(w.now)
  }

  lemma {:induction false} IssuedBeforeRun(w: World, es: seq<Event>)
    requires IssuedBefore(w)
    ensures IssuedBefore(Run(w, es))
    decreases |es|
  {
    if es != [] {
      IssuedBeforeStep(w, es[0]);
      IssuedBeforeRun(Next(w, es[0]), es[1..]);
    }
  }

  lemma IssuedBeforeStep(w: World, e: Event)
    requires IssuedBefore(w)
    ensures IssuedBefore(Next(w, e))
  {
    hide Check, Revoke, CutOff;
    SecondsGrow(w.now, Next(w, e).now);
  }

  /** The token decodes as a refresh token, the process loaded the
      revocations without it, and it is not cut off. */
  predicate EscapesItsRow(w: World, p: nat, t: Token) {
    && t in w.issued && !Expired(t.exp, w.now) && t.kind == Refresh
    && !KnowsRow(CacheOf(w, p), t.jti) && !Stale(LoadCutoffs(CacheOf(w, p), w.db), t)
  }

  /** When a token with a row in the table is accepted all the same. */
  lemma {:induction false} RevokedAcceptedExactly(users: set<User>, es: seq<Event>, p: nat, t: Token)
    requires t.jti in Run(Begin(users), es).db.revoked
    ensures var w := Run(Begin(users), es); Accepts(w, p, t, true) <==> EscapesItsRow(w, p, t)
  {
    RunKeeps(Begin(users), es);
    AcceptedIsEscaped(Run(Begin(users), es), p, t);
  }

  lemma AcceptedIsEscaped(w: World, p: nat, t: Token)
    requires Inv(w) && t.jti in w.db.revoked
    ensures Accepts(w, p, t, true) <==> EscapesItsRow(w, p, t)
  {
    if t in w.issued && !Expired(t.exp, w.now) { RevokedExactly(w, CacheOf(w, p), t); }
  }

  /** A row of more than the grace ago, for a user who is there. */
  predicate AgedRow(w: World, t: Token) {
    && t.kind == Refresh && t.sub in w.users
    && t.jti in w.db.revoked && w.now - w.db.revoked[t.jti].at > REUSE_GRACE
  }

  /** Nothing is issued, and the user is cut off at this second. */
  predicate Killed(w: World, w': World, u: User) {
    w'.issued == w.issued && w'.exchanged == w.exchanged && w'.db.cutoffs == w.db.cutoffs[u := Seconds(w.now)]
  }

  /** Presenting a refresh token revoked more than the grace ago, whether it
      still decodes or not, cuts its user off exactly if the process does not
      accept it: then nothing is issued, and from then on that process refuses
      every token issued to the user so far; otherwise no cutoff changes. */
  lemma {:induction false} ReuseKillsTheChain(
      users: set<User>, es: seq<Event>, p: nat, t: Token, access: Token, refresh: Token,
      later: seq<Event>, s: Token, asRefresh: bool)
    requires var w := Run(Begin(users), es);
      AgedRow(w, t) && s in w.issued && s.sub == t.sub && NewTokens(w, t, access, refresh)
    ensures var w := Run(Begin(users), es); var w' := Next(w, Exchange(p, t, access, refresh));
      if Accepts(w, p, t, true) then w'.db.cutoffs == w.db.cutoffs
      else Killed(w, w', t.sub) && !Accepts(Run(w', later), p, s, asRefresh)
  {
    var w := Run(Begin(users), es);
    RunKeeps(Begin(users), es);
    IssuedBeforeRun(Begin(users), es);
    if Accepts(w, p, t, true) {
      CheckCutoffs(CacheOf(w, p), w.db, w.now, w.issued, t, true);
    } else {
      RefusedIsKilled(w, p, t, access, refresh);
      var w' := ExchangeStep(w, p, t, access, refresh);
      hide Check, Killed, ExchangeStep, Inv;
      CutIsPermanent(w', later, p, t.sub, Seconds(w.now));
      RefusesExactly(Run(w', later), p, s, Seconds(w.now), asRefresh);
    }
  }

  /** What an exchange does to the cutoffs, whatever is presented: one is
      set, for the user the token names, exactly if its jti has an aged row
      and the process does not accept it. The check reads both off the
      payload, so the row need not be of a token of that user. */
  lemma {:induction false} ExchangeCutsOffExactly(
      users: set<User>, es: seq<Event>, p: nat, t: Token, access: Token, refresh: Token)
    requires NewTokens(Run(Begin(users), es), t, access, refresh)
    ensures var w := Run(Begin(users), es); var w' := Next(w, Exchange(p, t, access, refresh));
      w'.db.cutoffs == if AgedRow(w, t) && !EscapesItsRow(w, p, t) then w.db.cutoffs[t.sub := Seconds(w.now)]
                       else w.db.cutoffs
  {
    var w := Run(Begin(users), es);
    RunKeeps(Begin(users), es);
    if t.jti in w.db.revoked { AcceptedIsEscaped(w, p, t); }
    if AgedRow(w, t) && !EscapesItsRow(w, p, t) {
      RefusedIsKilled(w, p, t, access, refresh);
    } else {
      SparedKeepsCutoffs(w, p, t, access, refresh);
    }
  }

  lemma SparedKeepsCutoffs(w: World, p: nat, t: Token, access: Token, refresh: Token)
    requires !AgedRow(w, t) || Accepts(w, p, t, true)
    ensures ExchangeStep(w, p, t, access, refresh).db.cutoffs == w.db.cutoffs
  {
    CheckCutoffs(CacheOf(w, p), w.db, w.now, w.issued, t, true);
    CheckLoads(CacheOf(w, p), w.db, w.now, w.issued, t, true);
    hide Check;
  }

  lemma RefusedIsKilled(w: World, p: nat, t: Token, access: Token, refresh: Token)
    requires Inv(w) && AgedRow(w, t) && !Accepts(w, p, t, true)
    ensures var w' := ExchangeStep(w, p, t, access, refresh);
      Killed(w, w', t.sub) && CutAt(w', t.sub, Seconds(w.now)) && Knows(w', p, t.sub, Seconds(w.now))
  {
    RowSurvives(w, p, t);
    CheckCutoffs(CacheOf(w, p), w.db, w.now, w.issued, t, true);
    hide Check;
  }

  /** A check that refuses the token leaves its row in the table. */
  lemma RowSurvives(w: World, p: nat, t: Token)
    requires Inv(w) && t.jti in w.db.revoked && !Accepts(w, p, t, true)
    ensures var db := Check(CacheOf(w, p), w.db, w.now, w.issued, t, true).2;
      t.jti in db.revoked && db.revoked[t.jti] == w.db.revoked[t.jti]
  {
  }

  // ---- The grace by the clock ----

  /** A token decodes until the clock reaches the second in its `exp`. */
  lemma ExpiresBySecond(exp: nat, now: nat)
    ensures Expired(exp, now) <==> exp <= Seconds(now)
    ensures Seconds(now) * 1_000_000 <= now < (Seconds(now) + 1) * 1_000_000
  {
  }

  /** In every run a revocation row is stamped with the clock of the event that
      adds it, a logout or an exchange of that very token, and keeps its stamp. */
  lemma {:induction false} RowsAreStamped(users: set<User>, es: seq<Event>, e: Event, j: Jti)
    requires j in Next(Run(Begin(users), es), e).db.revoked
    ensures var w := Run(Begin(users), es); var row := Next(w, e).db.revoked[j];
      if j in w.db.revoked then row == w.db.revoked[j]
      else (e.Logout? || e.Exchange?) && e.t.jti == j && e.t in w.issued && row.at == w.now && row.expires == e.t.exp
  {
    RunKeeps(Begin(users), es);
    StampedStep(Run(Begin(users), es), e, j);
  }

  lemma StampedStep(w: World, e: Event, j: Jti)
    requires Inv(w) && j in Next(w, e).db.revoked
    ensures var row := Next(w, e).db.revoked[j];
      if j in w.db.revoked then row == w.db.revoked[j]
      else (e.Logout? || e.Exchange?) && e.t.jti == j && e.t in w.issued && row.at == w.now && row.expires == e.t.exp
  {
    hide Expired, Stale, Fresh, NewTokens, LoadCutoffs;
    match e
    case Verify(p, t) => CheckRows(CacheOf(w, p), w.db, w.now, w.issued, t, false, j);
    case Exchange(p, t, _, _) =>
      CheckRows(CacheOf(w, p), w.db, w.now, w.issued, t, true, j);
      CheckedWasIssued(CacheOf(w, p), w.db, w.now, w.issued, t, true);
      if Accepts(w, p, t, true) && t.jti in w.db.revoked { RowOfAccepted(w, p, t); }
      hide Check, Inv;
    case _ =>
  }

  lemma CheckRows(c: Cache, db: Db, now: nat, issued: set<Token>, t: Token, refresh: bool, j: Jti)
    ensures var db' := Check(c, db, now, issued, t, refresh).2;
      && (j in db'.revoked ==> j in db.revoked && db'.revoked[j] == db.revoked[j])
      && (j in db.revoked && now <= db.revoked[j].expires * TICKS ==> j in db'.revoked)
  {
    hide Expired, Stale, LoadCutoffs;
  }

  lemma RowOfAccepted(w: World, p: nat, t: Token)
    requires Inv(w) && Accepts(w, p, t, true) && t.jti in w.db.revoked
    ensures w.now <= w.db.revoked[t.jti].expires * TICKS
  {
    hide Backed, IsRevoked, LoadCutoffs;
  }

  lemma CheckedWasIssued(c: Cache, db: Db, now: nat, issued: set<Token>, t: Token, refresh: bool)
    ensures Check(c, db, now, issued, t, refresh).0 ==> t in issued
  {
  }

  /** A row stays until its token has expired. */
  lemma RowLasts(w: World, e: Event, j: Jti)
    requires j in w.db.revoked && w.now <= w.db.revoked[j].expires * TICKS
    ensures j in Next(w, e).db.revoked
  {
    hide Expired, Stale, Fresh, NewTokens, LoadCutoffs;
    match e
    case Verify(p, t) => CheckRows(CacheOf(w, p), w.db, w.now, w.issued, t, false, j);
    case Exchange(p, t, _, _) =>
      CheckRows(CacheOf(w, p), w.db, w.now, w.issued, t, true, j);
      hide Check;
    case _ =>
  }

  lemma {:induction false} RowLastsRun(w: World, es: seq<Event>, j: Jti)
    requires Inv(w) && j in w.db.revoked && Run(w, es).now <= w.db.revoked[j].expires * TICKS
    ensures j in Run(w, es).db.revoked && Run(w, es).db.revoked[j] == w.db.revoked[j]
    ensures w.now <= Run(w, es).now && Run(w, es).users == w.users
    decreases |es|
  {
    hide Next, Inv;
    if es != [] {
      NextKeeps(w, es[0]);
      ClockAdvances(Next(w, es[0]), es[1..]);
      OthersKeepColumn(w, es[0]);
      UsersStay(w, es[0]);
      RowLasts(w, es[0], j);
      StampedStep(w, es[0], j);
      RowLastsRun(Next(w, es[0]), es[1..], j);
    }
  }

  lemma UsersStay(w: World, e: Event)
    ensures Next(w, e).users == w.users
  {
    hide Rotate, Check, Revoke, CutOff, Fresh, NewTokens;
  }

  lemma {:induction false} ClockAdvances(w: World, es: seq<Event>)
    ensures w.now <= Run(w, es).now
    decreases |es|
  {
    hide Next;
    if es != [] {
      OthersKeepColumn(w, es[0]);
      ClockAdvances(Next(w, es[0]), es[1..]);
    }
  }

  /** An exchange that issues tokens, of a token without a row, leaves one stamped now. */
  lemma ExchangeStamps(w: World, p: nat, t: Token, access: Token, refresh: Token)
    requires NewTokens(w, t, access, refresh) && t.jti !in w.db.revoked
    requires Next(w, Exchange(p, t, access, refresh)).issued != w.issued
    ensures var w' := Next(w, Exchange(p, t, access, refresh));
      t.sub in w.users && t.kind == Refresh && w'.db.revoked[t.jti] == Revocation(t.exp, w.now)
      && t.jti in w'.db.revoked
  {
    CheckRows(CacheOf(w, p), w.db, w.now, w.issued, t, true, t.jti);
    CheckedIsRefresh(CacheOf(w, p), w.db, w.now, w.issued, t);
    hide Check, NewTokens;
  }

  lemma CheckedIsRefresh(c: Cache, db: Db, now: nat, issued: set<Token>, t: Token)
    ensures Check(c, db, now, issued, t, true).0 ==> t.kind == Refresh
  {
  }

  /** Reuse by the clock: a refresh token is exchanged, and while it has not
      expired it is presented again at a process that holds or will read its
      row. Up to 120 s after the exchange this is silent everywhere; after them
      it cuts the user off. */
  lemma {:induction false} ReuseByTheClock(
      users: set<User>, es: seq<Event>, p: nat, t: Token, access: Token, refresh: Token,
      between: seq<Event>, q: nat, access': Token, refresh': Token)
    requires var w := Run(Begin(users), es);
      && NewTokens(w, t, access, refresh) && t.jti !in w.db.revoked
      && Next(w, Exchange(p, t, access, refresh)).issued != w.issued
      && var v := Run(Next(w, Exchange(p, t, access, refresh)), between);
      && v.now <= t.exp * TICKS && KnowsRow(CacheOf(v, q), t.jti) && NewTokens(v, t, access', refresh')
    ensures var w := Run(Begin(users), es); var v := Run(Next(w, Exchange(p, t, access, refresh)), between);
      var v' := Next(v, Exchange(q, t, access', refresh'));
      if v.now - w.now <= 120 * 1_000_000 then forall r, s, asRefresh :: Silent(v, v', r, s, asRefresh)
      else Killed(v, v', t.sub)
  {
    var w := Run(Begin(users), es);
    var e := Exchange(p, t, access, refresh);
    var v := Run(Next(w, e), between);
    RunKeeps(Begin(users), es);
    NextKeeps(w, e);
    RunKeeps(Next(w, e), between);
    ExchangeStamps(w, p, t, access, refresh);
    UsersStay(w, e);
    OthersKeepColumn(w, e);
    RowLastsRun(Next(w, e), between, t.jti);
    AcceptedIsEscaped(v, q, t);
    hide Run, Inv, Silent, Killed, Accepts;
    if v.now - w.now <= 120 * 1_000_000 {
      forall r, s, asRefresh ensures Silent(v, ExchangeStep(v, q, t, access', refresh'), r, s, asRefresh) {
        GraceStep(v, q, t, access', refresh', r, s, asRefresh);
      }
    } else {
      RefusedIsKilled(v, q, t, access', refresh');
    }
  }

  // ---- Two processes ----

  const SHARED := Token("r", "u", 0, 100, Refresh, false)
  const ACCESS := Token("a", "u", 0, 50, Access, false)
  const NEXT := Token("n", "u", 0, 100, Refresh, false)

  /** It happens: process 1 checks a refresh token, process 0 exchanges it,
      and process 1 still accepts it. */
  lemma {:induction false} SecondExchangeHappens()
    ensures var w := Run(Begin({"u"}), [Issue(SHARED), Verify(1, SHARED), Exchange(0, SHARED, ACCESS, NEXT)]);
      SHARED.jti in w.exchanged && Accepts(w, 1, SHARED, true)
  {
    var e0, e1, e2 := Issue(SHARED), Verify(1, SHARED), Exchange(0, SHARED, ACCESS, NEXT);
    var w0, loaded := Begin({"u"}), Cache({}, true, map[], true);
    var w1 := Next(w0, e0);
    assert w1 == World(Db(map[], map[]), map[], 0, {"u"}, {SHARED}, []);
    ColdCheck(SHARED, false);
    ColdCheck(SHARED, true);
    var w2 := Next(w1, e1);
    assert w2 == World(Db(map[], map[]), map[1 := loaded], 0, {"u"}, {SHARED}, []);
    var w3 := Next(w2, e2);
    assert w3.exchanged == [SHARED.jti] && CacheOf(w3, 1) == loaded && SHARED in w3.issued && w3.now == 0;
    hide Next;
    RunCons(w0, e0, [e1, e2]);
    RunCons(w1, e1, [e2]);
    RunCons(w2, e2, []);
    assert [e0] + [e1, e2] == [e0, e1, e2] && [e1] + [e2] == [e1, e2] && [e2] + [] == [e2];
  }

  const OWN := Token("t", "u", 0, 100, Access, false)

  /** Logout-all may miss a process: process 1 checks an access token, process
      0 logs its user out everywhere, and process 1 still accepts it. */
  lemma {:induction false} LogoutAllMisses()
    ensures var w := Run(Begin({"u"}), [Issue(OWN), Verify(1, OWN), LogoutAll(0, "u")]);
      CutAt(w, "u", OWN.iat) && !Accepts(w, 0, OWN, false) && Accepts(w, 1, OWN, false)
  {
    var e0, e1, e2 := Issue(OWN), Verify(1, OWN), LogoutAll(0, "u");
    var w0, loaded := Begin({"u"}), Cache({}, true, map[], true);
    var w1 := Next(w0, e0);
    assert w1 == World(Db(map[], map[]), map[], 0, {"u"}, {OWN}, []);
    ColdCheck(OWN, false);
    var w2 := Next(w1, e1);
    assert w2 == World(Db(map[], map[]), map[1 := loaded], 0, {"u"}, {OWN}, []);
    var w3 := Next(w2, e2);
    assert CacheOf(w3, 1) == loaded && w3.db == Db(map[], map["u" := 0]) && w3.issued == {OWN} && w3.now == 0;
    RefusesExactly(w3, 0, OWN, 0, false);
    hide Next;
    RunCons(w0, e0, [e1, e2]);
    RunCons(w1, e1, [e2]);
    RunCons(w2, e2, []);
    assert [e0] + [e1, e2] == [e0, e1, e2] && [e1] + [e2] == [e1, e2] && [e2] + [] == [e2];
  }

  lemma RunCons(w: World, e: Event, es: seq<Event>)
    ensures Run(w, [e] + es) == Run(Next(w, e), es)
  {
    hide Next;
    assert ([e] + es)[1..] == es;
  }

  lemma ColdCheck(t: Token, refresh: bool)
    requires !Expired(t.exp, 0) && (refresh ==> t.kind == Refresh)
    ensures Check(COLD, Db(map[], map[]), 0, {t}, t, refresh)
         == (true, Cache({}, true, map[], true), Db(map[], map[]))
  {
    var none: map<Jti, Revocation> := map[];
    assert Unexpired(none, 0) == none && none.Keys == {};
    var (c, db) := LoadBlack(COLD, Db(map[], map[]), 0);
    assert c.black == {} && db == Db(map[], map[]);
    assert LoadCutoffs(c, db) == Cache({}, true, map[], true);
  }

  /** The answer about a token that still decodes. */
  lemma RevokedExactly(w: World, c: Cache, s: Token)
    requires RowsOk(w.db, w.issued) && JtisUnique(w.issued) && Backed(c.black, w.db, w.issued, w.now)
    requires s in w.issued && !Expired(s.exp, w.now)
    ensures IsRevoked(c, w.db, w.now, s.jti).0 <==> s.jti in c.black || (!c.blackLoaded && s.jti in w.db.revoked)
    ensures var (c', db') := LoadBlack(c, w.db, w.now);
      && (s.jti in c'.black <==> s.jti in c.black || (!c.blackLoaded && s.jti in w.db.revoked))
      && (s.jti in db'.revoked <==> s.jti in w.db.revoked)
  {
  }

  /** What a check loads changes no other answer. */
  lemma LoadIsInvisible(w: World, p: nat, t: Token, q: nat, s: Token, refresh: bool)
    requires Inv(w)
    ensures var (_, c, db) := Check(CacheOf(w, p), w.db, w.now, w.issued, t, true);
      Accepts(With(w, p, c, db), q, s, refresh) == Accepts(w, q, s, refresh)
  {
    if s in w.issued && !Expired(s.exp, w.now) && (refresh ==> s.kind == Refresh) {
      var (_, c, db) := Check(CacheOf(w, p), w.db, w.now, w.issued, t, true);
      var w' := With(w, p, c, db);
      CheckKeeps(w, p, t, true);
      CheckLoads(CacheOf(w, p), w.db, w.now, w.issued, t, true);
      CheckCutoffs(CacheOf(w, p), w.db, w.now, w.issued, t, true);
      RevokedExactly(w, CacheOf(w, p), s);
      RevokedExactly(w, CacheOf(w, q), s);
      RevokedExactly(w', CacheOf(w', q), s);
      AcceptsExactly(w, q, s, refresh);
      AcceptsExactly(w', q, s, refresh);
      hide Check, LoadBlack, IsRevoked, Inv, Expired, Accepts;
    }
  }

  lemma AcceptsExactly(w: World, q: nat, s: Token, refresh: bool)
    requires s in w.issued && !Expired(s.exp, w.now) && (refresh ==> s.kind == Refresh)
    ensures Accepts(w, q, s, refresh)
       <==> !IsRevoked(CacheOf(w, q), w.db, w.now, s.jti).0 && !Stale(LoadCutoffs(CacheOf(w, q), w.db), s)
  {
  }

  /** Nothing is issued or cut off, and process q answers about the token as before. */
  predicate Silent(w: World, w': World, q: nat, s: Token, asRefresh: bool) {
    w'.issued == w.issued && w'.exchanged == w.exchanged && w'.db.cutoffs == w.db.cutoffs
    && Accepts(w', q, s, asRefresh) == Accepts(w, q, s, asRefresh)
  }

  /** A refresh token whose row is within the grace is presented and not exchanged. */
  lemma GraceStep(w: World, p: nat, t: Token, access: Token, refresh: Token, q: nat, s: Token, asRefresh: bool)
    requires Inv(w) && (!Accepts(w, p, t, true) || t.pending || t.sub !in w.users)
    requires t.jti in w.db.revoked && w.now - w.db.revoked[t.jti].at <= REUSE_GRACE
    ensures Silent(w, ExchangeStep(w, p, t, access, refresh), q, s, asRefresh)
  {
    var (ok, c, db) := Check(CacheOf(w, p), w.db, w.now, w.issued, t, true);
    CheckLoads(CacheOf(w, p), w.db, w.now, w.issued, t, true);
    assert !ReuseDetected(db, w.now, w.users, t);
    CheckCutoffs(CacheOf(w, p), w.db, w.now, w.issued, t, true);
    LoadIsInvisible(w, p, t, q, s, asRefresh);
  }

  /** An exchange within the grace is silent, every process going on to accept
      exactly what it accepted, if and only if the token does not escape its
      row at this process (or is not exchangeable at all). */
  lemma {:induction false} ReuseInGraceIsSilent(
      users: set<User>, es: seq<Event>, p: nat, t: Token, access: Token, refresh: Token)
    requires var w := Run(Begin(users), es);
      && t.jti in w.db.revoked && w.now - w.db.revoked[t.jti].at <= REUSE_GRACE
      && NewTokens(w, t, access, refresh)
    ensures var w := Run(Begin(users), es); var w' := Next(w, Exchange(p, t, access, refresh));
      (forall q, s, asRefresh :: Silent(w, w', q, s, asRefresh))
      <==> !EscapesItsRow(w, p, t) || t.pending || t.sub !in w.users
  {
    var w := Run(Begin(users), es);
    RunKeeps(Begin(users), es);
    AcceptedIsEscaped(w, p, t);
    if !EscapesItsRow(w, p, t) || t.pending || t.sub !in w.users {
      forall q, s, asRefresh ensures Silent(w, ExchangeStep(w, p, t, access, refresh), q, s, asRefresh) {
        GraceStep(w, p, t, access, refresh, q, s, asRefresh);
      }
    } else {
      var w' := Next(w, Exchange(p, t, access, refresh));
      assert access in w'.issued && access !in w.issued;
      assert !Silent(w, w', p, t, true);
    }
  }
}
