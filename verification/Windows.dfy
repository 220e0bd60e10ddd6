/** Sliding windows kept as lazily pruned lists: the lockout after failed
    attempts (server/utils/captcha.py), in memory and as a Redis sorted set,
    and the throttle on one-time prekeys (server/routes/keys.py). */
module Windows {
  import opened Text

  type Time = real

  const LOCKOUT_THRESHOLD: nat := 10
  const LOCKOUT_WINDOW: Time := 900.0
  const LOCKOUT_SECONDS: Time := 300.0
  const THROTTLE_N: nat := 20
  const THROTTLE_WINDOW: Time := 60.0

  /** The hits less than w old. */
  function Recent(hits: seq<Time>, now: Time, w: Time): (r: seq<Time>)
    ensures |r| <= |hits|
  {
    if hits == [] then []
    else
      var n := |hits| - 1;
      Recent(hits[..n], now, w) + if now - hits[n] < w then [hits[n]] else []
  }

  predicate Ordered(s: seq<Time>) {
    forall i, j | 0 <= i <= j < |s| :: s[i] <= s[j]
  }

  predicate UpTo(s: seq<Time>, now: Time) {
    forall i | 0 <= i < |s| :: s[i] <= now
  }

  // ---- Pruning ----

  lemma RecentSnoc(hits: seq<Time>, x: Time, now: Time, w: Time)
    ensures Recent(hits + [x], now, w) == Recent(hits, now, w) + if now - x < w then [x] else []
  {
    assert (hits + [x])[..|hits|] == hits;
  }

  /** Pruning first loses nothing that a look with a cut no earlier would still count. */
  lemma {:induction false} PruningBeforeIsInvisible(hits: seq<Time>, then': Time, v: Time, now: Time, w: Time)
    requires then' - v <= now - w
    ensures Recent(Recent(hits, then', v), now, w) == Recent(hits, now, w)
  {
    if hits != [] {
      var n := |hits| - 1;
      PruningBeforeIsInvisible(hits[..n], then', v, now, w);
      var kept := Recent(hits[..n], then', v);
      assert kept + [] == kept && Recent(hits[..n], now, w) + [] == Recent(hits[..n], now, w);
      RecentSnoc(kept, hits[n], now, w);
    }
  }

  lemma PruningIsInvisible(hits: seq<Time>, then': Time, now: Time, w: Time)
    requires then' <= now
    ensures Recent(Recent(hits, then', w), now, w) == Recent(hits, now, w)
  {
    PruningBeforeIsInvisible(hits, then', w, now, w);
  }

  /** The recent hits of an ordered log are its end, from the first recent one. */
  lemma {:induction false} RecentIsTheEnd(log: seq<Time>, now: Time, w: Time)
    requires Ordered(log)
    ensures |Recent(log, now, w)| <= |log| && Recent(log, now, w) == log[|log| - |Recent(log, now, w)|..]
    ensures forall i | 0 <= i < |log| :: now - log[i] < w <==> i >= |log| - |Recent(log, now, w)|
  {
    if log != [] {
      var n := |log| - 1;
      RecentIsTheEnd(log[..n], now, w);
      var k := |Recent(log[..n], now, w)|;
      assert forall i | 0 <= i < n :: log[..n][i] == log[i];
      if now - log[n] < w {
        assert log[n - k..] == log[..n][n - k..] + [log[n]];
      } else {
        assert forall i | 0 <= i < n :: log[i] <= log[n];
      }
    }
  }

  // ---- Lockout ----

  datatype Zset = Zset(scores: seq<Time>, deadline: Time)

  predicate Tripped(hits: seq<Time>, now: Time) {
    |hits| >= LOCKOUT_THRESHOLD && now - hits[|hits| - 1] < LOCKOUT_SECONDS
  }

  /** At least ten failures within the window, the latest of them recent enough. */
  predicate LockedOut(log: seq<Time>, now: Time) {
    |Recent(log, now, LOCKOUT_WINDOW)| >= LOCKOUT_THRESHOLD && now - log[|log| - 1] < LOCKOUT_SECONDS
  }

  /** A sorted set whose key has not expired. */
  function Scores(z: Option<Zset>, now: Time): seq<Time> {
    if z.Some? && now <= z.value.deadline then z.value.scores else []
  }

  function Insert(scores: seq<Time>, x: Time): seq<Time> {
    if scores == [] || scores[|scores| - 1] <= x then scores + [x]
    else Insert(scores[..|scores| - 1], x) + [scores[|scores| - 1]]
  }

  /** `_record_failure_redis`: add, drop what left the window, renew the expiry. */
  function ZRecord(z: Option<Zset>, now: Time): Option<Zset> {
    Some(Zset(Recent(Insert(Scores(z, now), now), now, LOCKOUT_WINDOW), now + LOCKOUT_WINDOW + LOCKOUT_SECONDS))
  }

  /** `_is_locked_out_redis`: drop what left the window; an empty set is no key. */
  function ZPrune(z: Option<Zset>, now: Time): Option<Zset> {
    var scores := Recent(Scores(z, now), now, LOCKOUT_WINDOW);
    if scores == [] then None else Some(Zset(scores, z.value.deadline))
  }

  datatype Event = Failure(at: Time) | Look(at: Time) | Success(at: Time)

  datatype Lockout = Lockout(hits: seq<Time>, zset: Option<Zset>)

  function Next(s: Lockout, e: Event): Lockout {
    match e
    case Failure(at) => Lockout(Recent(s.hits, at, LOCKOUT_WINDOW) + [at], ZRecord(s.zset, at))
    case Look(at) => Lockout(Recent(s.hits, at, LOCKOUT_WINDOW), ZPrune(s.zset, at))
    case Success(_) => Lockout([], None)
  }

  function After(es: seq<Event>): Lockout {
    if es == [] then Lockout([], None) else Next(After(es[..|es| - 1]), es[|es| - 1])
  }

  /** The full log of failures since the last success. */
  function LogOf(es: seq<Event>): seq<Time> {
    if es == [] then []
    else
      var log, e := LogOf(es[..|es| - 1]), es[|es| - 1];
      match e
      case Failure(at) => log + [at]
      case Look(_) => log
      case Success(_) => []
  }

  /** The clock never goes back. */
  predicate Clocked(es: seq<Event>, now: Time) {
    es == [] || (es[|es| - 1].at <= now && Clocked(es[..|es| - 1], es[|es| - 1].at))
  }

  /** A store that answers like the log does from `now` on: it kept an end of
      the log that holds everything still in the window. */
  predicate Keeps(kept: seq<Time>, log: seq<Time>, now: Time) {
    Recent(kept, now, LOCKOUT_WINDOW) == Recent(log, now, LOCKOUT_WINDOW)
    && Ordered(log) && UpTo(log, now)
    && Ordered(kept) && UpTo(kept, now)
  }

  lemma KeepsLater(kept: seq<Time>, log: seq<Time>, now: Time, later: Time)
    requires Keeps(kept, log, now) && now <= later
    ensures Keeps(kept, log, later)
    ensures Keeps(Recent(kept, later, LOCKOUT_WINDOW), log, later)
  {
    PruningIsInvisible(kept, now, later, LOCKOUT_WINDOW);
    PruningIsInvisible(log, now, later, LOCKOUT_WINDOW);
    PruningIsInvisible(kept, later, later, LOCKOUT_WINDOW);
    RecentIsTheEnd(kept, later, LOCKOUT_WINDOW);
  }

  lemma KeepsRecorded(kept: seq<Time>, log: seq<Time>, now: Time)
    requires Keeps(kept, log, now)
    ensures Keeps(kept + [now], log + [now], now)
  {
    RecentSnoc(kept, now, now, LOCKOUT_WINDOW);
    RecentSnoc(log, now, now, LOCKOUT_WINDOW);
  }

  lemma InsertAtEnd(scores: seq<Time>, now: Time)
    requires UpTo(scores, now)
    ensures Insert(scores, now) == scores + [now]
  {
  }

  /** A lockout list that keeps the log, looked at after pruning, answers like the log. */
  lemma TrippedExactly(kept: seq<Time>, log: seq<Time>, now: Time)
    requires Keeps(kept, log, now)
    ensures Tripped(Recent(kept, now, LOCKOUT_WINDOW), now) == LockedOut(log, now)
  {
    RecentIsTheEnd(log, now, LOCKOUT_WINDOW);
  }

  /** By its deadline a sorted set holds nothing a look would count. */
  lemma ExpiryIsInvisible(z: Zset, log: seq<Time>, last: Time, now: Time)
    requires Keeps(z.scores, log, last) && last <= now
    requires UpTo(log, z.deadline - LOCKOUT_WINDOW - LOCKOUT_SECONDS)
    ensures Keeps(Scores(Some(z), now), log, now)
  {
    KeepsLater(z.scores, log, last, now);
    if z.deadline < now {
      RecentIsTheEnd(log, now, LOCKOUT_WINDOW);
    }
  }

  /** A sorted set that keeps the log, and whose deadline is the last failure's. */
  predicate ZKeeps(z: Option<Zset>, log: seq<Time>, now: Time) {
    match z
    case None => Keeps([], log, now)
    case Some(z) => Keeps(z.scores, log, now) && UpTo(log, z.deadline - LOCKOUT_WINDOW - LOCKOUT_SECONDS)
  }

  lemma ScoresKeep(z: Option<Zset>, log: seq<Time>, now: Time)
    requires ZKeeps(z, log, now)
    ensures Keeps(Scores(z, now), log, now)
  {
    hide Keeps;
    if z.Some? { ExpiryIsInvisible(z.value, log, now, now); }
  }

  lemma FailureKeeps(s: Lockout, log: seq<Time>, at: Time)
    requires Keeps(s.hits, log, at) && ZKeeps(s.zset, log, at)
    ensures var s' := Next(s, Failure(at)); Keeps(s'.hits, log + [at], at) && ZKeeps(s'.zset, log + [at], at)
  {
    KeepsLater(s.hits, log, at, at);
    KeepsRecorded(Recent(s.hits, at, LOCKOUT_WINDOW), log, at);
    ScoresKeep(s.zset, log, at);
    var scores := Scores(s.zset, at);
    InsertAtEnd(scores, at);
    KeepsRecorded(scores, log, at);
    KeepsLater(scores + [at], log + [at], at, at);
    assert UpTo(log + [at], at);
    hide Keeps, Recent, Scores, Insert;
  }

  lemma LookKeeps(s: Lockout, log: seq<Time>, at: Time)
    requires Keeps(s.hits, log, at) && ZKeeps(s.zset, log, at)
    ensures var s' := Next(s, Look(at)); Keeps(s'.hits, log, at) && ZKeeps(s'.zset, log, at)
  {
    KeepsLater(s.hits, log, at, at);
    ScoresKeep(s.zset, log, at);
    KeepsLater(Scores(s.zset, at), log, at, at);
    hide Keeps, Recent;
  }

  lemma {:induction false} RunKeeps(es: seq<Event>, now: Time)
    requires Clocked(es, now)
    ensures Keeps(After(es).hits, LogOf(es), now) && ZKeeps(After(es).zset, LogOf(es), now)
  {
    hide Keeps, ZKeeps, Next;
    if es == [] {
      NothingKeeps(now);
    } else {
      var before, e := es[..|es| - 1], es[|es| - 1];
      RunKeeps(before, e.at);
      match e {
        case Failure(at) => FailureKeeps(After(before), LogOf(before), at);
        case Look(at) => LookKeeps(After(before), LogOf(before), at);
        case Success(at) => NothingKeeps(at);
      }
      BothLater(After(es), LogOf(es), e.at, now);
    }
  }

  lemma NothingKeeps(now: Time)
    ensures Keeps([], [], now) && ZKeeps(None, [], now)
    ensures forall s: Lockout, at :: Next(s, Success(at)) == Lockout([], None)
  {
  }

  lemma BothLater(s: Lockout, log: seq<Time>, then': Time, now: Time)
    requires Keeps(s.hits, log, then') && ZKeeps(s.zset, log, then') && then' <= now
    ensures Keeps(s.hits, log, now) && ZKeeps(s.zset, log, now)
  {
    hide Keeps;
    KeepsLater(s.hits, log, then', now);
    KeepsLater(if s.zset.Some? then s.zset.value.scores else [], log, then', now);
  }

  /** For every history with a clock that never goes back, the pruned list and
      the sorted set with its expiry both answer as the full log of failures
      since the last success does. */
  lemma {:induction false} BothAnswerAsTheLog(es: seq<Event>, now: Time)
    requires Clocked(es, now)
    ensures var s := After(es);
      && Tripped(Recent(s.hits, now, LOCKOUT_WINDOW), now) == LockedOut(LogOf(es), now)
      && Tripped(Recent(Scores(s.zset, now), now, LOCKOUT_WINDOW), now) == LockedOut(LogOf(es), now)
  {
    hide Keeps, ZKeeps, Tripped, LockedOut;
    RunKeeps(es, now);
    TrippedExactly(After(es).hits, LogOf(es), now);
    ScoresKeep(After(es).zset, LogOf(es), now);
    TrippedExactly(Scores(After(es).zset, now), LogOf(es), now);
  }

  /** The manager with its stores up; `log` is the full log of each key since
      its last success, which neither store keeps. */
  class LockoutManager {
    var failures: map<string, seq<Time>>
    var zsets: map<string, Zset>
    ghost var log: map<string, seq<Time>>
    ghost var clock: Time

    ghost function View(key: string): Lockout
      reads this
    {
      Lockout(if key in failures then failures[key] else [], if key in zsets then Some(zsets[key]) else None)
    }

    ghost function Log(key: string): seq<Time>
      reads this
    {
      if key in log then log[key] else []
    }

    ghost predicate Valid()
      reads this
    {
      forall key :: Keeps(View(key).hits, Log(key), clock) && ZKeeps(View(key).zset, Log(key), clock)
    }

    constructor (now: Time)
      ensures Valid() && clock == now && forall key :: View(key) == Lockout([], None) && Log(key) == []
    {
      failures, zsets, log, clock := map[], map[], map[], now;
      new;
      NothingKeeps(now);
    }

    /** `is_locked_out`: the sorted set is asked first, and the list only if it says no. */
    method IsLockedOut(key: string, now: Time) returns (r: bool)
      requires Valid() && clock <= now
      modifies this
      ensures Valid() && clock == now && log == old(log)
      ensures r == LockedOut(Log(key), now)
    {
      hide Recent, Scores, Keeps, ZKeeps, Tripped, LockedOut;
      Later(now);
      ghost var s := View(key);
      LookKeeps(s, Log(key), now);
      TrippedExactly(s.hits, Log(key), now);
      ScoresKeep(s.zset, Log(key), now);
      TrippedExactly(Scores(s.zset, now), Log(key), now);
      var pruned := ZPrune(if key in zsets then Some(zsets[key]) else None, now);
      r := false;
      if pruned.Some? {
        zsets := zsets[key := pruned.value];
        r := Tripped(pruned.value.scores, now);
      } else {
        zsets := zsets - {key};
      }
      assert pruned == Next(s, Look(now)).zset;
      if !r {
        var hits := Recent(if key in failures then failures[key] else [], now, LOCKOUT_WINDOW);
        failures := failures[key := hits];
        r := Tripped(hits, now);
      }
      clock := now;
      forall k ensures Keeps(View(k).hits, Log(k), clock) && ZKeeps(View(k).zset, Log(k), clock) {
        assert k != key ==> View(k) == old(View(k));
        assert Log(k) == old(Log(k));
        assert View(key).hits in [s.hits, Next(s, Look(now)).hits];
      }
    }

    method RecordFailure(key: string, now: Time)
      requires Valid() && clock <= now
      modifies this
      ensures Valid() && clock == now && log == old(log)[key := old(Log(key)) + [now]]
      ensures View(key) == Next(old(View(key)), Failure(now))
    {
      hide Recent, Scores, Insert, Keeps, ZKeeps;
      Later(now);
      FailureKeeps(View(key), Log(key), now);
      zsets := zsets[key := ZRecord(if key in zsets then Some(zsets[key]) else None, now).value];
      var hits := Recent(if key in failures then failures[key] else [], now, LOCKOUT_WINDOW);
      failures := failures[key := hits + [now]];
      log := log[key := Log(key) + [now]];
      clock := now;
      forall k ensures Keeps(View(k).hits, Log(k), clock) && ZKeeps(View(k).zset, Log(k), clock) {
        assert k != key ==> View(k) == old(View(k)) && Log(k) == old(Log(k));
      }
    }

    method RecordSuccess(key: string, now: Time)
      requires Valid() && clock <= now
      modifies this
      ensures Valid() && clock == now && log == old(log) - {key}
      ensures View(key) == Next(old(View(key)), Success(now))
    {
      hide Recent, Scores, Keeps, ZKeeps;
      Later(now);
      NothingKeeps(now);
      zsets := zsets - {key};
      failures := failures - {key};
      log := log - {key};
      clock := now;
      forall k ensures Keeps(View(k).hits, Log(k), clock) && ZKeeps(View(k).zset, Log(k), clock) {
        assert k != key ==> View(k) == old(View(k)) && Log(k) == old(Log(k));
      }
    }

    lemma Later(now: Time)
      requires Valid() && clock <= now
      ensures forall key :: Keeps(View(key).hits, Log(key), now) && ZKeeps(View(key).zset, Log(key), now)
    {
      hide Keeps, ZKeeps;
      forall key ensures Keeps(View(key).hits, Log(key), now) && ZKeeps(View(key).zset, Log(key), now) {
        BothLater(View(key), Log(key), clock, now);
      }
    }
  }

  /** When a log of failures locks out: at least ten of them less than a
      quarter of an hour old, the last less than five minutes. */
  lemma {:induction false} LockedOutExactly(log: seq<Time>, now: Time)
    requires log != []
    ensures LockedOut(log, now)
       <==> |set i: nat | i < |log| && now - log[i] < 15.0 * 60.0| >= 10 && now - log[|log| - 1] < 5.0 * 60.0
  {
    RecentCounts(log, now, LOCKOUT_WINDOW);
    assert (set i: nat | i < |log| && now - log[i] < 15.0 * 60.0) == Younger(log, now, LOCKOUT_WINDOW);
  }

  lemma {:induction false} RecentCounts(hits: seq<Time>, now: Time, w: Time)
    ensures |Recent(hits, now, w)| == |Younger(hits, now, w)|
  {
    if hits != [] {
      var n := |hits| - 1;
      RecentCounts(hits[..n], now, w);
      var before := Younger(hits[..n], now, w);
      assert n !in before;
      assert Younger(hits, now, w) == if now - hits[n] < w then before + {n} else before;
    }
  }

  /** The log that counts: the failures since the last success, in order. */
  lemma {:induction false} LogSince(es: seq<Event>, rest: seq<Event>, at: Time)
    requires forall e <- rest :: !e.Success?
    ensures LogOf(es + [Success(at)] + rest) == FailuresOf(rest)
    ensures LogOf(rest) == FailuresOf(rest)
  {
    var all := es + [Success(at)] + rest;
    if rest == [] {
      assert all == es + [Success(at)] && all[|all| - 1] == Success(at);
    } else {
      var n := |rest| - 1;
      LogSince(es, rest[..n], at);
      assert all[..|all| - 1] == es + [Success(at)] + rest[..n] && all[|all| - 1] == rest[n] && rest[n] in rest;
    }
  }

  function FailuresOf(es: seq<Event>): seq<Time> {
    if es == [] then []
    else FailuresOf(es[..|es| - 1]) + if es[|es| - 1].Failure? then [es[|es| - 1].at] else []
  }

  // ---- Throttle ----

  /** All requests ever admitted for one caller and target, in order, with the list kept of them. */
  datatype Throttle = Throttle(admitted: seq<Time>, hits: seq<Time>)

  /** `_check_opk_throttle`; a refused request leaves the list alone. */
  function Admit(s: Throttle, now: Time): (Throttle, bool) {
    var hits := Recent(s.hits, now, THROTTLE_WINDOW);
    if |hits| >= THROTTLE_N then (s, false) else (Throttle(s.admitted + [now], hits + [now]), true)
  }

  /** The requests in the order the lock lets them in. Each read the clock
      before it asked for the lock, so the readings need not be in order. */
  function AdmitAll(times: seq<Time>): Throttle {
    if times == [] then Throttle([], []) else Admit(AdmitAll(times[..|times| - 1]), times[|times| - 1]).0
  }

  /** No reading is more than d behind one that was let in before it. */
  predicate Lagging(times: seq<Time>, d: Time) {
    forall i, j | 0 <= i < j < |times| :: times[i] - d <= times[j]
  }

  /** Where in a list the times of a half-open window are. */
  function Within(s: seq<Time>, from: Time, to: Time): set<nat> {
    set i: nat | i < |s| && from <= s[i] < to
  }

  /** The admitted requests that still count at `now`: less than a minute old,
      and pruned by none admitted since. */
  function Counted(s: seq<Time>, now: Time): set<nat> {
    set i: nat | i < |s| && now - s[i] < THROTTLE_WINDOW && Unpruned(s, i)
  }

  predicate Unpruned(s: seq<Time>, i: nat)
    requires i < |s|
  {
    forall j | i < j < |s| :: s[j] - s[i] < THROTTLE_WINDOW
  }

  // ---- Exactly when a request is refused ----

  /** What counts at `now` after one more admission: what counted before at the later of the two. */
  lemma CountedSnoc(s: seq<Time>, x: Time, now: Time)
    ensures |Counted(s + [x], now)|
         == |Counted(s, if x > now then x else now)| + if now - x < THROTTLE_WINDOW then 1 else 0
  {
    var later := if x > now then x else now;
    forall i: nat | i < |s| ensures i in Counted(s + [x], now) <==> i in Counted(s, later) {
      assert (s + [x])[|s|] == x;
      assert Unpruned(s + [x], i) <==> Unpruned(s, i) && x - s[i] < THROTTLE_WINDOW by {
        if Unpruned(s + [x], i) {
          forall j | i < j < |s| ensures s[j] - s[i] < THROTTLE_WINDOW { assert (s + [x])[j] == s[j]; }
        }
      }
    }
    if now - x < THROTTLE_WINDOW {
      assert Counted(s + [x], now) == Counted(s, later) + {|s|};
    } else {
      assert Counted(s + [x], now) == Counted(s, later);
    }
  }

  /** Two looks in a row keep what the later of the two keeps. */
  lemma {:induction false} RecentTwice(hits: seq<Time>, x: Time, now: Time, w: Time)
    ensures Recent(Recent(hits, x, w), now, w) == Recent(hits, if x > now then x else now, w)
  {
    if x <= now {
      PruningIsInvisible(hits, x, now, w);
    } else if hits != [] {
      var n := |hits| - 1;
      RecentTwice(hits[..n], x, now, w);
      var kept := Recent(hits[..n], x, w);
      assert kept + [] == kept;
      RecentSnoc(kept, hits[n], now, w);
    }
  }

  lemma {:induction false} HitsAreCounted(times: seq<Time>, now: Time)
    ensures |Recent(AdmitAll(times).hits, now, THROTTLE_WINDOW)| == |Counted(AdmitAll(times).admitted, now)|
  {
    if times != [] {
      var n := |times| - 1;
      var s, x := AdmitAll(times[..n]), times[n];
      if Admit(s, x).1 {
        var later := if x > now then x else now;
        HitsAreCounted(times[..n], later);
        RecentTwice(s.hits, x, now, THROTTLE_WINDOW);
        RecentSnoc(Recent(s.hits, x, THROTTLE_WINDOW), x, now, THROTTLE_WINDOW);
        CountedSnoc(s.admitted, x, now);
      } else {
        HitsAreCounted(times[..n], now);
      }
    } else {
      assert Counted([], now) == {};
    }
  }

  /** Whatever the clock readings, a request is refused exactly if twenty
      admitted before it still count. */
  lemma {:induction false} RefusedExactly(times: seq<Time>, now: Time)
    ensures !Admit(AdmitAll(times), now).1 <==> |Counted(AdmitAll(times).admitted, now)| >= THROTTLE_N
  {
    HitsAreCounted(times, now);
  }

  /** The requests admitted less than w before `now`. */
  function Younger(s: seq<Time>, now: Time, w: Time): set<nat> {
    set i: nat | i < |s| && now - s[i] < w
  }

  /** With readings that lag by at most d, what was admitted less than a
      minute less d ago counts, and what counts was admitted less than a minute ago. */
  lemma {:induction false} CountedWithinLag(times: seq<Time>, now: Time, d: Time)
    requires d >= 0.0 && Lagging(times + [now], d)
    ensures var s := AdmitAll(times).admitted;
      Younger(s, now, THROTTLE_WINDOW - d) <= Counted(s, now) <= Younger(s, now, THROTTLE_WINDOW)
  {
    var s := AdmitAll(times).admitted;
    forall j: nat | j < |s| ensures s[j] - d <= now {
      AdmittedAmong(times, j);
      var k :| 0 <= k < |times| && times[k] == s[j];
      assert (times + [now])[k] == s[j] && (times + [now])[|times|] == now;
    }
  }

  lemma {:induction false} AdmittedAmong(times: seq<Time>, j: nat)
    requires j < |AdmitAll(times).admitted|
    ensures exists k :: 0 <= k < |times| && times[k] == AdmitAll(times).admitted[j]
  {
    var n := |times| - 1;
    if j < |AdmitAll(times[..n]).admitted| {
      AdmittedAmong(times[..n], j);
      var k :| 0 <= k < n && times[..n][k] == AdmitAll(times[..n]).admitted[j];
      assert times[k] == AdmitAll(times).admitted[j];
    } else {
      assert times[n] == AdmitAll(times).admitted[j];
    }
  }

  /** If readings come in order, a request is refused exactly if twenty were
      admitted in the minute before it. */
  lemma {:induction false} RefusedInOrder(times: seq<Time>, now: Time)
    requires Lagging(times + [now], 0.0)
    ensures !Admit(AdmitAll(times), now).1
       <==> |Younger(AdmitAll(times).admitted, now, THROTTLE_WINDOW)| >= THROTTLE_N
  {
    CountedWithinLag(times, now, 0.0);
    RefusedExactly(times, now);
    assert Counted(AdmitAll(times).admitted, now) == Younger(AdmitAll(times).admitted, now, THROTTLE_WINDOW);
  }

  lemma {:induction false} SubsetSize(small: set<nat>, large: set<nat>)
    requires small <= large
    ensures |small| <= |large|
  {
    if small != {} {
      var x :| x in small;
      SubsetSize(small - {x}, large - {x});
    }
  }

  /** If no reading lags one let in before it by more than d, any half-open
      window of a minute less d holds at most twenty admitted requests: a full
      minute when readings come in order. */
  lemma {:induction false} ThrottleBound(times: seq<Time>, from: Time, d: Time)
    requires d >= 0.0 && Lagging(times, d)
    ensures |Within(AdmitAll(times).admitted, from, from + THROTTLE_WINDOW - d)| <= THROTTLE_N
  {
    var to := from + THROTTLE_WINDOW - d;
    if times == [] {
      assert Within([], from, to) == {};
    } else {
      var n := |times| - 1;
      var s, x := AdmitAll(times[..n]), times[n];
      ThrottleBound(times[..n], from, d);
      assert times[..n] + [x] == times;
      hide Recent, Within, Lagging, Counted, Younger;
      if Admit(s, x).1 {
        WithinSnoc(s.admitted, x, from, to);
        if from <= x < to {
          CountedWithinLag(times[..n], x, d);
          RefusedExactly(times[..n], x);
          WithinIsYounger(s.admitted, x, from, to, THROTTLE_WINDOW - d);
          SubsetSize(Within(s.admitted, from, to), Counted(s.admitted, x));
        }
      }
    }
  }

  lemma WithinSnoc(s: seq<Time>, x: Time, from: Time, to: Time)
    ensures |Within(s + [x], from, to)| == |Within(s, from, to)| + if from <= x < to then 1 else 0
  {
    if from <= x < to {
      assert Within(s + [x], from, to) == Within(s, from, to) + {|s|};
    } else {
      assert Within(s + [x], from, to) == Within(s, from, to);
    }
  }

  lemma WithinIsYounger(s: seq<Time>, now: Time, from: Time, to: Time, w: Time)
    requires now < to && to - from <= w
    ensures Within(s, from, to) <= Younger(s, now, w)
  {
  }

  // ---- Readings out of order ----

  function Zeros(n: nat): seq<Time> {
    if n == 0 then [] else Zeros(n - 1) + [0.0]
  }

  lemma {:induction false} ZerosAre(n: nat)
    ensures |Zeros(n)| == n && forall i | 0 <= i < n :: Zeros(n)[i] == 0.0
  {
    if n > 0 { ZerosAre(n - 1); }
  }

  lemma {:induction false} RecentZeros(n: nat)
    ensures |Zeros(n)| == n
    ensures Recent(Zeros(n), 0.0, THROTTLE_WINDOW) == Zeros(n) && Recent(Zeros(n), 60.0, THROTTLE_WINDOW) == []
  {
    if n > 0 {
      RecentZeros(n - 1);
      RecentSnoc(Zeros(n - 1), 0.0, 0.0, THROTTLE_WINDOW);
      RecentSnoc(Zeros(n - 1), 0.0, 60.0, THROTTLE_WINDOW);
    }
  }

  /** One more request when what is left of the list is `left`. */
  lemma AdmitSnoc(times: seq<Time>, x: Time, left: seq<Time>)
    requires Recent(AdmitAll(times).hits, x, THROTTLE_WINDOW) == left && |left| < THROTTLE_N
    ensures AdmitAll(times + [x]) == Throttle(AdmitAll(times).admitted + [x], left + [x])
  {
    hide Recent;
    assert (times + [x])[..|times|] == times;
  }

  lemma {:induction false} ZerosAdmitted(n: nat)
    requires n <= THROTTLE_N
    ensures AdmitAll(Zeros(n)) == Throttle(Zeros(n), Zeros(n))
  {
    hide Recent, Admit;
    if n > 0 {
      ZerosAdmitted(n - 1);
      RecentZeros(n - 1);
      AdmitSnoc(Zeros(n - 1), 0.0, Zeros(n - 1));
    }
  }

  lemma LateReadingAdmitted()
    ensures AdmitAll(Zeros(20) + [60.0] + [59.0]).admitted == Zeros(20) + [60.0] + [59.0]
  {
    ZerosAdmitted(20);
    RecentZeros(20);
    assert Recent([60.0], 59.0, THROTTLE_WINDOW) == [60.0];
    hide *;
    var zeros := Zeros(20);
    AdmitSnoc(zeros, 60.0, []);
    assert [] + [60.0] == [60.0];
    AdmitSnoc(zeros + [60.0], 59.0, [60.0]);
  }

  /** The bound is not a minute in general: after twenty requests at 0 and one
      at 60, which prunes them, a request that read 59 before the lock is
      admitted, and the minute from 0 holds twenty-one. */
  lemma {:induction false} LateReadingExceeds()
    ensures Lagging(Zeros(20) + [60.0] + [59.0], 1.0)
    ensures |Within(AdmitAll(Zeros(20) + [60.0] + [59.0]).admitted, 0.0, 60.0)| == 21
  {
    LateReadingAdmitted();
    ZerosAre(20);
    hide *;
    LateWindow(Zeros(20), 20);
  }

  lemma LateWindow(zeros: seq<Time>, n: nat)
    requires |zeros| == n && forall i | 0 <= i < n :: zeros[i] == 0.0
    ensures var s := zeros + [60.0] + [59.0]; Lagging(s, 1.0) && |Within(s, 0.0, 60.0)| == n + 1
  {
    hide Span;
    var s := zeros + [60.0] + [59.0];
    assert Within(s, 0.0, 60.0) == Span(0, n) + {n + 1};
  }

  function Span(low: nat, n: nat): (r: set<nat>)
    ensures |r| == n && forall k :: k in r <==> low <= k < low + n
  {
    if n == 0 then {} else Span(low, n - 1) + {low + n - 1}
  }

  class OpkThrottle {
    var hits: map<(string, string), seq<Time>>
    ghost var admitted: map<(string, string), seq<Time>>

    ghost function View(caller: string, target: string): Throttle
      reads this
    {
      var key := (caller, target);
      Throttle(if key in admitted then admitted[key] else [], if key in hits then hits[key] else [])
    }

    constructor ()
      ensures forall caller, target :: View(caller, target) == AdmitAll([])
    {
      hits, admitted := map[], map[];
    }

    method Check(caller: string, target: string, now: Time) returns (ok: bool)
      modifies this
      ensures (View(caller, target), ok) == Admit(old(View(caller, target)), now)
      ensures forall c, t | (c, t) != (caller, target) :: View(c, t) == old(View(c, t))
    {
      var key := (caller, target);
      var recent := Recent(if key in hits then hits[key] else [], now, THROTTLE_WINDOW);
      if |recent| >= THROTTLE_N { return false; }
      hits := hits[key := recent + [now]];
      admitted := admitted[key := (if key in admitted then admitted[key] else []) + [now]];
      return true;
    }
  }
}
