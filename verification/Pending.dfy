/** Call frames for users who are not connected yet: a list in memory
    (server/ws/signaling.py) or in Redis under a key that expires as a whole
    (server/core/redis_manager.py), handed over when the user connects. */
module Pending {
  import opened Text

  type User = string
  type Time = real

  datatype Frame = Frame(msg: string, ts: Time)

  const MAX_PENDING: nat := 50
  const TTL: Time := 86400.0

  /** The last n of a sequence. */
  function Last<T>(s: seq<T>, n: nat): (r: seq<T>)
    ensures |r| == if |s| <= n then |s| else n
  {
    if |s| <= n then s else s[|s| - n..]
  }

  predicate Stale(f: Frame, now: Time) {
    now - f.ts > TTL
  }

  function Unexpired(fs: seq<Frame>, now: Time): seq<Frame> {
    if fs == [] then []
    else (if Stale(fs[0], now) then [] else [fs[0]]) + Unexpired(fs[1..], now)
  }

  // ---- Queueing ----

  /** The in-memory list drops its oldest frame when full. */
  function Push(list: seq<Frame>, f: Frame): seq<Frame> {
    (if |list| >= MAX_PENDING then list[1..] else list) + [f]
  }

  datatype Key = Key(items: seq<Frame>, deadline: Time)

  /** A key is there up to its deadline, that moment included. */
  function Items(k: Option<Key>, now: Time): seq<Frame> {
    if k.Some? && now <= k.value.deadline then k.value.items else []
  }

  /** `push_pending_call`: push, trim, and renew the expiry of the whole key. */
  function PushKey(k: Option<Key>, f: Frame): Option<Key> {
    Some(Key(Last(Items(k, f.ts) + [f], MAX_PENDING), f.ts + TTL))
  }

  function Queued(log: seq<Frame>): seq<Frame> {
    if log == [] then [] else Push(Queued(log[..|log| - 1]), log[|log| - 1])
  }

  function QueuedKey(log: seq<Frame>): Option<Key> {
    if log == [] then None else PushKey(QueuedKey(log[..|log| - 1]), log[|log| - 1])
  }

  predicate Ordered(log: seq<Frame>) {
    forall i, j | 0 <= i <= j < |log| :: log[i].ts <= log[j].ts
  }

  /** Every frame came before the key of the one before it expired. */
  predicate NoLapse(log: seq<Frame>) {
    forall i | 0 < i < |log| :: log[i].ts <= log[i - 1].ts + TTL
  }

  lemma LastSnoc<T>(s: seq<T>, x: T, n: nat)
    requires n > 0
    ensures Last(s + [x], n) == Last(Last(s, n) + [x], n)
    ensures Last(s + [x], n) == (if |Last(s, n)| >= n then Last(s, n)[1..] else Last(s, n)) + [x]
  {
  }

  /** The list in memory is the last fifty frames queued, in order. */
  lemma {:induction false} MemoryIsLast(log: seq<Frame>)
    ensures Queued(log) == Last(log, MAX_PENDING)
  {
    if log != [] {
      var n := |log| - 1;
      MemoryIsLast(log[..n]);
      LastSnoc(log[..n], log[n], MAX_PENDING);
      assert log[..n] + [log[n]] == log;
    }
  }

  /** So is the Redis list, as long as its key never lapsed. */
  lemma {:induction false} RedisIsLast(log: seq<Frame>)
    requires NoLapse(log) && log != []
    ensures QueuedKey(log) == Some(Key(Last(log, MAX_PENDING), log[|log| - 1].ts + TTL))
  {
    var n := |log| - 1;
    if n > 0 {
      RedisIsLast(log[..n]);
      LastSnoc(log[..n], log[n], MAX_PENDING);
      assert log[..n] + [log[n]] == log;
    } else {
      assert [] + [log[0]] == log;
    }
  }

  // ---- Handing over ----

  lemma {:induction false} UnexpiredSplit(a: seq<Frame>, b: seq<Frame>, now: Time)
    ensures Unexpired(a + b, now) == Unexpired(a, now) + Unexpired(b, now)
  {
    if a == [] {
      assert a + b == b;
    } else {
      assert (a + b)[1..] == a[1..] + b;
      UnexpiredSplit(a[1..], b, now);
    }
  }

  /** Unexpired are the frames queued within the last day, of exactly those times. */
  lemma {:induction false} UnexpiredExactly(fs: seq<Frame>, now: Time, f: Frame)
    ensures f in Unexpired(fs, now) <==> f in fs && now - f.ts <= 24.0 * 60.0 * 60.0
    ensures (forall x <- fs :: now - x.ts <= 24.0 * 60.0 * 60.0) ==> Unexpired(fs, now) == fs
  {
    if fs != [] {
      assert fs == [fs[0]] + fs[1..];
      UnexpiredExactly(fs[1..], now, f);
    }
  }

  lemma {:induction false} AllStale(fs: seq<Frame>, now: Time)
    requires forall f <- fs :: Stale(f, now)
    ensures Unexpired(fs, now) == []
  {
    if fs != [] { AllStale(fs[1..], now); }
  }

  /** Whatever lapsed in between, what a flush at `now` can still hand over
      from the key is what it can from the last fifty frames queued. */
  lemma {:induction false} RedisHandsOverAlike(log: seq<Frame>, now: Time)
    requires Ordered(log) && (log != [] ==> log[|log| - 1].ts <= now)
    ensures Unexpired(Items(QueuedKey(log), now), now) == Unexpired(Last(log, MAX_PENDING), now)
  {
    hide Last, QueuedKey, Unexpired;
    if log == [] {
      NoKey();
      LastOfNone();
    } else {
      var n := |log| - 1;
      var k := KeyIsAnEnd(log);
      if now > log[n].ts + TTL {
        LastIsWithin(log);
        forall f | f in Last(log, MAX_PENDING) ensures Stale(f, now) {
          var i :| 0 <= i < |log| && log[i] == f;
        }
        AllStale(Last(log, MAX_PENDING), now);
        AllStale([], now);
      } else {
        DroppedAreStale(log, k, now);
      }
    }
  }

  lemma LastOfNone()
    ensures Last<Frame>([], MAX_PENDING) == []
  {
  }

  lemma LastIsWithin(log: seq<Frame>)
    ensures forall f <- Last(log, MAX_PENDING) :: f in log
  {
  }

  /** The last fifty frames are the last fifty of an end of the log, behind some from before that end. */
  lemma LastOfEnd(log: seq<Frame>, k: nat)
    requires k <= |log|
    ensures var last, end := Last(log, MAX_PENDING), Last(log[k..], MAX_PENDING);
      && |end| <= |last| && last == last[..|last| - |end|] + end
      && forall f <- last[..|last| - |end|] :: f in log[..k]
  {
    var last, end := Last(log, MAX_PENDING), Last(log[k..], MAX_PENDING);
    forall f | f in last[..|last| - |end|] ensures f in log[..k] {
      var i :| 0 <= i < |last| - |end| && last[i] == f;
      assert f == log[..k][|log| - |last| + i];
    }
  }

  /** What was queued before the key lapsed last is stale from then on. */
  lemma DroppedAreStale(log: seq<Frame>, k: nat, now: Time)
    requires Ordered(log) && k < |log| && (k > 0 ==> log[k].ts > log[k - 1].ts + TTL) && log[|log| - 1].ts <= now
    ensures Unexpired(Last(log[k..], MAX_PENDING), now) == Unexpired(Last(log, MAX_PENDING), now)
  {
    hide Last;
    LastOfEnd(log, k);
    var last, end := Last(log, MAX_PENDING), Last(log[k..], MAX_PENDING);
    var front := last[..|last| - |end|];
    forall f | f in front ensures Stale(f, now) {
      assert f in log[..k];
      var i :| 0 <= i < k && log[i] == f;
      assert log[i].ts <= log[k - 1].ts && log[k].ts <= log[|log| - 1].ts;
    }
    AllStale(front, now);
    UnexpiredSplit(front, end, now);
    assert [] + Unexpired(end, now) == Unexpired(end, now);
  }

  /** The key holds the last fifty of the frames queued since it lapsed last, before log[k]. */
  lemma {:induction false} KeyIsAnEnd(log: seq<Frame>) returns (k: nat)
    requires log != []
    ensures k < |log| && QueuedKey(log) == Some(Key(Last(log[k..], MAX_PENDING), log[|log| - 1].ts + TTL))
    ensures k > 0 ==> log[k].ts > log[k - 1].ts + TTL
  {
    hide QueuedKey, Last;
    var n := |log| - 1;
    assert log[..n] + [log[n]] == log;
    if n > 0 {
      k := KeyIsAnEnd(log[..n]);
      if log[n].ts <= log[n - 1].ts + TTL {
        KeyGrows(log[..n], k, log[n]);
        return;
      }
    } else {
      NoKey();
    }
    k := n;
    KeyStarts(log[..n], log[n]);
  }

  lemma NoKey()
    ensures QueuedKey([]) == None
  {
  }

  lemma QueuedKeySnoc(log: seq<Frame>, f: Frame)
    ensures QueuedKey(log + [f]) == PushKey(QueuedKey(log), f)
  {
    hide PushKey;
    assert (log + [f])[..|log|] == log;
  }

  lemma KeyGrows(log: seq<Frame>, k: nat, f: Frame)
    requires k < |log| && QueuedKey(log) == Some(Key(Last(log[k..], MAX_PENDING), log[|log| - 1].ts + TTL))
    requires f.ts <= log[|log| - 1].ts + TTL
    ensures QueuedKey(log + [f]) == Some(Key(Last((log + [f])[k..], MAX_PENDING), f.ts + TTL))
  {
    hide QueuedKey, Last;
    QueuedKeySnoc(log, f);
    assert (log + [f])[k..] == log[k..] + [f];
    LastSnoc(log[k..], f, MAX_PENDING);
  }

  lemma KeyStarts(log: seq<Frame>, f: Frame)
    requires Items(QueuedKey(log), f.ts) == []
    ensures QueuedKey(log + [f]) == Some(Key(Last((log + [f])[|log|..], MAX_PENDING), f.ts + TTL))
  {
    hide QueuedKey, Last;
    QueuedKeySnoc(log, f);
    assert (log + [f])[|log|..] == [] + [f];
  }

  // ---- The flush ----

  /** What a send of one frame comes to: the socket may be gone by then. */
  datatype Outcome = Sent | Failed | NoSocket

  /** `_flush_pending_messages` over the entries it popped. */
  function Delivered(fs: seq<Frame>, now: Time, outcomes: seq<Outcome>): seq<Frame>
    requires |outcomes| == |fs|
  {
    if fs == [] then []
    else if Stale(fs[0], now) then Delivered(fs[1..], now, outcomes[1..])
    else
      match outcomes[0]
      case Sent => [fs[0]] + Delivered(fs[1..], now, outcomes[1..])
      case Failed => []
      case NoSocket => Delivered(fs[1..], now, outcomes[1..])
  }

  /** The unexpired frames that found a socket, with no regard to failures. */
  function Handed(fs: seq<Frame>, now: Time, outcomes: seq<Outcome>): seq<Frame>
    requires |outcomes| == |fs|
  {
    if fs == [] then []
    else (if !Stale(fs[0], now) && outcomes[0] == Sent then [fs[0]] else []) + Handed(fs[1..], now, outcomes[1..])
  }

  /** A flush delivers, in order, the unexpired frames before the first failed
      send of one, but those that found the socket gone. */
  lemma {:induction false} FlushExactly(fs: seq<Frame>, now: Time, outcomes: seq<Outcome>, k: nat)
    requires |outcomes| == |fs| && k <= |fs|
    requires forall i | 0 <= i < k :: outcomes[i] == Failed ==> Stale(fs[i], now)
    requires k < |fs| ==> outcomes[k] == Failed && !Stale(fs[k], now)
    ensures Delivered(fs, now, outcomes) == Handed(fs[..k], now, outcomes[..k])
    ensures (forall i | 0 <= i < k :: outcomes[i] == Sent) ==> Delivered(fs, now, outcomes) == Unexpired(fs[..k], now)
  {
    if fs != [] && k > 0 {
      FlushExactly(fs[1..], now, outcomes[1..], k - 1);
      assert fs[..k][1..] == fs[1..][..k - 1] && outcomes[..k][1..] == outcomes[1..][..k - 1];
    }
  }

  /** From queueing to delivery: if every send succeeds, a user connecting at
      `now` is given a frame, from Redis or from memory, exactly if it is among
      the last fifty queued and not older than a day. */
  lemma {:induction false} QueuedIsDelivered(log: seq<Frame>, now: Time, outcomes: seq<Outcome>, f: Frame)
    requires Ordered(log) && (log != [] ==> log[|log| - 1].ts <= now)
    requires |outcomes| == |Items(QueuedKey(log), now)|
    requires forall i | 0 <= i < |outcomes| :: outcomes[i] == Sent
    ensures f in Delivered(Items(QueuedKey(log), now), now, outcomes)
       <==> exists k | 0 <= k < |log| :: log[k] == f && |log| - k <= 50 && now - f.ts <= 24.0 * 60.0 * 60.0
    ensures f in Unexpired(Queued(log), now) <==> f in Delivered(Items(QueuedKey(log), now), now, outcomes)
  {
    var items := Items(QueuedKey(log), now);
    hide QueuedKey, Queued, Items, Last, Unexpired, Delivered, Handed;
    FlushExactly(items, now, outcomes, |items|);
    assert items[..|items|] == items;
    RedisHandsOverAlike(log, now);
    MemoryIsLast(log);
    UnexpiredExactly(Last(log, MAX_PENDING), now, f);
    LastAt(log, f);
  }

  lemma LastAt(log: seq<Frame>, f: Frame)
    ensures f in Last(log, MAX_PENDING) <==> exists k | 0 <= k < |log| :: log[k] == f && |log| - k <= 50
  {
    var last := Last(log, MAX_PENDING);
    if f in last {
      var i :| 0 <= i < |last| && last[i] == f;
      assert log[i + |log| - |last|] == f;
    }
    if k :| 0 <= k < |log| && log[k] == f && |log| - k <= 50 {
      assert last[k - (|log| - |last|)] == f;
    }
  }

  class PendingBuffers {
    var memory: map<User, seq<Frame>>
    var keys: map<User, Key>

    constructor ()
      ensures memory == map[] && keys == map[]
    {
      memory, keys := map[], map[];
    }

    ghost function List(u: User): seq<Frame>
      reads this
    {
      if u in memory then memory[u] else []
    }

    ghost function KeyOf(u: User): Option<Key>
      reads this
    {
      if u in keys then Some(keys[u]) else None
    }

    /** `_send_to_user` for a user without a socket; `up` is that Redis answers. */
    method Buffer(u: User, msg: string, now: Time, up: bool)
      modifies this
      ensures up ==> KeyOf(u) == PushKey(old(KeyOf(u)), Frame(msg, now)) && memory == old(memory)
      ensures !up ==> List(u) == Push(old(List(u)), Frame(msg, now)) && keys == old(keys)
      ensures forall v | v != u :: List(v) == old(List(v)) && KeyOf(v) == old(KeyOf(v))
    {
      if up {
        var items := if u in keys && now <= keys[u].deadline then keys[u].items else [];
        keys := keys[u := Key(Last(items + [Frame(msg, now)], MAX_PENDING), now + TTL)];
        return;
      }
      if u !in memory { memory := memory[u := []]; }
      if |memory[u]| >= MAX_PENDING { memory := memory[u := memory[u][1..]]; }
      memory := memory[u := memory[u] + [Frame(msg, now)]];
    }

    /** The loop of a flush over the frames it popped. */
    method SendAll(entries: seq<Frame>, now: Time, outcomes: seq<Outcome>) returns (delivered: seq<Frame>)
      requires |outcomes| == |entries|
      ensures delivered == Delivered(entries, now, outcomes)
    {
      delivered := [];
      var i := 0;
      assert entries[0..] == entries && outcomes[0..] == outcomes;
      while i < |entries|
        invariant 0 <= i <= |entries| == |outcomes|
        invariant delivered + Delivered(entries[i..], now, outcomes[i..]) == Delivered(entries, now, outcomes)
      {
        assert entries[i..][1..] == entries[i + 1..] && outcomes[i..][1..] == outcomes[i + 1..];
        assert entries[i..][0] == entries[i] && outcomes[i..][0] == outcomes[i];
        if !Stale(entries[i], now) {
          if outcomes[i] == Failed {
            assert delivered + [] == delivered;
            return;
          }
          if outcomes[i] == Sent { delivered := delivered + [entries[i]]; }
        }
        i := i + 1;
      }
      assert delivered + [] == delivered;
    }

    /** `_flush_pending_messages`: the Redis frames first, then those in memory. */
    method Flush(u: User, now: Time, up: bool, outcomes: seq<Outcome>) returns (delivered: seq<Frame>)
      requires |outcomes| == |if up then Items(KeyOf(u), now) else []| + |List(u)|
      modifies this
      ensures delivered == Delivered((if up then Items(old(KeyOf(u)), now) else []) + old(List(u)), now, outcomes)
      ensures List(u) == [] && (up ==> Items(KeyOf(u), now) == []) && (!up ==> KeyOf(u) == old(KeyOf(u)))
      ensures forall v | v != u :: List(v) == old(List(v)) && KeyOf(v) == old(KeyOf(v))
    {
      var entries := [];
      if up && u in keys && now <= keys[u].deadline {
        entries := keys[u].items;
        keys := keys - {u};
      }
      if u in memory {
        entries := entries + memory[u];
        memory := memory - {u};
      }
      assert entries == (if up then Items(old(KeyOf(u)), now) else []) + old(List(u));
      delivered := SendAll(entries, now, outcomes);
    }
  }
}
