/** Two sessions talking: both ends, the messages in flight in each direction
    (first in, first out, any of them may be lost), and every interleaving of
    sends, deliveries, losses, and saves followed by restores. */
module Conversation {
  import opened Text
  import opened Crypto
  import opened Ratchet
  import opened RatchetRuns
  import opened Headers
  import opened SkippedKeys

  datatype Party = Alice | Bob {
    function Other(): Party { if Alice? then Bob else Alice }
  }

  datatype Pair<+T> = Pair(alice: T, bob: T) {
    function Get(p: Party): T { if p.Alice? then alice else bob }
  }

  function Set<T>(pair: Pair<T>, p: Party, x: T): Pair<T> {
    if p.Alice? then pair.(alice := x) else pair.(bob := x)
  }

  /** A message in flight; `epoch` is the place of its header key in the history of keys. */
  datatype Parcel = Parcel(epoch: nat, env: Envelope, text: string)

  /** A delivery that happened: the text that was sent, how far the number was ahead of the
      receiving chain, and what the decryption returned. */
  datatype Delivery = Delivery(to: Party, text: string, gap: int, result: Result<string>)

  /** `keys` is the history of ratchet keys in the order they came up: Bob's
      signed prekey, Alice's ephemeral key, then alternately one of each. */
  datatype History = History(sk: Key, ad: string, keys: seq<string>)

  datatype World = World(hist: History, ends: Pair<Session>, inbox: Pair<seq<Parcel>>, log: seq<Delivery>)

  datatype Step =
    | Send(from: Party, text: string, gen: string)
    | Deliver(to: Party, gen: string)
    | Drop(to: Party)
    | Reload(who: Party)

  function IndexOf(keys: seq<string>, k: string): (i: nat)
    ensures i <= |keys| && (i < |keys| ==> keys[i] == k)
  {
    if keys == [] || keys[0] == k then 0 else 1 + IndexOf(keys[1..], k)
  }

  /** The history grows when an end takes up a key it did not have. */
  function Noted(h: History, before: Session, after: Session): History {
    if after.dhs != before.dhs && after.dhs.Some? then h.(keys := h.keys + [after.dhs.value]) else h
  }

  function Gap(s: Session, h: Header): int {
    h.ns - if s.dhr == Some(h.dh) && s.ckr.Some? then s.ckr.value.step else 0
  }

  function Next(w: World, step: Step): World {
    match step
    case Send(p, text, gen) =>
      var s := w.ends.Get(p);
      var (s', r) := s.Encrypt(text, gen);
      var hist := Noted(w.hist, s, s');
      w.(hist := hist, ends := Set(w.ends, p, s'),
         inbox := match r {
           case Err(_) => w.inbox
           case Ok(env) =>
             Set(w.inbox, p.Other(), w.inbox.Get(p.Other()) + [Parcel(IndexOf(hist.keys, env.header.dh), env, text)])
         })
    case Deliver(p, gen) =>
      if w.inbox.Get(p) == [] then w
      else
        var s, parcel := w.ends.Get(p), w.inbox.Get(p)[0];
        var (s', r) := s.Decrypt(parcel.env, gen);
        w.(hist := Noted(w.hist, s, s'), ends := Set(w.ends, p, s'),
           inbox := Set(w.inbox, p, w.inbox.Get(p)[1..]),
           log := w.log + [Delivery(p, parcel.text, Gap(s, parcel.env.header), r)])
    case Drop(p) =>
      if w.inbox.Get(p) == [] then w else w.(inbox := Set(w.inbox, p, w.inbox.Get(p)[1..]))
    case Reload(p) =>
      match Deserialize(w.ends.Get(p).Serialize()) {
        case Ok(s) => w.(ends := Set(w.ends, p, s))
        case Err(_) => w
      }
  }

  /** What the agreement needs of a step: generated keys are new, and no send
      is due for the forced rotation. */
  predicate Allowed(w: World, step: Step) {
    && (step.Send? || step.Deliver? ==> IsKeyText(step.gen) && step.gen !in w.hist.keys)
    && (step.Send? ==> !w.ends.Get(step.from).ForcesRotation())
  }

  function Run(w: World, steps: seq<Step>): World
    decreases |steps|
  {
    if steps == [] then w else Run(Next(w, steps[0]), steps[1..])
  }

  predicate AllAllowed(w: World, steps: seq<Step>)
    decreases |steps|
  {
    steps == [] || (Allowed(w, steps[0]) && AllAllowed(Next(w, steps[0]), steps[1..]))
  }

  /** Both ends right after X3DH, each using the same one-time key or none. */
  function Begin(aIk: string, bIk: string, spk: string, opk: Option<string>, eph: string): World {
    var alice := StartAsAlice(X3dhInitiate(aIk, bIk, spk, opk, eph), aIk, bIk, spk, eph);
    var bob := StartAsBob(X3dhReceive(bIk, spk, opk, aIk, eph), bIk, spk, aIk, eph);
    World(History(X3dhInitiate(aIk, bIk, spk, opk, eph), alice.Ad(), [spk, eph]), Pair(alice, bob), Pair([], []), [])
  }

  // ---- The one history of roots and chains ----

  /** The root after epoch e; epoch 1 is Alice's first chain, then Bob's and hers alternate. */
  function Root(h: History, e: nat): Key
    requires 1 <= e < |h.keys|
  {
    if e == 1 then InitRoot(h.sk) else StepRoot(Root(h, e - 1), Dh(h.keys[e - 1], h.keys[e]))
  }

  function ChainStart(h: History, e: nat): Key
    requires 1 <= e < |h.keys|
  {
    if e == 1 then InitChain(h.sk) else StepChain(Root(h, e - 1), Dh(h.keys[e - 1], h.keys[e]))
  }

  lemma {:induction false} RootKeepsUnderAppend(h: History, k: string, e: nat)
    requires 1 <= e < |h.keys|
    ensures Root(h.(keys := h.keys + [k]), e) == Root(h, e)
    ensures ChainStart(h.(keys := h.keys + [k]), e) == ChainStart(h, e)
  {
    if e > 1 { RootKeepsUnderAppend(h, k, e - 1); }
  }

  lemma {:induction false} RootDepth(h: History, e: nat)
    requires 1 <= e < |h.keys|
    ensures Depth(Root(h, e)) == e - 1
  {
    if e > 1 { RootDepth(h, e - 1); }
  }

  function Sender(e: nat): Party { if e % 2 == 1 then Alice else Bob }

  // ---- Where an end stands ----

  predicate OnChain(c: Option<Chain>, hist: History, e: nat)
    requires 1 <= e < |hist.keys|
  {
    c.Some? && c.value == ChainAt(ChainStart(hist, e), c.value.step, hist.ad)
  }

  /** The end that last started a chain, epoch e, and has received nothing newer. */
  predicate Sending(s: Session, hist: History, e: nat)
    requires 1 <= e < |hist.keys|
  {
    && Ready(s) && s.Ad() == hist.ad && !s.pendingSend
    && s.rk == Some(Root(hist, e)) && s.dhs == Some(hist.keys[e]) && s.dhr == Some(hist.keys[e - 1])
    && OnChain(s.cks, hist, e)
    && (if e == 1 then s.ckr.None? else OnChain(s.ckr, hist, e - 1))
  }

  /** The end that has taken up the other's epoch e and not answered yet. */
  predicate Receiving(s: Session, hist: History, e: nat)
    requires 1 <= e < |hist.keys| && (e > 1 ==> e + 1 < |hist.keys|)
  {
    && Ready(s) && s.Ad() == hist.ad
    && s.rk == Some(Root(hist, e)) && s.dhr == Some(hist.keys[e])
    && OnChain(s.ckr, hist, e)
    && (if e == 1 then s.dhs == Some(hist.keys[0]) && !s.pendingSend && s.cks.None?
        else s.dhs == Some(hist.keys[e + 1]) && s.pendingSend)
  }

  function StepOf(c: Option<Chain>): nat { if c.Some? then c.value.step else 0 }

  /** Numbers already behind an end whose receiving chain is epoch r at `step`. */
  predicate Behind(dh: string, n: int, keys: seq<string>, r: nat, step: nat)
    requires r < |keys|
  {
    r >= 1 && (dh in keys[1..r] || (dh == keys[r] && n < step))
  }

  /** The replay memory and the cache only know numbers that are behind. */
  ghost predicate MemoryBehind(s: Session, keys: seq<string>, r: nat)
    requires r < |keys|
  {
    && (forall id | id in s.seen :: Behind(id.dh, id.ns, keys, r, StepOf(s.ckr)))
    && (forall dh, n {:trigger ShowId(dh, n)} ::
          Find(s.skipped, ShowId(dh, n)).Some? ==> Behind(dh, n, keys, r, StepOf(s.ckr)))
  }

  /** A parcel carries its text sealed for its own place in the history. */
  predicate Honest(p: Parcel, hist: History) {
    var h := p.env.header;
    && 1 <= p.epoch < |hist.keys| && h.dh == hist.keys[p.epoch] && h.ns >= 0
    && p.env.box == Sealed(ChainAt(ChainStart(hist, p.epoch), h.ns, hist.ad).MessageKeyHere(hist.ad), hist.ad + p.text)
  }

  predicate Precedes(a: Parcel, epoch: nat, ns: int) {
    a.epoch < epoch || (a.epoch == epoch && a.env.header.ns < ns)
  }

  /** An inbox whose owner reads epoch r at `step`, filled by an end that has sent up to (epoch, ns). */
  predicate InboxOk(q: seq<Parcel>, hist: History, r: nat, step: nat, next: bool, epoch: nat, ns: int) {
    && (forall p | p in q ::
          && Honest(p, hist) && Precedes(p, epoch, ns)
          && ((p.epoch == r && p.env.header.ns >= step) || (next && p.epoch == r + 2)))
    && (forall i, j | 0 <= i < j < |q| :: Precedes(q[i], q[j].epoch, q[j].env.header.ns))
  }

  ghost predicate KeysOk(keys: seq<string>) {
    && (forall i | 0 <= i < |keys| :: IsKeyText(keys[i]))
    && (forall i, j | 0 <= i < j < |keys| :: keys[i] != keys[j])
  }

  /** Both ends share one history. The newest epoch is e, started by `x`; the
      other end `y` has either taken it up (`synced`) or is one epoch behind. */
  ghost predicate Together(hist: History, x: Session, y: Session, toX: seq<Parcel>, toY: seq<Parcel>, e: nat,
        synced: bool)
  {
    && 1 <= e && (!synced ==> e >= 2)
    && |hist.keys| == (if synced && e >= 2 then e + 2 else e + 1)
    && KeysOk(hist.keys)
    && Sending(x, hist, e) && (if synced then Receiving(y, hist, e) else Sending(y, hist, e - 1))
    && StepOf(x.ckr) <= y.ns && (synced ==> StepOf(y.ckr) <= x.ns)
    && MemoryBehind(x, hist.keys, e - 1) && MemoryBehind(y, hist.keys, if synced then e else e - 2)
    && InboxOk(toX, hist, e - 1, StepOf(x.ckr), false, e - 1, y.ns)
    && InboxOk(toY, hist, if synced then e else e - 2, StepOf(y.ckr), !synced, e, x.ns)
  }

  ghost predicate InStep(w: World, e: nat, synced: bool) {
    var x := Sender(e);
    Together(w.hist, w.ends.Get(x), w.ends.Get(x.Other()), w.inbox.Get(x), w.inbox.Get(x.Other()), e, synced)
  }

  /** What the agreement says of a delivery. */
  predicate AsSent(d: Delivery) {
    d.result == if d.gap <= MAX_SKIP_GAP then Ok(d.text) else Err(GapTooLarge)
  }

  predicate AllAsSent(log: seq<Delivery>) {
    forall d | d in log :: AsSent(d)
  }

  lemma BeginInStep(aIk: string, bIk: string, spk: string, opk: Option<string>, eph: string)
    requires IsKeyText(spk) && IsKeyText(eph) && spk != eph
    ensures InStep(Begin(aIk, bIk, spk, opk, eph), 1, true)
  {
    X3dhAgrees(aIk, bIk, spk, opk, opk, eph);
    AssociatedDataAgrees(Some(aIk), Some(bIk));
  }

  // ---- Growing the history ----

  lemma KeysGrow(hist: History, hist': History, k: string)
    requires hist'.keys == hist.keys + [k] && hist'.sk == hist.sk && hist'.ad == hist.ad
    ensures forall e {:trigger Root(hist', e)} | 1 <= e < |hist.keys| ::
      Root(hist', e) == Root(hist, e)
    ensures forall e {:trigger ChainStart(hist', e)} | 1 <= e < |hist.keys| ::
      ChainStart(hist', e) == ChainStart(hist, e)
  {
    forall e | 1 <= e < |hist.keys|
      ensures Root(hist', e) == Root(hist, e)
           && ChainStart(hist', e) == ChainStart(hist, e)
    {
      RootKeepsUnderAppend(hist, k, e);
    }
  }

  /** Everything said of epochs already in the history stays true when it grows. */
  lemma GrowthKeeps(hist: History, hist': History, k: string, s: Session, e: nat, q: seq<Parcel>, r: nat, step: nat,
        next: bool, epoch: nat, ns: int)
    requires hist'.keys == hist.keys + [k] && hist'.sk == hist.sk && hist'.ad == hist.ad
    ensures 1 <= e < |hist.keys| && Sending(s, hist, e) ==> Sending(s, hist', e)
    ensures InboxOk(q, hist, r, step, next, epoch, ns) ==> InboxOk(q, hist', r, step, next, epoch, ns)
    ensures r < |hist.keys| && MemoryBehind(s, hist.keys, r) ==> MemoryBehind(s, hist'.keys, r)
  {
    KeysGrow(hist, hist', k);
    if r < |hist.keys| {
      assert hist'.keys[1..][..] == hist'.keys[1..];
      assert r >= 1 ==> hist'.keys[1..r] == hist.keys[1..r];
    }
  }

  lemma {:induction false} IndexOfFinds(keys: seq<string>, i: nat)
    requires i < |keys|
    requires forall a, b | 0 <= a < b < |keys| :: keys[a] != keys[b]
    ensures IndexOf(keys, keys[i]) == i
  {
    if i > 0 {
      assert keys[0] != keys[i] && keys[1..][i - 1] == keys[i];
      IndexOfFinds(keys[1..], i - 1);
    }
  }

  // ---- Sending ----

  lemma EncryptIs(s: Session, text: string, gen: string)
    requires Ready(s)
    ensures s.Encrypt(text, gen) == (if StartsChain(s) then s.RatchetSend(gen).value else s).Seal(text)
  {
  }

  lemma SendOnChain(s: Session, hist: History, e: nat, text: string, gen: string)
    requires 1 <= e < |hist.keys| && Sending(s, hist, e) && !s.RotationDue()
    ensures var (s', r) := s.Encrypt(text, gen);
      && r.Ok? && r.value.header == Header(hist.keys[e], s.pn, s.ns)
      && Honest(Parcel(e, r.value, text), hist)
      && Sending(s', hist, e) && s'.ns == s.ns + 1
      && s'.ckr == s.ckr && s'.seen == s.seen && s'.skipped == s.skipped
  {
    EncryptIs(s, text, gen);
  }

  lemma SendAnswer(s: Session, hist: History, hist': History, e: nat, text: string, gen: string)
    requires 1 <= e < |hist.keys| && (e > 1 ==> e + 1 < |hist.keys|) && Receiving(s, hist, e)
    requires hist'.sk == hist.sk && hist'.ad == hist.ad && hist'.keys == if e == 1 then hist.keys + [gen] else hist.keys
    requires e == 1 ==> |hist.keys| == 2 && gen !in hist.keys
    ensures var (s', r) := s.Encrypt(text, gen);
      && r.Ok? && r.value.header == Header(hist'.keys[e + 1], s.ns, 0)
      && Honest(Parcel(e + 1, r.value, text), hist')
      && Sending(s', hist', e + 1) && s'.ns == 1
      && s'.ckr == s.ckr && s'.seen == s.seen && s'.skipped == s.skipped
      && Noted(hist, s, s') == hist'
  {
    EncryptIs(s, text, gen);
    EncryptHeader(s, text, gen);
    if e == 1 { KeysGrow(hist, hist', gen); }
    DhAgrees(hist'.keys[e + 1], hist'.keys[e]);
    assert Root(hist', e) == Root(hist, e);
    var start := ChainStart(hist', e + 1);
    assert s.RatchetSend(gen).value.cks == Some(Chain(start, 0));
    assert ChainKey(start, 0, hist.ad) == start;
    assert ChainAt(start, 1, hist.ad) == Chain(start, 0).Advance(hist.ad);
  }

  lemma InboxAppend(q: seq<Parcel>, hist: History, r: nat, step: nat, next: bool, epoch: nat, ns: int, p: Parcel)
    requires InboxOk(q, hist, r, step, next, epoch, ns)
    requires Honest(p, hist) && ((p.epoch == r && p.env.header.ns >= step) || (next && p.epoch == r + 2))
    requires epoch < p.epoch || (epoch == p.epoch && ns <= p.env.header.ns)
    ensures InboxOk(q + [p], hist, r, step, next, p.epoch, p.env.header.ns + 1)
  {
  }

  // ---- Receiving ----

  lemma {:induction false} SkipToIds(chain: Chain, cache: seq<Skipped>, dh: string, ns: int, ad: string, x: Skipped)
    requires x in SkipTo(chain, cache, dh, ns, ad).1
    ensures x in cache || exists n :: chain.step <= n < ns && x.id == ShowId(dh, n)
    decreases ns - chain.step
  {
    if chain.step < ns {
      var next := StoreSkipped(chain, cache, dh, ad);
      SkipToIds(chain.Advance(ad), next, dh, ns, ad, x);
      if x in next && x !in cache {
        assert x.id == ShowId(dh, chain.step);
      }
    }
  }

  /** The number of a parcel that is still to come is not behind, hence neither seen nor cached. */
  lemma ToComeIsUnknown(s: Session, hist: History, r: nat, p: Parcel)
    requires r < |hist.keys| && KeysOk(hist.keys) && MemoryBehind(s, hist.keys, r)
    requires 1 <= p.epoch < |hist.keys| && p.env.header.dh == hist.keys[p.epoch]
    requires (p.epoch == r && p.env.header.ns >= StepOf(s.ckr)) || p.epoch > r
    ensures MsgId(p.env.header.dh, p.env.header.ns) !in s.seen
    ensures Find(s.skipped, ShowId(p.env.header.dh, p.env.header.ns)).None?
  {
    var h := p.env.header;
    assert !Behind(h.dh, h.ns, hist.keys, r, StepOf(s.ckr));
  }

  /** Taking a number keeps the memory behind the new step. */
  lemma ReceiveKeepsMemory(s: Session, s': Session, keys: seq<string>, r: nat, ns: nat, ad: string)
    requires 1 <= r < |keys| && MemoryBehind(s, keys, r)
    requires s.ckr.Some? && s'.ckr.Some? && s.ckr.value.step <= ns && s'.ckr.value.step == ns + 1
    requires s'.seen <= s.seen + {MsgId(keys[r], ns)}
    requires s'.skipped == SkipTo(s.ckr.value, s.skipped, keys[r], ns, ad).1
    ensures MemoryBehind(s', keys, r)
  {
    forall dh, n {:trigger ShowId(dh, n)} | Find(s'.skipped, ShowId(dh, n)).Some?
      ensures Behind(dh, n, keys, r, ns + 1)
    {
      var x := Skipped(ShowId(dh, n), Find(s'.skipped, ShowId(dh, n)).value);
      SkipToIds(s.ckr.value, s.skipped, keys[r], ns, ad, x);
      if x in s.skipped {
        assert Find(s.skipped, ShowId(dh, n)).Some?;
      } else {
        var m :| s.ckr.value.step <= m < ns && x.id == ShowId(keys[r], m);
        ShowIdIsInjective(dh, n, keys[r], m);
      }
    }
  }

  /** What taking a parcel does to the end: nothing if it is too far ahead. */
  predicate Takes(s: Session, s': Session, res: Result<string>, hist: History, r: nat, p: Parcel)
    requires 1 <= r < |hist.keys| && s.ckr.Some?
  {
    var h := p.env.header;
    if h.ns - s.ckr.value.step > MAX_SKIP_GAP then res == Err(GapTooLarge) && s' == s
    else
      && res == Ok(p.text)
      && h.ns >= 0
      && s' == s.(ckr := Some(ChainAt(ChainStart(hist, r), h.ns + 1, hist.ad)), seen := s'.seen, skipped := s'.skipped)
      && s'.seen <= s.seen + {MsgId(h.dh, h.ns)}
      && s'.skipped == SkipTo(s.ckr.value, s.skipped, h.dh, h.ns, hist.ad).1
  }

  lemma ReceiveHonest(s: Session, hist: History, r: nat, p: Parcel)
    requires 1 <= r < |hist.keys| && KeysOk(hist.keys) && s.Ad() == hist.ad && OnChain(s.ckr, hist, r)
    requires Honest(p, hist) && p.epoch == r && p.env.header.ns >= s.ckr.value.step
    requires MsgId(p.env.header.dh, p.env.header.ns) !in s.seen
    ensures var (s', res) := s.ReceiveOnChain(p.env); Takes(s, s', res, hist, r, p)
  {
    hide KeysOk, Root;
    var h, start := p.env.header, ChainStart(hist, r);
    if h.ns - s.ckr.value.step <= MAX_SKIP_GAP {
      SkipToFollowsChain(start, s.ckr.value.step, s.skipped, h.dh, h.ns, hist.ad);
      SkipToWalks(s.ckr.value, s.skipped, h.dh, h.ns, hist.ad);
      ReceiveExactly(s, p.env, p.text);
      assert ChainAt(start, h.ns, hist.ad).Advance(hist.ad) == ChainAt(start, h.ns + 1, hist.ad);
      hide SkipTo, Walk, Open;
    }
  }

  /** Taking a parcel from the chain it belongs to. */
  lemma ReceiveParcel(s: Session, s': Session, res: Result<string>, hist: History, r: nat, p: Parcel)
    requires 1 <= r < |hist.keys| && OnChain(s.ckr, hist, r) && MemoryBehind(s, hist.keys, r)
    requires p.env.header.dh == hist.keys[r] && p.env.header.ns >= s.ckr.value.step
    requires Takes(s, s', res, hist, r, p)
    ensures AsSent(Delivery(Alice, p.text, p.env.header.ns - s.ckr.value.step, res))
    ensures s' == s.(ckr := s'.ckr, seen := s'.seen, skipped := s'.skipped)
    ensures OnChain(s'.ckr, hist, r) && MemoryBehind(s', hist.keys, r)
    ensures s'.ckr.value.step <= p.env.header.ns + 1
  {
    if p.env.header.ns - s.ckr.value.step <= MAX_SKIP_GAP {
      ReceiveKeepsMemory(s, s', hist.keys, r, p.env.header.ns, hist.ad);
    }
  }

  /** A delivery on the chain the end is already reading. */
  lemma DeliverOnChain(s: Session, hist: History, r: nat, p: Parcel, gen: string)
    requires 1 <= r < |hist.keys| && KeysOk(hist.keys) && s.Ad() == hist.ad && OnChain(s.ckr, hist, r)
    requires Ready(s) && s.dhr == Some(hist.keys[r]) && MemoryBehind(s, hist.keys, r)
    requires Honest(p, hist) && p.epoch == r && p.env.header.ns >= s.ckr.value.step
    ensures var (s', res) := s.Decrypt(p.env, gen);
      && AsSent(Delivery(Alice, p.text, Gap(s, p.env.header), res))
      && s' == s.(ckr := s'.ckr, seen := s'.seen, skipped := s'.skipped)
      && OnChain(s'.ckr, hist, r) && MemoryBehind(s', hist.keys, r)
      && s'.ckr.value.step <= p.env.header.ns + 1
  {
    ToComeIsUnknown(s, hist, r, p);
    ParseKeyReadsKeyText(hist.keys[r]);
    assert s.Decrypt(p.env, gen) == s.ReceiveOnChain(p.env);
    ReceiveHonest(s, hist, r, p);
    var (s', res) := s.ReceiveOnChain(p.env);
    ReceiveParcel(s, s', res, hist, r, p);
  }

  /** The ratchet step an end in epoch e - 1 takes on meeting the key of epoch e. */
  lemma RatchetIntoEpoch(s: Session, hist: History, hist': History, e: nat, pn: int, gen: string) returns (t: Session)
    requires 2 <= e && |hist.keys| == e + 1 && KeysOk(hist.keys)
    requires hist'.keys == hist.keys + [gen] && hist'.sk == hist.sk && hist'.ad == hist.ad
    requires Sending(s, hist, e - 1) && MemoryBehind(s, hist.keys, e - 2)
    ensures s.(pn := pn).RatchetReceive(hist.keys[e], gen) == Ok(t)
    ensures Receiving(t, hist', e) && t.ckr.value.step == 0 && MemoryBehind(t, hist'.keys, e)
    ensures t.dhs == Some(gen) && t.ns == s.ns && t.seen == s.seen && t.skipped == s.skipped
  {
    KeysGrow(hist, hist', gen);
    t := s.(pn := pn).RatchetReceive(hist.keys[e], gen).value;
    var start := ChainStart(hist, e);
    assert t.rk == Some(Root(hist, e)) && t.ckr == Some(Chain(start, 0));
    assert ChainKey(start, 0, hist.ad) == start;
    forall dh, n | Behind(dh, n, hist.keys, e - 2, StepOf(s.ckr)) ensures Behind(dh, n, hist'.keys, e, 0) {
      OldStaysBehind(dh, n, hist.keys, hist'.keys, e, StepOf(s.ckr));
    }
  }

  /** A delivery of the first message of epoch e that reaches the end still in epoch e - 1. */
  lemma DeliverNewChain(s: Session, hist: History, hist': History, e: nat, p: Parcel, gen: string)
    requires 2 <= e && |hist.keys| == e + 1 && KeysOk(hist.keys) && KeysOk(hist'.keys)
    requires hist'.keys == hist.keys + [gen] && hist'.sk == hist.sk && hist'.ad == hist.ad
    requires Sending(s, hist, e - 1) && MemoryBehind(s, hist.keys, e - 2)
    requires Honest(p, hist) && p.epoch == e
    ensures var (s', res) := s.Decrypt(p.env, gen);
      && AsSent(Delivery(Alice, p.text, Gap(s, p.env.header), res))
      && Receiving(s', hist', e) && MemoryBehind(s', hist'.keys, e) && s'.ns == s.ns
      && s'.ckr.value.step <= p.env.header.ns + 1
      && Noted(hist, s, s') == hist'
  {
    var t := RatchetIntoEpoch(s, hist, hist', e, p.env.header.pn, gen);
    MeetsNewKey(s, hist, e, p);
    DecryptRatchets(s, p.env, gen, t);
    assert Honest(p, hist') by { KeysGrow(hist, hist', gen); }
    assert hist'.keys[e - 1] != hist'.keys[e + 1];
    TakeInEpoch(t, hist', e, p);
  }

  lemma MeetsNewKey(s: Session, hist: History, e: nat, p: Parcel)
    requires 2 <= e && |hist.keys| == e + 1 && KeysOk(hist.keys)
    requires Sending(s, hist, e - 1) && MemoryBehind(s, hist.keys, e - 2)
    requires Honest(p, hist) && p.epoch == e
    ensures s.dhr != Some(hist.keys[e]) && ParseKey(p.env.header.dh) == Some(hist.keys[e])
    ensures Find(s.skipped, ShowId(p.env.header.dh, p.env.header.ns)).None?
    ensures MsgId(p.env.header.dh, p.env.header.ns) !in s.seen
  {
    hide MemoryBehind, OnChain, Root, ChainStart, Behind;
    ToComeIsUnknown(s, hist, e - 2, p);
    ParseKeyReadsKeyText(hist.keys[e]);
    assert hist.keys[e - 2] != hist.keys[e];
  }

  lemma DecryptRatchets(s: Session, env: Envelope, gen: string, t: Session)
    requires Find(s.skipped, ShowId(env.header.dh, env.header.ns)).None?
    requires ParseKey(env.header.dh).Some? && s.dhr != ParseKey(env.header.dh)
    requires s.(pn := env.header.pn).RatchetReceive(ParseKey(env.header.dh).value, gen) == Ok(t)
    ensures s.Decrypt(env, gen) == t.ReceiveOnChain(env)
  {
  }

  lemma TakeInEpoch(t: Session, hist: History, e: nat, p: Parcel)
    requires 2 <= e && e + 1 < |hist.keys| && KeysOk(hist.keys) && Receiving(t, hist, e) && t.ckr.value.step == 0
    requires MemoryBehind(t, hist.keys, e) && MsgId(p.env.header.dh, p.env.header.ns) !in t.seen
    requires Honest(p, hist) && p.epoch == e
    ensures var (s', res) := t.ReceiveOnChain(p.env);
      && AsSent(Delivery(Alice, p.text, p.env.header.ns, res))
      && Receiving(s', hist, e) && MemoryBehind(s', hist.keys, e) && s'.ns == t.ns && s'.dhs == t.dhs
      && s'.ckr.value.step <= p.env.header.ns + 1
  {
    ReceiveHonest(t, hist, e, p);
    var (s', res) := t.ReceiveOnChain(p.env);
    ReceiveParcel(t, s', res, hist, e, p);
    assert s'.Ad() == t.Ad();
  }

  lemma OldStaysBehind(dh: string, n: int, keys: seq<string>, keys': seq<string>, e: nat, step: nat)
    requires 2 <= e < |keys| && keys <= keys' && Behind(dh, n, keys, e - 2, step)
    ensures dh in keys'[1..e]
  {
    if dh in keys[1..e - 2] {
      var i :| 0 <= i < e - 3 && keys[1..e - 2][i] == dh;
      assert keys'[1..e][i] == dh;
    } else {
      assert keys'[1..e][e - 3] == dh;
    }
  }

  // ---- The inboxes ----

  lemma Head(q: seq<Parcel>, hist: History, r: nat, step: nat, next: bool, epoch: nat, ns: int)
    requires q != [] && InboxOk(q, hist, r, step, next, epoch, ns)
    ensures var p := q[0];
      && Honest(p, hist) && p.epoch >= 1 && Precedes(p, epoch, ns)
      && ((p.epoch == r && p.env.header.ns >= step) || (next && p.epoch == r + 2))
  {
    assert q[0] in q;
  }

  lemma PopOnChain(q: seq<Parcel>, hist: History, r: nat, step: nat, step': nat, next: bool, epoch: nat, ns: int)
    requires q != [] && InboxOk(q, hist, r, step, next, epoch, ns)
    requires step' <= step || (q[0].epoch == r && step' <= q[0].env.header.ns + 1)
    ensures InboxOk(q[1..], hist, r, step', next, epoch, ns)
  {
  }

  lemma PopNewChain(q: seq<Parcel>, hist: History, r: nat, step: nat, step': nat, epoch: nat, ns: int)
    requires q != [] && InboxOk(q, hist, r, step, true, epoch, ns)
    requires q[0].epoch == r + 2 && step' <= q[0].env.header.ns + 1
    ensures InboxOk(q[1..], hist, r + 2, step', false, epoch, ns)
  {
  }

  // ---- One step of the conversation, seen from the newest epoch ----

  lemma MemoryKept(s: Session, s': Session, keys: seq<string>, r: nat)
    requires r < |keys| && MemoryBehind(s, keys, r)
    requires s'.ckr == s.ckr && s'.seen == s.seen && s'.skipped == s.skipped
    ensures MemoryBehind(s', keys, r)
  {
  }

  lemma SenderSends(hist: History, x: Session, y: Session, toX: seq<Parcel>, toY: seq<Parcel>, e: nat, synced: bool,
        text: string, gen: string)
    requires Together(hist, x, y, toX, toY, e, synced) && !x.RotationDue()
    ensures var (x', r) := x.Encrypt(text, gen);
      && r.Ok? && r.value.header.dh == hist.keys[e] && x'.dhs == x.dhs
      && Together(hist, x', y, toX, toY + [Parcel(e, r.value, text)], e, synced)
  {
    hide Session.Encrypt, Session.RotationDue, Receiving, MemoryBehind, OnChain, Root, ChainStart, InboxOk, Honest,
         KeysOk, Behind;
    SendOnChain(x, hist, e, text, gen);
    MemoryKept(x, x.Encrypt(text, gen).0, hist.keys, e - 1);
    var parcel := Parcel(e, x.Encrypt(text, gen).1.value, text);
    InboxAppend(toY, hist, if synced then e else e - 2, StepOf(y.ckr), !synced, e, x.ns, parcel);
  }

  lemma OtherSends(hist: History, x: Session, y: Session, toX: seq<Parcel>, toY: seq<Parcel>, e: nat, text: string,
        gen: string)
    requires Together(hist, x, y, toX, toY, e, false) && !y.RotationDue()
    ensures var (y', r) := y.Encrypt(text, gen);
      && r.Ok? && r.value.header.dh == hist.keys[e - 1] && y'.dhs == y.dhs
      && Together(hist, x, y', toX + [Parcel(e - 1, r.value, text)], toY, e, false)
  {
    hide Session.Encrypt, Session.RotationDue, OnChain, Root, ChainStart, InboxOk, Honest, KeysOk, Behind;
    SendOnChain(y, hist, e - 1, text, gen);
    var parcel := Parcel(e - 1, y.Encrypt(text, gen).1.value, text);
    InboxAppend(toX, hist, e - 1, StepOf(x.ckr), false, e - 1, y.ns, parcel);
  }

  /** The other end answers: it opens epoch e + 1 and becomes its sender. */
  lemma OtherAnswers(hist: History, x: Session, y: Session, toX: seq<Parcel>, toY: seq<Parcel>, e: nat, text: string,
        gen: string)
    requires Together(hist, x, y, toX, toY, e, true) && IsKeyText(gen) && gen !in hist.keys
    ensures var (y', r) := y.Encrypt(text, gen);
      && r.Ok? && e + 1 < |Noted(hist, y, y').keys| && r.value.header.dh == Noted(hist, y, y').keys[e + 1]
      && Together(Noted(hist, y, y'), y', x, toY, toX + [Parcel(e + 1, r.value, text)], e + 1, false)
  {
    var grown := if e == 1 then hist.(keys := hist.keys + [gen]) else hist;
    SendAnswer(y, hist, grown, e, text, gen);
    var parcel := Parcel(e + 1, y.Encrypt(text, gen).1.value, text);
    if e == 1 {
      GrowthKeeps(hist, grown, gen, x, e, toX, e - 1, StepOf(x.ckr), false, e - 1, y.ns);
      GrowthKeeps(hist, grown, gen, y, e, toY, e, StepOf(y.ckr), false, e, x.ns);
    }
    InboxAppend(toX, grown, e - 1, StepOf(x.ckr), true, e - 1, y.ns, parcel);
  }

  lemma SenderReceives(hist: History, x: Session, y: Session, toX: seq<Parcel>, toY: seq<Parcel>, e: nat,
        synced: bool, gen: string)
    requires Together(hist, x, y, toX, toY, e, synced) && toX != []
    ensures var (x', res) := x.Decrypt(toX[0].env, gen);
      && x'.dhs == x.dhs && AsSent(Delivery(Alice, toX[0].text, Gap(x, toX[0].env.header), res))
      && Together(hist, x', y, toX[1..], toY, e, synced)
  {
    hide Session.Decrypt, Root, InboxOk, Honest, Behind, Receiving;
    Head(toX, hist, e - 1, StepOf(x.ckr), false, e - 1, y.ns);
    DeliverOnChain(x, hist, e - 1, toX[0], gen);
    var x' := x.Decrypt(toX[0].env, gen).0;
    PopOnChain(toX, hist, e - 1, StepOf(x.ckr), StepOf(x'.ckr), false, e - 1, y.ns);
    assert x'.Ad() == x.Ad();
  }

  lemma OtherReceives(hist: History, x: Session, y: Session, toX: seq<Parcel>, toY: seq<Parcel>, e: nat, synced: bool,
        gen: string)
    requires Together(hist, x, y, toX, toY, e, synced) && toY != [] && (synced || toY[0].epoch == e - 2)
    ensures var (y', res) := y.Decrypt(toY[0].env, gen);
      && y'.dhs == y.dhs && AsSent(Delivery(Alice, toY[0].text, Gap(y, toY[0].env.header), res))
      && Together(hist, x, y', toX, toY[1..], e, synced)
  {
    var r := if synced then e else e - 2;
    hide Session.Decrypt, Root, InboxOk, Honest, Behind;
    Head(toY, hist, r, StepOf(y.ckr), !synced, e, x.ns);
    DeliverOnChain(y, hist, r, toY[0], gen);
    var y' := y.Decrypt(toY[0].env, gen).0;
    PopOnChain(toY, hist, r, StepOf(y.ckr), StepOf(y'.ckr), !synced, e, x.ns);
    assert y'.Ad() == y.Ad();
  }

  /** The delivery that takes the other end into epoch e. */
  lemma OtherCatchesUp(hist: History, x: Session, y: Session, toX: seq<Parcel>, toY: seq<Parcel>, e: nat, gen: string)
    requires Together(hist, x, y, toX, toY, e, false) && toY != [] && toY[0].epoch == e
    requires IsKeyText(gen) && gen !in hist.keys
    ensures var (y', res) := y.Decrypt(toY[0].env, gen);
      && AsSent(Delivery(Alice, toY[0].text, Gap(y, toY[0].env.header), res))
      && Together(Noted(hist, y, y'), x, y', toX, toY[1..], e, true)
  {
    var grown := hist.(keys := hist.keys + [gen]);
    assert toY[0] in toY;
    DeliverNewChain(y, hist, grown, e, toY[0], gen);
    JoinEpoch(hist, grown, x, y, y.Decrypt(toY[0].env, gen).0, toX, toY, e, gen);
  }

  lemma JoinEpoch(hist: History, grown: History, x: Session, y: Session, y': Session, toX: seq<Parcel>,
        toY: seq<Parcel>, e: nat, gen: string)
    requires Together(hist, x, y, toX, toY, e, false) && toY != [] && toY[0].epoch == e
    requires grown == hist.(keys := hist.keys + [gen]) && KeysOk(grown.keys)
    requires Receiving(y', grown, e) && MemoryBehind(y', grown.keys, e) && y'.ns == y.ns
    requires StepOf(y'.ckr) <= toY[0].env.header.ns + 1
    ensures Together(grown, x, y', toX, toY[1..], e, true)
  {
    hide Sending, Receiving, InboxOk, MemoryBehind, Honest, Root, ChainStart;
    Head(toY, hist, e - 2, StepOf(y.ckr), true, e, x.ns);
    PopNewChain(toY, hist, e - 2, StepOf(y.ckr), StepOf(y'.ckr), e, x.ns);
    GrowthKeeps(hist, grown, gen, x, e, toY[1..], e, StepOf(y'.ckr), false, e, x.ns);
    GrowthKeeps(hist, grown, gen, x, e, toX, e - 1, StepOf(x.ckr), false, e - 1, y.ns);
  }

  // ---- One step of the world ----

  lemma SendKeeps(w: World, p: Party, text: string, gen: string, e: nat, synced: bool) returns (e': nat, synced': bool)
    requires InStep(w, e, synced) && Allowed(w, Send(p, text, gen))
    ensures InStep(Next(w, Send(p, text, gen)), e', synced')
    ensures Next(w, Send(p, text, gen)).log == w.log
  {
    hide *;
    if p != Sender(e) && synced {
      AnswerKeeps(w, p, text, gen, e);
      e', synced' := e + 1, false;
    } else {
      SendOnKeeps(w, p, text, gen, e, synced);
      e', synced' := e, synced;
    }
  }

  lemma AnswerKeeps(w: World, p: Party, text: string, gen: string, e: nat)
    requires InStep(w, e, true) && Allowed(w, Send(p, text, gen)) && p != Sender(e)
    ensures InStep(Next(w, Send(p, text, gen)), e + 1, false)
    ensures Next(w, Send(p, text, gen)).log == w.log
  {
    hide Together, Session.Encrypt;
    var q := p.Other();
    OtherAnswers(w.hist, w.ends.Get(q), w.ends.Get(p), w.inbox.Get(q), w.inbox.Get(p), e, text, gen);
    PlaceSend(w, p, text, gen, e + 1, e + 1, false);
  }

  lemma SendOnKeeps(w: World, p: Party, text: string, gen: string, e: nat, synced: bool)
    requires InStep(w, e, synced) && Allowed(w, Send(p, text, gen)) && (p == Sender(e) || !synced)
    ensures InStep(Next(w, Send(p, text, gen)), e, synced)
    ensures Next(w, Send(p, text, gen)).log == w.log
  {
    hide *;
    NotDue(w, p, text, gen, e, synced);
    if p == Sender(e) { SenderGoesOn(w, p, text, gen, e, synced); } else { OtherGoesOn(w, p, text, gen, e); }
  }

  lemma SenderGoesOn(w: World, p: Party, text: string, gen: string, e: nat, synced: bool)
    requires InStep(w, e, synced) && p == Sender(e) && !w.ends.Get(p).RotationDue() && |w.hist.keys| > e
    ensures InStep(Next(w, Send(p, text, gen)), e, synced)
    ensures Next(w, Send(p, text, gen)).log == w.log
  {
    hide Together, Session.Encrypt, Session.RotationDue, IndexOf, Next;
    SenderSends(w.hist, w.ends.Get(p), w.ends.Get(p.Other()), w.inbox.Get(p), w.inbox.Get(p.Other()), e, synced, text,
        gen);
    PlaceSend(w, p, text, gen, e, e, synced);
  }

  lemma OtherGoesOn(w: World, p: Party, text: string, gen: string, e: nat)
    requires InStep(w, e, false) && p != Sender(e) && !w.ends.Get(p).RotationDue() && |w.hist.keys| > e >= 1
    ensures InStep(Next(w, Send(p, text, gen)), e, false)
    ensures Next(w, Send(p, text, gen)).log == w.log
  {
    hide Together, Session.Encrypt, Session.RotationDue, IndexOf, Next;
    OtherSends(w.hist, w.ends.Get(p.Other()), w.ends.Get(p), w.inbox.Get(p.Other()), w.inbox.Get(p), e, text, gen);
    PlaceSend(w, p, text, gen, e - 1, e, false);
  }

  lemma NotDue(w: World, p: Party, text: string, gen: string, e: nat, synced: bool)
    requires InStep(w, e, synced) && Allowed(w, Send(p, text, gen)) && (p == Sender(e) || !synced)
    ensures !w.ends.Get(p).RotationDue()
    ensures |w.hist.keys| > e >= 1
  {
    hide MemoryBehind, InboxOk, KeysOk, Receiving, OnChain;
  }

  /** From the view of the newest epoch back to the world, for a send that carries key number f. */
  lemma PlaceSend(w: World, p: Party, text: string, gen: string, f: nat, e: nat, synced: bool)
    requires w.ends.Get(p).Encrypt(text, gen).1.Ok?
    requires var (s', r) := w.ends.Get(p).Encrypt(text, gen); var q := p.Other();
      var hist, toO := Noted(w.hist, w.ends.Get(p), s'), w.inbox.Get(q) + [Parcel(f, r.value, text)];
      && f < |hist.keys| && r.value.header.dh == hist.keys[f]
      && if p == Sender(e) then Together(hist, s', w.ends.Get(q), w.inbox.Get(p), toO, e, synced)
         else Together(hist, w.ends.Get(q), s', toO, w.inbox.Get(p), e, synced)
    ensures InStep(Next(w, Send(p, text, gen)), e, synced) && Next(w, Send(p, text, gen)).log == w.log
  {
    var (s', r) := w.ends.Get(p).Encrypt(text, gen);
    IndexOfFinds(Noted(w.hist, w.ends.Get(p), s').keys, f);
  }

  lemma DeliverKeeps(w: World, p: Party, gen: string, e: nat, synced: bool) returns (synced': bool)
    requires InStep(w, e, synced) && Allowed(w, Deliver(p, gen)) && w.inbox.Get(p) != []
    ensures var w' := Next(w, Deliver(p, gen));
      InStep(w', e, synced') && |w'.log| == |w.log| + 1 && w'.log[..|w.log|] == w.log && AsSent(w'.log[|w.log|])
  {
    var x := Sender(e);
    var sx, sy, toX, toY := w.ends.Get(x), w.ends.Get(x.Other()), w.inbox.Get(x), w.inbox.Get(x.Other());
    synced' := synced;
    if p == x {
      SenderReceives(w.hist, sx, sy, toX, toY, e, synced, gen);
    } else if synced || toY[0].epoch == e - 2 {
      OtherReceives(w.hist, sx, sy, toX, toY, e, synced, gen);
    } else {
      assert toY[0] in toY;
      OtherCatchesUp(w.hist, sx, sy, toX, toY, e, gen);
      synced' := true;
    }
  }

  lemma DropKeeps(w: World, p: Party, e: nat, synced: bool)
    requires InStep(w, e, synced)
    ensures InStep(Next(w, Drop(p)), e, synced) && Next(w, Drop(p)).log == w.log
  {
    hide Sending, Receiving, MemoryBehind, KeysOk, InboxOk;
    if w.inbox.Get(p) != [] {
      var q, s, o := w.inbox.Get(p), w.ends.Get(p), w.ends.Get(p.Other());
      if p == Sender(e) {
        PopOnChain(q, w.hist, e - 1, StepOf(s.ckr), StepOf(s.ckr), false, e - 1, o.ns);
      } else {
        PopOnChain(q, w.hist, if synced then e else e - 2, StepOf(s.ckr), StepOf(s.ckr), !synced, e, o.ns);
      }
    }
  }

  lemma ReloadKeeps(w: World, p: Party, e: nat, synced: bool)
    requires InStep(w, e, synced)
    ensures InStep(Next(w, Reload(p)), e, synced) && Next(w, Reload(p)).log == w.log
  {
    var s, x := w.ends.Get(p), Sender(e);
    RestoreUndoesSave(s);
    ReloadedIs(w, p);
    var sx, sy := w.ends.Get(x), w.ends.Get(x.Other());
    hide Together, Next, Restored;
    if p == x {
      ReloadTogether(w.hist, sx, sy, Restored(sx), sy, w.inbox.Get(x), w.inbox.Get(x.Other()), e, synced);
    } else {
      ReloadTogether(w.hist, sx, sy, sx, Restored(sy), w.inbox.Get(x), w.inbox.Get(x.Other()), e, synced);
    }
  }

  lemma ReloadedIs(w: World, p: Party)
    ensures var s := w.ends.Get(p);
      Next(w, Reload(p)) == w.(ends := Set(w.ends, p, Restored(s))) && Forgetting(s, Restored(s))
  {
    RestoreUndoesSave(w.ends.Get(p));
  }

  /** The same but for some of the replay memory. */
  predicate Forgetting(s: Session, s': Session) {
    s' == s.(seen := s'.seen) && s'.seen <= s.seen
  }

  lemma ReloadTogether(hist: History, x: Session, y: Session, x': Session, y': Session,
                       toX: seq<Parcel>, toY: seq<Parcel>, e: nat, synced: bool)
    requires Together(hist, x, y, toX, toY, e, synced)
    requires (x' == x || Forgetting(x, x')) && (y' == y || Forgetting(y, y'))
    ensures Together(hist, x', y', toX, toY, e, synced)
  {
    hide OnChain, InboxOk, KeysOk, Root, Behind;
    assert x'.Ad() == x.Ad() && y'.Ad() == y.Ad();
  }

  /** Every allowed step keeps the ends in step, and a delivery returns what was sent. */
  lemma {:induction false} StepKeeps(w: World, step: Step, e: nat, synced: bool) returns (e': nat, synced': bool)
    requires InStep(w, e, synced) && Allowed(w, step)
    ensures InStep(Next(w, step), e', synced')
    ensures AllAsSent(w.log) ==> AllAsSent(Next(w, step).log)
  {
    hide InStep, Next, Allowed, AsSent;
    e', synced' := e, synced;
    match step
    case Drop(p) => DropKeeps(w, p, e, synced);
    case Reload(p) => ReloadKeeps(w, p, e, synced);
    case Send(p, text, gen) => e', synced' := SendKeeps(w, p, text, gen, e, synced);
    case Deliver(p, gen) =>
      if w.inbox.Get(p) != [] {
        synced' := DeliverKeeps(w, p, gen, e, synced);
        var log := Next(w, step).log;
        assert log == w.log + [log[|w.log|]];
      } else {
        NothingToDeliver(w, p, gen);
      }
  }

  lemma NothingToDeliver(w: World, p: Party, gen: string)
    requires w.inbox.Get(p) == []
    ensures Next(w, Deliver(p, gen)) == w
  {
  }

  lemma {:induction false} RunKeeps(w: World, steps: seq<Step>, e: nat, synced: bool) returns (e': nat, synced': bool)
    requires InStep(w, e, synced) && AllAllowed(w, steps)
    requires AllAsSent(w.log)
    ensures InStep(Run(w, steps), e', synced') && AllAsSent(Run(w, steps).log)
    decreases |steps|
  {
    e', synced' := e, synced;
    if steps != [] {
      e', synced' := StepKeeps(w, steps[0], e, synced);
      e', synced' := RunKeeps(Next(w, steps[0]), steps[1..], e', synced');
    }
  }

  /** Agreement over whole runs: from matching X3DH keys, in every
      interleaving of sends, deliveries, losses and reloads in which no send
      is due for a forced rotation, each delivered message decrypts to the
      text that was sent, or is refused because it is more than MAX_SKIP_GAP
      numbers ahead. */
  lemma {:induction false} Agreement(aIk: string, bIk: string, spk: string, opk: Option<string>, eph: string,
        steps: seq<Step>)
    requires IsKeyText(spk) && IsKeyText(eph) && spk != eph
    requires AllAllowed(Begin(aIk, bIk, spk, opk, eph), steps)
    ensures AllAsSent(Run(Begin(aIk, bIk, spk, opk, eph), steps).log)
  {
    BeginInStep(aIk, bIk, spk, opk, eph);
    var e, synced := RunKeeps(Begin(aIk, bIk, spk, opk, eph), steps, 1, true);
  }

  /** A world reached by a run the agreement speaks of. */
  ghost predicate Agreeing(w: World) {
    exists aIk, bIk, spk, opk, eph, steps ::
      && IsKeyText(spk) && IsKeyText(eph) && spk != eph
      && AllAllowed(Begin(aIk, bIk, spk, opk, eph), steps) && w == Run(Begin(aIk, bIk, spk, opk, eph), steps)
  }

  lemma AgreeingIsInStep(w: World) returns (e: nat, synced: bool)
    requires Agreeing(w)
    ensures InStep(w, e, synced) && AllAsSent(w.log)
  {
    var aIk, bIk, spk, opk, eph, steps :|
      && IsKeyText(spk) && IsKeyText(eph) && spk != eph
      && AllAllowed(Begin(aIk, bIk, spk, opk, eph), steps) && w == Run(Begin(aIk, bIk, spk, opk, eph), steps);
    BeginInStep(aIk, bIk, spk, opk, eph);
    e, synced := RunKeeps(Begin(aIk, bIk, spk, opk, eph), steps, 1, true);
  }
}
