/** Where the agreement ends: a forced rotation, and a message that comes late
    from an older chain. Both are refused, and after them the roots of the ends
    have parted for good. */
module Divergence {
  import opened Text
  import opened Crypto
  import opened Ratchet
  import opened RatchetRuns
  import opened Headers
  import opened SkippedKeys
  import opened Conversation
  import opened Parting

  /** The chain a key was started from is as deep as the epoch it belongs to. */
  lemma ChainStartDepth(hist: History, e: nat)
    requires 1 <= e < |hist.keys|
    ensures Depth(ChainStart(hist, e)) == e - 1 && !ChainStart(hist, e).NextChain?
  {
    if e > 1 { RootDepth(hist, e - 1); }
  }

  // ---- Forced rotation ----

  /** The other end refuses the message of a forced rotation in the state it is in. */
  lemma RotatedIsRefused(w: World, p: Party, text: string, gen: string, gen': string, e: nat, synced: bool)
    requires InStep(w, e, synced) && w.ends.Get(p).ForcesRotation()
    requires gen !in w.hist.keys
    ensures w.ends.Get(p).Encrypt(text, gen).1.Ok?
    ensures w.ends.Get(p.Other()).Decrypt(w.ends.Get(p).Encrypt(text, gen).1.value, gen').1.Err?
  {
    var s, o := w.ends.Get(p), w.ends.Get(p.Other());
    hide InStep, Session.Encrypt, Session.Decrypt, Inside, Outside, NotTaken, ChainUnder, Session.ForcesRotation;
    RotationParts(w, p, text, gen, e, synced);
    OuterRefuses(o, Rotation(s, gen), s.Encrypt(text, gen).1.value, gen');
  }

  function Actor(step: Step): Party {
    match step
    case Send(p, _, _) => p
    case Deliver(p, _) => p
    case Drop(p) => p
    case Reload(p) => p
  }

  /** Every one of the steps is the party's own. */
  predicate ByAlone(steps: seq<Step>, p: Party) {
    forall step <- steps :: Actor(step) == p
  }

  lemma {:induction false} OtherStays(w: World, steps: seq<Step>, p: Party)
    requires ByAlone(steps, p.Other())
    ensures Run(w, steps).ends.Get(p) == w.ends.Get(p)
    decreases |steps|
  {
    if steps != [] {
      StepStays(w, steps[0], p);
      hide Next;
      OtherStays(Next(w, steps[0]), steps[1..], p);
    }
  }

  lemma StepStays(w: World, step: Step, p: Party)
    requires Actor(step) == p.Other()
    ensures Next(w, step).ends.Get(p) == w.ends.Get(p)
  {
    hide Session.Encrypt, Session.Decrypt, Session.Serialize, Deserialize, IndexOf, Noted;
  }

  /** Forced rotations diverge: at any point of an agreement run, if a send of
      p takes that branch, then whatever the other end receives, loses, sends
      or reloads before its message arrives, it refuses it. */
  lemma {:induction false} ForcedRotationDiverges(
      w: World, p: Party, text: string, gen: string, meanwhile: seq<Step>, gen': string)
    requires Agreeing(w) && w.ends.Get(p).ForcesRotation()
    requires ByAlone(meanwhile, p.Other()) && AllAllowed(w, meanwhile)
    requires gen !in Run(w, meanwhile).hist.keys
    ensures var r := w.ends.Get(p).Encrypt(text, gen).1;
      r.Ok? && Run(w, meanwhile).ends.Get(p.Other()).Decrypt(r.value, gen').1.Err?
  {
    var e, synced := AgreeingIsInStep(w);
    hide *;
    var e', synced' := RunKeeps(w, meanwhile, e, synced);
    OtherStays(w, meanwhile, p);
    RotatedIsRefused(Run(w, meanwhile), p, text, gen, gen', e', synced');
  }

  /** Exactly when a send reaches: with nothing else in flight to the other
      end, its delivery returns the text if and only if the forced rotation was
      not due and the number is not too far ahead. */
  lemma SendReachesExactly(w: World, p: Party, text: string, gen: string, gen': string)
    requires Agreeing(w) && w.inbox.Get(p.Other()) == []
    requires IsKeyText(gen) && gen !in w.hist.keys && IsKeyText(gen') && gen' !in w.hist.keys && gen' != gen
    ensures var r := w.ends.Get(p).Encrypt(text, gen).1;
      && r.Ok?
      && var o := w.ends.Get(p.Other());
      o.Decrypt(r.value, gen').1 == Ok(text)
      <==> !w.ends.Get(p).ForcesRotation() && Gap(o, r.value.header) <= MAX_SKIP_GAP
  {
    var e, synced := AgreeingIsInStep(w);
    hide InStep, Agreeing, Session.Encrypt, Session.Decrypt;
    if w.ends.Get(p).ForcesRotation() {
      RotatedIsRefused(w, p, text, gen, gen', e, synced);
    } else {
      UnforcedSendReaches(w, p, text, gen, gen', e, synced);
    }
  }

  lemma SendDelivers(w: World, p: Party, text: string, gen: string)
    requires w.inbox.Get(p.Other()) == [] && w.ends.Get(p).Encrypt(text, gen).1.Ok?
    ensures var (s', r) := w.ends.Get(p).Encrypt(text, gen); var v := Next(w, Send(p, text, gen));
      && v.ends.Get(p.Other()) == w.ends.Get(p.Other())
      && |v.inbox.Get(p.Other())| == 1
      && v.inbox.Get(p.Other())[0].env == r.value && v.inbox.Get(p.Other())[0].text == text
      && v.hist == Noted(w.hist, w.ends.Get(p), s')
  {
    hide Session.Encrypt;
  }

  lemma UnforcedSendReaches(w: World, p: Party, text: string, gen: string, gen': string, e: nat, synced: bool)
    requires InStep(w, e, synced) && w.inbox.Get(p.Other()) == [] && !w.ends.Get(p).ForcesRotation()
    requires IsKeyText(gen) && gen !in w.hist.keys && IsKeyText(gen') && gen' !in w.hist.keys && gen' != gen
    ensures var r := w.ends.Get(p).Encrypt(text, gen).1;
      && r.Ok?
      && var o := w.ends.Get(p.Other());
      AsSent(Delivery(p.Other(), text, Gap(o, r.value.header), o.Decrypt(r.value, gen').1))
  {
    hide InboxOk, MemoryBehind, Session.Encrypt, Session.Decrypt, Next;
    var s := w.ends.Get(p);
    EncryptHeader(s, text, gen);
    var e', synced' := SendKeeps(w, p, text, gen, e, synced);
    var v := Next(w, Send(p, text, gen));
    SendDelivers(w, p, text, gen);
    DeliveryOf(v, p.Other(), gen');
    var synced'' := DeliverKeeps(v, p.Other(), gen', e', synced');
  }

  lemma DeliveryOf(v: World, p: Party, gen: string)
    requires v.inbox.Get(p) != []
    ensures var q := v.inbox.Get(p)[0];
      Next(v, Deliver(p, gen)).log
      == v.log + [Delivery(p, q.text, Gap(v.ends.Get(p), q.env.header), v.ends.Get(p).Decrypt(q.env, gen).1)]
  {
    hide Session.Decrypt;
  }

  // ---- Forced rotations come due ----

  function Sends(p: Party, text: string, gen: string, n: nat): seq<Step> {
    if n == 0 then [] else [Send(p, text, gen)] + Sends(p, text, gen, n - 1)
  }

  /** An end in the middle of its chain, with something received. */
  predicate MidChain(w: World, p: Party) {
    var s := w.ends.Get(p);
    Ready(s) && !s.pendingSend && s.cks.Some? && s.ckr.Some?
  }

  lemma OneMoreSend(w: World, p: Party, text: string, gen: string)
    requires MidChain(w, p) && w.ends.Get(p).ns < 100
    ensures var v := Next(w, Send(p, text, gen));
      MidChain(v, p) && v.ends.Get(p).ns == w.ends.Get(p).ns + 1 && v.hist == w.hist
    ensures IsKeyText(gen) && gen !in w.hist.keys ==> Allowed(w, Send(p, text, gen))
  {
    EncryptExactly(w.ends.Get(p), text, gen);
    EncryptHeader(w.ends.Get(p), text, gen);
    hide Session.Encrypt;
  }

  /** A hundred messages on one chain are all an agreement run allows of it. */
  lemma {:induction false} SendsUntilDue(w: World, p: Party, text: string, gen: string, n: nat)
    requires MidChain(w, p) && w.ends.Get(p).ns + n == 100 && IsKeyText(gen) && gen !in w.hist.keys
    ensures AllAllowed(w, Sends(p, text, gen, n)) && Run(w, Sends(p, text, gen, n)).ends.Get(p).ForcesRotation()
    decreases n
  {
    hide Next, Allowed;
    if n > 0 {
      OneMoreSend(w, p, text, gen);
      SendsUntilDue(Next(w, Send(p, text, gen)), p, text, gen, n - 1);
      assert Sends(p, text, gen, n)[1..] == Sends(p, text, gen, n - 1);
    }
  }

  /** The responder's first message takes it to the middle of its chain. */
  lemma FirstAnswer(
      aIk: string, bIk: string, spk: string, opk: Option<string>, eph: string, text: string, g: string)
    requires IsKeyText(spk) && IsKeyText(eph) && spk != eph && IsKeyText(g) && g !in {spk, eph}
    ensures var w := Begin(aIk, bIk, spk, opk, eph); var v := Next(w, Send(Bob, text, g));
      Allowed(w, Send(Bob, text, g)) && MidChain(v, Bob) && v.ends.Get(Bob).ns == 1 && v.hist.keys == [spk, eph, g]
  {
    var w := Begin(aIk, bIk, spk, opk, eph);
    assert Ready(w.ends.bob) && w.ends.bob.cks.None?;
    EncryptHeader(w.ends.bob, text, g);
    EncryptExactly(w.ends.bob, text, g);
    hide Session.Encrypt, IndexOf;
    assert [spk, eph] + [g] == [spk, eph, g];
  }

  /** So it happens: any four different keys make an agreement run at whose end
      a forced rotation is due. */
  lemma {:induction false} ForcedRotationHappens(
      aIk: string, bIk: string, spk: string, opk: Option<string>, eph: string, text: string, g: string, h: string)
    requires IsKeyText(spk) && IsKeyText(eph) && spk != eph && IsKeyText(g) && g !in {spk, eph}
    requires IsKeyText(h) && h !in {spk, eph, g}
    ensures exists w :: Agreeing(w) && w.ends.Get(Bob).ForcesRotation()
  {
    var w, first := Begin(aIk, bIk, spk, opk, eph), Send(Bob, text, g);
    FirstAnswer(aIk, bIk, spk, opk, eph, text, g);
    hide Begin, MidChain, Next, Allowed, Session.ForcesRotation, Sends;
    SendsUntilDue(Next(w, first), Bob, text, h, 99);
    var rest := Sends(Bob, text, h, 99);
    assert ([first] + rest)[0] == first && ([first] + rest)[1..] == rest;
    assert AllAllowed(w, [first] + rest) && Run(w, [first] + rest) == Run(Next(w, first), rest);
    assert Agreeing(Run(w, [first] + rest));
  }

  // ---- Roots that part for good ----

  /** No two neighbours in the history agree the key of the branch. */
  ghost predicate NotTaken(hist: History, br: Branch) {
    forall i | 1 <= i < |hist.keys| - 1 :: Dh(hist.keys[i], hist.keys[i + 1]) != Dh(br.a, br.b)
  }

  lemma {:induction false} HistoryIsOutside(hist: History, br: Branch, e: nat)
    requires NotTaken(hist, br) && 1 <= e < |hist.keys|
    ensures !Under(Root(hist, e), br.Key()) && RootBeside(ChainStart(hist, e)) == Root(hist, e)
  {
    if e > 1 { HistoryIsOutside(hist, br, e - 1); }
  }

  lemma ChainIsOutside(c: Option<Chain>, hist: History, br: Branch, e: nat)
    requires NotTaken(hist, br) && 1 <= e < |hist.keys| && OnChain(c, hist, e)
    ensures StartOf(c) == Some(ChainStart(hist, e)) && !ChainUnder(StartOf(c), br.Key())
  {
    HistoryIsOutside(hist, br, e);
    ChainStartDepth(hist, e);
    ChainKeyOrigin(ChainStart(hist, e), c.value.step, hist.ad);
  }

  /** An end is outside a branch that the history did not take, unless it could take it itself. */
  lemma EndIsOutside(w: World, e: nat, synced: bool, p: Party, br: Branch)
    requires InStep(w, e, synced) && NotTaken(w.hist, br)
    requires var s := w.ends.Get(p);
      s.rk.Some? && s.dhs.Some? && (br.Has(s.dhs.value) ==> s.rk.value != br.root && !s.dhFresh)
    ensures Outside(w.ends.Get(p), br)
  {
    hide InboxOk, MemoryBehind, OnChain, Root, ChainStart, NotTaken, Under, KeysOk;
    var s, hist := w.ends.Get(p), w.hist;
    if p == Sender(e) || !synced {
      var at := if p == Sender(e) then e else e - 1;
      HistoryIsOutside(hist, br, at);
      ChainIsOutside(s.cks, hist, br, at);
      if at > 1 { ChainIsOutside(s.ckr, hist, br, at - 1); }
    } else {
      HistoryIsOutside(hist, br, e);
      ChainIsOutside(s.ckr, hist, br, e);
    }
  }

  /** An honest box is sealed on the chain of its epoch. */
  lemma HonestIsOutside(parcel: Parcel, hist: History, br: Branch)
    requires NotTaken(hist, br) && Honest(parcel, hist)
    ensures var box := parcel.env.box;
      && box.Sealed? && box.key.MessageKey? && Origin(box.key.chain) == ChainStart(hist, parcel.epoch)
      && !ChainUnder(Some(Origin(box.key.chain)), br.Key())
  {
    HistoryIsOutside(hist, br, parcel.epoch);
    ChainStartDepth(hist, parcel.epoch);
    ChainKeyOrigin(ChainStart(hist, parcel.epoch), parcel.env.header.ns, hist.ad);
  }

  /** Key pairs generated in the operations are none of these. */
  predicate NoneOf(ops: seq<Op>, keys: seq<string>) {
    forall op <- ops :: GenOf(op).Some? ==> GenOf(op).value !in keys
  }

  /** The root step of a forced rotation. */
  function Rotation(s: Session, gen: string): Branch
    requires s.rk.Some? && s.dhr.Some?
  {
    Branch(s.rk.value, gen, s.dhr.value)
  }

  /** A forced rotation takes its session into a branch the other end is outside of. */
  lemma RotationParts(w: World, p: Party, text: string, gen: string, e: nat, synced: bool)
    requires InStep(w, e, synced) && w.ends.Get(p).ForcesRotation() && gen !in w.hist.keys
    ensures var s, o := w.ends.Get(p), w.ends.Get(p.Other());
      && Ready(s) && Ready(o)
      && var br := Rotation(s, gen); var (s', r) := s.Encrypt(text, gen);
      && NotTaken(w.hist, br) && br.a in w.hist.keys + [gen] && br.b in w.hist.keys + [gen]
      && Inside(s', br, StartOf(s.ckr)) && Outside(o, br)
      && r.Ok? && r.value.box.Sealed? && r.value.box.key.MessageKey?
      && ChainUnder(Some(Origin(r.value.box.key.chain)), br.Key())
  {
    hide InboxOk, MemoryBehind, Session.Encrypt, OnChain, Root, ChainStart, KeysOk, Outside, Inside, Under, ChainUnder;
    var s, o := w.ends.Get(p), w.ends.Get(p.Other());
    var br := Rotation(s, gen);
    RotationBranch(w, p, gen, e, synced);
    RotatedIsInside(s, text, gen);
    EndIsOutside(w, e, synced, p.Other(), br);
  }

  lemma RotationBranch(w: World, p: Party, gen: string, e: nat, synced: bool)
    requires InStep(w, e, synced) && w.ends.Get(p).ForcesRotation() && gen !in w.hist.keys
    ensures var s, o := w.ends.Get(p), w.ends.Get(p.Other());
      && Ready(s) && Ready(o) && NotTaken(w.hist, Rotation(s, gen)) && s.dhr.value in w.hist.keys
      && (Rotation(s, gen).Has(o.dhs.value) ==> o.rk != s.rk && !o.dhFresh)
  {
    hide InboxOk, MemoryBehind, OnChain, Root, ChainStart, KeysOk, NotTaken;
    HeldKeys(w, e, synced, p);
    HeldKeys(w, e, synced, p.Other());
    NewPairNotTaken(w.hist, w.ends.Get(p).rk.value, gen, w.ends.Get(p).dhr.value);
    if w.ends.Get(p.Other()).dhs == w.ends.Get(p).dhr {
      KeysDiffer(w.hist.keys);
      RootDepth(w.hist, e);
      RootDepth(w.hist, e - 1);
    }
  }

  lemma KeysDiffer(keys: seq<string>)
    requires KeysOk(keys)
    ensures forall i, j | 0 <= i < |keys| && 0 <= j < |keys| && keys[i] == keys[j] :: i == j
  {
  }

  lemma NewPairNotTaken(hist: History, root: Key, gen: string, k: string)
    requires gen !in hist.keys
    ensures NotTaken(hist, Branch(root, gen, k))
  {
    forall i | 1 <= i < |hist.keys| - 1 ensures Dh(hist.keys[i], hist.keys[i + 1]) != Dh(gen, k) {
      assert hist.keys[i] != gen && hist.keys[i + 1] != gen;
    }
  }

  /** The epoch an end reads. */
  function Reads(p: Party, e: nat, synced: bool): int {
    if p == Sender(e) then e - 1 else if synced then e else e - 2
  }

  /** The keys an end holds: the one it reads under, and its own, which comes next. */
  lemma HeldKeys(w: World, e: nat, synced: bool, p: Party)
    requires InStep(w, e, synced)
    ensures var s, keys, r := w.ends.Get(p), w.hist.keys, Reads(p, e, synced);
      && Ready(s) && KeysOk(keys) && 0 <= r < |keys| && s.dhr == Some(keys[r]) && s.dhs.value in keys
      && (e > 1 ==> r + 1 < |keys| && s.dhs == Some(keys[r + 1]))
  {
    hide InboxOk, MemoryBehind, OnChain, Root, ChainStart, KeysOk;
  }

  lemma RotatedIsInside(s: Session, text: string, gen: string)
    requires Ready(s) && s.ForcesRotation()
    ensures var br := Rotation(s, gen); var (s', r) := s.Encrypt(text, gen);
      && Inside(s', br, StartOf(s.ckr))
      && r.Ok? && r.value.box.Sealed? && r.value.box.key.MessageKey?
      && ChainUnder(Some(Origin(r.value.box.key.chain)), br.Key())
  {
    hide Session.Encrypt;
    EncryptIs(s, text, gen);
    var t := s.RatchetSend(gen).value;
    assert Origin(t.cks.value.key) == t.cks.value.key;
  }

  /** A chain of epoch r, with its root, is told from the chains of other epochs. */
  lemma ReadChain(c: Option<Chain>, hist: History, r: nat)
    requires 1 <= r < |hist.keys| && OnChain(c, hist, r)
    ensures StartOf(c) == Some(ChainStart(hist, r)) && Depth(RootBeside(ChainStart(hist, r))) == r - 1
    ensures forall i | 1 <= i < |hist.keys| && i != r :: ChainStart(hist, i) != ChainStart(hist, r)
  {
    ChainStartDepth(hist, r);
    ChainKeyOrigin(ChainStart(hist, r), c.value.step, hist.ad);
    RootDepth(hist, r);
    forall i | 1 <= i < |hist.keys| && i != r ensures ChainStart(hist, i) != ChainStart(hist, r) {
      ChainStartDepth(hist, i);
    }
  }

  /** The chain read at a forced rotation is no deeper than the other end's
      root, and no message under another header key is sealed on it. */
  lemma RotationReads(w: World, p: Party, e: nat, synced: bool, q: Parcel)
    requires InStep(w, e, synced) && w.ends.Get(p).ForcesRotation()
    ensures var s, o := w.ends.Get(p), w.ends.Get(p.Other());
      && s.ckr.Some? && o.rk.Some? && Depth(RootBeside(StartOf(s.ckr).value)) <= Depth(o.rk.value)
      && (Honest(q, w.hist) && s.dhr != Some(q.env.header.dh) ==>
            Some(ChainStart(w.hist, q.epoch)) != StartOf(s.ckr))
  {
    hide InboxOk, MemoryBehind, Root, ChainStart, ChainAt, KeysOk;
    var s, hist := w.ends.Get(p), w.hist;
    var r := if p == Sender(e) then e - 1 else e - 2;
    ReadChain(s.ckr, hist, r);
    RootDepth(hist, e);
    if e > 1 { RootDepth(hist, e - 1); }
  }

  lemma NoneOfAvoids(ops: seq<Op>, more: string, k: string, keys: seq<string>, br: Branch)
    requires NoneOf(ops + [Enc(more, k)], keys) && br.a in keys && br.b in keys
    ensures Avoid(ops, br) && !br.Has(k)
  {
    var all := ops + [Enc(more, k)];
    assert Enc(more, k) in all && forall op <- ops :: op in all;
  }

  /** A forced rotation is final. Whatever the two ends do from then on with
      new key pairs (any operations, any envelopes in any order), the other end
      refuses the rotated message and everything sealed after it; in return the
      rotated end refuses every message under a header key it was not reading,
      and all the other end seals from then on but for the chain it was sealing
      on and the rotated end was reading. */
  lemma {:induction false} ForcedRotationIsFinal(
      w: World, p: Party, text: string, gen: string, ops: seq<Op>, others: seq<Op>, more: string, k: string,
      k': string, q: Parcel)
    requires Agreeing(w) && w.ends.Get(p).ForcesRotation()
    requires gen !in w.hist.keys && NoneOf(others + [Enc(more, k)], w.hist.keys + [gen])
    ensures var s, o := w.ends.Get(p), w.ends.Get(p.Other());
      var (s0, first) := s.Encrypt(text, gen);
      var s', o' := After(s0, ops), After(o, others);
      var (o'', back) := o'.Encrypt(more, k);
      && first.Ok? && o'.Decrypt(first.value, k).1.Err?
      && s'.Encrypt(more, k').1.Ok? && o'.Decrypt(s'.Encrypt(more, k').1.value, k).1.Err?
      && back.Ok?
      && (s'.Decrypt(back.value, k').1.Err? || StartOf(o''.cks) == StartOf(o.cks) == StartOf(s.ckr))
      && (Honest(q, w.hist) && s.dhr != Some(q.env.header.dh) ==> s'.Decrypt(q.env, k').1.Err?)
  {
    var e, synced := AgreeingIsInStep(w);
    var s, o := w.ends.Get(p), w.ends.Get(p.Other());
    hide *;
    RotationParts(w, p, text, gen, e, synced);
    RotationReads(w, p, e, synced, q);
    var br, read := Rotation(s, gen), StartOf(s.ckr);
    NoneOfAvoids(others, more, k, w.hist.keys + [gen], br);
    var s0 := s.Encrypt(text, gen).0;
    PartedForGood(s0, o, br, read, ops, others, more, k, k');
    OuterRefuses(After(o, others), br, s.Encrypt(text, gen).1.value, k);
    SealsAsThen(o, others, more, k, read.value);
    if Honest(q, w.hist) && s.dhr != Some(q.env.header.dh) {
      HonestIsOutside(q, w.hist, br);
      InnerRefuses(After(s0, ops), br, read, q.env, k');
    }
  }

  /** Whatever comes of it, an envelope under a header key not in use takes the session to that key. */
  lemma LateMessageStartsChain(s: Session, env: Envelope, gen: string, key: string)
    requires Ready(s) && s.dhr != Some(key) && ParseKey(env.header.dh) == Some(key)
    requires Find(s.skipped, ShowId(env.header.dh, env.header.ns)).None?
    ensures var s' := s.Decrypt(env, gen).0;
      && Ready(s') && s'.Ad() == s.Ad() && s'.dhr == Some(key) && s'.dhFresh
      && s'.rk == Some(StepRoot(s.rk.value, Dh(s.dhs.value, key)))
      && StartOf(s'.ckr) == Some(StepChain(s.rk.value, Dh(s.dhs.value, key)))
      && (s.Decrypt(env, gen).1.Ok? ==> OpensOn(env.box, s'.ckr))
  {
    hide Session.Encrypt;
    var t := s.(pn := env.header.pn).RatchetReceive(key, gen).value;
    DecryptRatchets(s, env, gen, t);
    DecryptKeepsSending(s, env, gen);
    ReceiveKeepsSending(t, env);
    ReceiveMoves(t, env);
  }

  /** The step a message of epoch j makes the reader of epoch r > j take is none of the history's. */
  lemma LateBranch(w: World, e: nat, synced: bool, p: Party, r: nat, j: nat)
    requires InStep(w, e, synced) && r < |w.hist.keys| && w.ends.Get(p).dhr == Some(w.hist.keys[r]) && 1 <= j < r
    ensures var s, o := w.ends.Get(p), w.ends.Get(p.Other());
      && Ready(s) && s.dhs.value in w.hist.keys
      && NotTaken(w.hist, Branch(s.rk.value, s.dhs.value, w.hist.keys[j]))
      && o.rk.Some? && o.dhs.Some? && o.dhs != s.dhs && o.dhs != Some(w.hist.keys[j])
      && s.dhr != Some(w.hist.keys[j]) && IsKeyText(w.hist.keys[j])
  {
    hide InStep, KeysOk;
    var keys := w.hist.keys;
    HeldKeys(w, e, synced, p);
    HeldKeys(w, e, synced, p.Other());
    KeysDiffer(keys);
    KeyIsText(keys, j);
    forall i | 1 <= i < |keys| - 1 ensures Dh(keys[i], keys[i + 1]) != Dh(keys[r + 1], keys[j]) {
      if Dh(keys[i], keys[i + 1]) == Dh(keys[r + 1], keys[j]) { DhIsPair(keys, i, i + 1, r + 1, j); }
    }
  }

  lemma KeyIsText(keys: seq<string>, i: nat)
    requires KeysOk(keys) && i < |keys|
    ensures IsKeyText(keys[i])
  {
  }

  lemma DhIsPair(keys: seq<string>, a: nat, b: nat, c: nat, d: nat)
    requires a < |keys| && b < |keys| && c < |keys| && d < |keys| && KeysOk(keys)
    requires Dh(keys[a], keys[b]) == Dh(keys[c], keys[d])
    ensures (a == c && b == d) || (a == d && b == c)
  {
  }

  lemma StartedInside(s: Session, s': Session, br: Branch, dh: string)
    requires s.rk.Some? && s.dhs.Some? && br == Branch(s.rk.value, s.dhs.value, dh)
    requires Ready(s') && s'.dhFresh && s'.rk == Some(br.Key())
    requires StartOf(s'.ckr) == Some(StepChain(s.rk.value, Dh(s.dhs.value, dh)))
    ensures Inside(s', br, None) && ChainUnder(StartOf(s'.ckr), br.Key())
  {
  }

  // ---- A late message from an older chain ----

  /** An uncached message of an older chain takes its reader into a branch the other end is outside of. */
  lemma LateMessageParts(w: World, e: nat, synced: bool, p: Party, r: nat, late: Parcel, gen: string)
    requires InStep(w, e, synced) && r < |w.hist.keys| && w.ends.Get(p).dhr == Some(w.hist.keys[r])
    requires Honest(late, w.hist) && late.epoch < r
    requires Find(w.ends.Get(p).skipped, ShowId(late.env.header.dh, late.env.header.ns)).None?
    ensures var s, o := w.ends.Get(p), w.ends.Get(p.Other());
      && Ready(s)
      && var br := Branch(s.rk.value, s.dhs.value, late.env.header.dh);
      && s.dhs.value in w.hist.keys && NotTaken(w.hist, br)
      && Inside(s.Decrypt(late.env, gen).0, br, None) && Outside(o, br)
      && s.Decrypt(late.env, gen).1.Err?
  {
    hide InboxOk, MemoryBehind, Session.Encrypt, Session.Decrypt, OnChain, Find, Root, ChainStart, Ready,
         Outside, Under;
    var s, o, hist := w.ends.Get(p), w.ends.Get(p.Other()), w.hist;
    var dh := late.env.header.dh;
    var br := Branch(s.rk.value, s.dhs.value, dh);
    LateBranch(w, e, synced, p, r, late.epoch);
    ParseKeyReadsKeyText(dh);
    LateMessageStartsChain(s, late.env, gen, dh);
    EndIsOutside(w, e, synced, p.Other(), br);
    HonestIsOutside(late, hist, br);
    StartedInside(s, s.Decrypt(late.env, gen).0, br, dh);
  }

  /** After an uncached message of an older chain neither end ever accepts
      anything the other seals from then on, and its reader accepts no message
      sealed before either, of the chain in use or any other. */
  lemma {:induction false} LateMessageIsFinal(
      w: World, p: Party, r: nat, late: Parcel, gen: string, ops: seq<Op>, others: seq<Op>, more: string, k: string,
      k': string, q: Parcel)
    requires Agreeing(w) && r < |w.hist.keys| && w.ends.Get(p).dhr == Some(w.hist.keys[r])
    requires Honest(late, w.hist) && late.epoch < r
    requires Find(w.ends.Get(p).skipped, ShowId(late.env.header.dh, late.env.header.ns)).None?
    requires NoneOf(others + [Enc(more, k)], w.hist.keys)
    ensures var s, o := w.ends.Get(p), w.ends.Get(p.Other());
      var (s0, res) := s.Decrypt(late.env, gen);
      var s', o' := After(s0, ops), After(o, others);
      && res.Err?
      && s'.Encrypt(more, k').1.Ok? && o'.Decrypt(s'.Encrypt(more, k').1.value, k).1.Err?
      && o'.Encrypt(more, k).1.Ok? && s'.Decrypt(o'.Encrypt(more, k).1.value, k').1.Err?
      && (Honest(q, w.hist) ==> s'.Decrypt(q.env, k').1.Err?)
  {
    var e, synced := AgreeingIsInStep(w);
    var s, o := w.ends.Get(p), w.ends.Get(p.Other());
    hide InStep, Agreeing, Inside, Outside, NoneOf, Honest, Find, Session.Decrypt, Session.Encrypt, NotTaken, After;
    LateMessageParts(w, e, synced, p, r, late, gen);
    var br := Branch(s.rk.value, s.dhs.value, late.env.header.dh);
    NoneOfAvoids(others, more, k, w.hist.keys, br) by { HonestKey(late, w.hist); }
    var s0 := s.Decrypt(late.env, gen).0;
    PartedForGood(s0, o, br, None, ops, others, more, k, k');
    SealsOnAChain(After(o, others), br, more, k);
    if Honest(q, w.hist) {
      HonestIsOutside(q, w.hist, br);
      InnerRefuses(After(s0, ops), br, None, q.env, k');
    }
  }

  lemma HonestKey(q: Parcel, hist: History)
    requires Honest(q, hist)
    ensures q.env.header.dh in hist.keys
  {
  }

  lemma SealsOnAChain(o: Session, br: Branch, text: string, gen: string)
    requires Outside(o, br)
    ensures StartOf(o.Encrypt(text, gen).0.cks).Some?
  {
    EncryptMoves(o, text, gen);
  }

  /** How an end that reads epoch r >= 2 stands while the ends agree. */
  lemma ReaderStands(w: World, e: nat, synced: bool, p: Party, r: nat)
    requires InStep(w, e, synced) && 2 <= r < |w.hist.keys| && w.ends.Get(p).dhr == Some(w.hist.keys[r])
    ensures var s := w.ends.Get(p);
      KeysOk(w.hist.keys) && s.Ad() == w.hist.ad && OnChain(s.ckr, w.hist, r) && MemoryBehind(s, w.hist.keys, r)
  {
    hide InboxOk, MemoryBehind, ChainStart;
    assert Reads(p, e, synced) == r;
  }

  /** A message of an older chain that arrives after all is not looked up by
      `pn` but taken for a new chain. It is refused in any case; afterwards the
      end accepts the messages of the chain in use, within the gap, if and only
      if the late number was cached. */
  lemma {:induction false} OlderChainExactly(
      w: World, p: Party, r: nat, late: Parcel, next: Parcel, gen: string, gen': string)
    requires Agreeing(w) && r < |w.hist.keys| && w.ends.Get(p).dhr == Some(w.hist.keys[r])
    requires Honest(late, w.hist) && late.epoch < r && Honest(next, w.hist) && next.epoch == r
    ensures var s := w.ends.Get(p); var (s', res) := s.Decrypt(late.env, gen);
      && res.Err?
      && (s'.Decrypt(next.env, gen').1 == Ok(next.text)
          <==> && Find(s.skipped, ShowId(late.env.header.dh, late.env.header.ns)).Some?
               && 0 <= Gap(s, next.env.header) <= MAX_SKIP_GAP)
  {
    var e, synced := AgreeingIsInStep(w);
    var s := w.ends.Get(p);
    hide InStep, Agreeing, Session.Decrypt, MemoryBehind, KeysOk;
    if Find(s.skipped, ShowId(late.env.header.dh, late.env.header.ns)).Some? {
      ReaderStands(w, e, synced, p, r);
      CachedIsHarmless(s, w.hist, r, late, next, gen, gen');
    } else {
      LateMessageParts(w, e, synced, p, r, late, gen);
      var br := Branch(s.rk.value, s.dhs.value, late.env.header.dh);
      HonestIsOutside(next, w.hist, br);
      InnerRefuses(s.Decrypt(late.env, gen).0, br, None, next.env, gen');
    }
  }

  /** The late number is cached: it is refused as seen, and the chain in use goes on. */
  lemma CachedIsHarmless(s: Session, hist: History, r: nat, late: Parcel, next: Parcel, gen: string, gen': string)
    requires 2 <= r < |hist.keys| && KeysOk(hist.keys) && MemoryBehind(s, hist.keys, r)
    requires s.Ad() == hist.ad && s.dhr == Some(hist.keys[r]) && OnChain(s.ckr, hist, r)
    requires Honest(late, hist) && late.epoch < r && Honest(next, hist) && next.epoch == r
    requires Find(s.skipped, ShowId(late.env.header.dh, late.env.header.ns)).Some?
    ensures var (s', res) := s.Decrypt(late.env, gen);
      && res.Err?
      && (s'.Decrypt(next.env, gen').1 == Ok(next.text) <==> 0 <= Gap(s, next.env.header) <= MAX_SKIP_GAP)
  {
    var h := next.env.header;
    var s' := CachedIsDropped(s, late.env, gen);
    ParseKeyReadsKeyText(hist.keys[r]);
    assert hist.keys[late.epoch] != hist.keys[r];
    if h.ns >= StepOf(s.ckr) {
      ToComeIsUnknown(s, hist, r, next);
    }
    OnChainExactly(s', next.env, gen', next.text, ChainStart(hist, r));
  }

  lemma CachedIsDropped(s: Session, env: Envelope, gen: string) returns (s': Session)
    requires Find(s.skipped, ShowId(env.header.dh, env.header.ns)).Some?
    ensures s' == s.Decrypt(env, gen).0 && s.Decrypt(env, gen).1 == Err(Replay)
    ensures s' == s.(seen := s'.seen, skipped := s'.skipped)
    ensures s'.seen <= s.seen + {MsgId(env.header.dh, env.header.ns)}
    ensures forall id | Find(s.skipped, id).None? :: Find(s'.skipped, id).None?
  {
    s' := s.Decrypt(env, gen).0;
  }
}
