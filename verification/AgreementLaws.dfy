/** More about agreement runs: what the cache of skipped keys holds after every
    delivery, that saving and restoring changes no plaintext, and an input from
    outside such runs at which the cache law fails. */
module AgreementLaws {
  import opened Text
  import opened Crypto
  import opened Ratchet
  import opened SkippedKeys
  import opened Conversation

  // ---- The cache ----

  /** What is still to come on a chain is not cached. */
  lemma ToComeIsUncached(s: Session, keys: seq<string>, r: nat, e: nat, from: nat, to: int)
    requires r < |keys| && e < |keys| && KeysOk(keys) && MemoryBehind(s, keys, r)
    requires e > r || (e == r && from >= StepOf(s.ckr))
    ensures Uncached(s.skipped, keys[e], from, to)
  {
    forall n {:trigger ShowId(keys[e], n)} | from <= n < to ensures Find(s.skipped, ShowId(keys[e], n)).None? {
      assert !Behind(keys[e], n, keys, r, StepOf(s.ckr));
    }
  }

  predicate Capped(w: World) {
    |w.ends.alice.skipped| <= MAX_SKIPPED && |w.ends.bob.skipped| <= MAX_SKIPPED
  }

  lemma CapStays(w: World, step: Step)
    requires Capped(w)
    ensures Capped(Next(w, step))
  {
    hide Session.Encrypt, Session.Decrypt, IndexOf, Noted;
    match step
    case Send(p, text, gen) => EncryptKeepsSkipped(w.ends.Get(p), text, gen);
    case Deliver(p, gen) => if w.inbox.Get(p) != [] { DecryptKeepsCap(w.ends.Get(p), w.inbox.Get(p)[0].env, gen); }
    case Drop(p) =>
    case Reload(p) => RestoreUndoesSave(w.ends.Get(p));
  }

  lemma {:induction false} RunStaysCapped(w: World, steps: seq<Step>)
    requires Capped(w)
    ensures Capped(Run(w, steps))
    decreases |steps|
  {
    hide Next;
    if steps != [] {
      CapStays(w, steps[0]);
      RunStaysCapped(Next(w, steps[0]), steps[1..]);
    }
  }

  /** None of the numbers the head of an inbox passes over is cached. */
  lemma HeadPassesUncached(w: World, p: Party, e: nat, synced: bool)
    requires InStep(w, e, synced) && w.inbox.Get(p) != []
    ensures var s, h := w.ends.Get(p), w.inbox.Get(p)[0].env.header;
      && ParseKey(h.dh).Some? && ReceivingChain(s, ParseKey(h.dh).value).Some?
      && Uncached(s.skipped, h.dh, ReceivingChain(s, ParseKey(h.dh).value).value.step, h.ns)
  {
    var x := Sender(e);
    var s, o, q := w.ends.Get(p), w.ends.Get(p.Other()), w.inbox.Get(p);
    var r := if p == x then e - 1 else if synced then e else e - 2;
    hide InboxOk, Root, ChainStart, MemoryBehind, Session.Ad;
    Head(q, w.hist, r, StepOf(s.ckr), p != x && !synced, if p == x then e - 1 else e, o.ns);
    var h := q[0].env.header;
    ParseKeyReadsKeyText(w.hist.keys[q[0].epoch]);
    ToComeIsUncached(s, w.hist.keys, r, q[0].epoch, if q[0].epoch == r then StepOf(s.ckr) else 0, h.ns);
    assert q[0].epoch != r ==> w.hist.keys[r] != w.hist.keys[q[0].epoch];
  }

  /** In every agreement run the cache of whoever takes a delivery is the
      newest MAX_SKIPPED of its old entries followed by the keys passed over. */
  lemma {:induction false} CacheInAgreement(
      aIk: string, bIk: string, spk: string, opk: Option<string>, eph: string, steps: seq<Step>, p: Party, gen: string)
    requires IsKeyText(spk) && IsKeyText(eph) && spk != eph
    requires AllAllowed(Begin(aIk, bIk, spk, opk, eph), steps)
    requires var w := Run(Begin(aIk, bIk, spk, opk, eph), steps);
      w.inbox.Get(p) != [] && w.ends.Get(p).Decrypt(w.inbox.Get(p)[0].env, gen).1.Ok?
    ensures var w := Run(Begin(aIk, bIk, spk, opk, eph), steps); var env := w.inbox.Get(p)[0].env;
      var s, s' := w.ends.Get(p), w.ends.Get(p).Decrypt(env, gen).0;
      && ParseKey(env.header.dh).Some? && ReceivingChain(s, ParseKey(env.header.dh).value).Some?
      && CacheLaw(s, s', ReceivingChain(s, ParseKey(env.header.dh).value).value, env.header.dh, env.header.ns)
  {
    BeginInStep(aIk, bIk, spk, opk, eph);
    BeginIsFresh(aIk, bIk, spk, opk, eph);
    hide *;
    var w := Run(Begin(aIk, bIk, spk, opk, eph), steps);
    var e, synced := RunKeeps(Begin(aIk, bIk, spk, opk, eph), steps, 1, true);
    RunStaysCapped(Begin(aIk, bIk, spk, opk, eph), steps);
    HeadPassesUncached(w, p, e, synced);
    CappedEnd(w, p);
    AcceptedMessage(w.ends.Get(p), w.inbox.Get(p)[0].env, gen);
  }

  lemma BeginIsFresh(aIk: string, bIk: string, spk: string, opk: Option<string>, eph: string)
    ensures Capped(Begin(aIk, bIk, spk, opk, eph)) && AllAsSent(Begin(aIk, bIk, spk, opk, eph).log)
  {
  }

  lemma CappedEnd(w: World, p: Party)
    requires Capped(w)
    ensures |w.ends.Get(p).skipped| <= MAX_SKIPPED
  {
  }

  // ---- Saving and restoring ----

  function WithoutReloads(steps: seq<Step>): seq<Step>
    decreases |steps|
  {
    if steps == [] then []
    else (if steps[0].Reload? then [] else [steps[0]]) + WithoutReloads(steps[1..])
  }

  /** Two sessions that differ in replay memory only. */
  predicate SameBut(s: Session, t: Session) {
    s == t.(seen := s.seen)
  }

  /** Two worlds that differ in replay memories only. */
  predicate Alike(w: World, v: World) {
    w.hist == v.hist && w.inbox == v.inbox && w.log == v.log
    && SameBut(w.ends.alice, v.ends.alice) && SameBut(w.ends.bob, v.ends.bob)
  }

  lemma RatchetIgnoresMemory(s: Session, t: Session, gen: string)
    requires SameBut(s, t)
    ensures match s.RatchetSend(gen)
            case Err(e) => t.RatchetSend(gen) == Err(e)
            case Ok(s') => t.RatchetSend(gen).Ok? && SameBut(s', t.RatchetSend(gen).value)
  {
  }

  lemma SealIgnoresMemory(s: Session, t: Session, text: string)
    requires SameBut(s, t)
    ensures SameBut(s.Seal(text).0, t.Seal(text).0) && s.Seal(text).1 == t.Seal(text).1
  {
    assert s.Ad() == t.Ad();
  }

  lemma EncryptIgnoresMemory(s: Session, t: Session, text: string, gen: string)
    requires SameBut(s, t)
    ensures SameBut(s.Encrypt(text, gen).0, t.Encrypt(text, gen).0)
    ensures s.Encrypt(text, gen).1 == t.Encrypt(text, gen).1 && s.ForcesRotation() == t.ForcesRotation()
  {
    hide Session.RatchetSend, Session.Seal;
    RatchetIgnoresMemory(s, t, gen);
    if s.ReadyToSend(gen).Ok? {
      var s1, t1 := s.ReadyToSend(gen).value, t.ReadyToSend(gen).value;
      RatchetIgnoresMemory(s1, t1, gen);
      if s1.RotationDue() {
        if s1.RatchetSend(gen).Ok? { SealIgnoresMemory(s1.RatchetSend(gen).value, t1.RatchetSend(gen).value, text); }
      } else {
        SealIgnoresMemory(s1, t1, text);
      }
    }
  }

  /** A decryption of something neither seen nor cached does not depend on the memory. */
  lemma DecryptIgnoresMemory(s: Session, t: Session, env: Envelope, gen: string)
    requires SameBut(s, t) && Find(s.skipped, ShowId(env.header.dh, env.header.ns)).None?
    requires MsgId(env.header.dh, env.header.ns) !in s.seen && MsgId(env.header.dh, env.header.ns) !in t.seen
    ensures SameBut(s.Decrypt(env, gen).0, t.Decrypt(env, gen).0) && s.Decrypt(env, gen).1 == t.Decrypt(env, gen).1
  {
    hide ShowId, Find;
    if ParseKey(env.header.dh).Some? {
      var their := ParseKey(env.header.dh).value;
      if s.dhr == Some(their) {
        ReceiveIgnoresMemory(s, t, env);
      } else if s.dhs.Some? && s.rk.Some? {
        ReceiveIgnoresMemory(s.(pn := env.header.pn).RatchetReceive(their, gen).value,
                             t.(pn := env.header.pn).RatchetReceive(their, gen).value, env);
      }
    }
  }

  lemma ReceiveIgnoresMemory(s: Session, t: Session, env: Envelope)
    requires SameBut(s, t)
    requires MsgId(env.header.dh, env.header.ns) !in s.seen && MsgId(env.header.dh, env.header.ns) !in t.seen
    ensures SameBut(s.ReceiveOnChain(env).0, t.ReceiveOnChain(env).0)
        && s.ReceiveOnChain(env).1 == t.ReceiveOnChain(env).1
  {
    hide SkipTo, Remember;
    assert s.Ad() == t.Ad();
  }

  lemma HeadIsUnknown(w: World, p: Party, e: nat, synced: bool)
    requires InStep(w, e, synced) && w.inbox.Get(p) != []
    ensures var s, h := w.ends.Get(p), w.inbox.Get(p)[0].env.header;
      MsgId(h.dh, h.ns) !in s.seen && Find(s.skipped, ShowId(h.dh, h.ns)).None?
  {
    var x := Sender(e);
    var s, o, q := w.ends.Get(p), w.ends.Get(p.Other()), w.inbox.Get(p);
    var r := if p == x then e - 1 else if synced then e else e - 2;
    hide InboxOk, Root, ChainStart, MemoryBehind, Sending, Receiving, Find, ShowId;
    Head(q, w.hist, r, StepOf(s.ckr), p != x && !synced, if p == x then e - 1 else e, o.ns);
    ToComeIsUnknown(s, w.hist, r, q[0]);
  }

  lemma AlikeSend(w: World, v: World, p: Party, text: string, gen: string)
    requires Alike(w, v)
    ensures var step := Send(p, text, gen);
      Alike(Next(w, step), Next(v, step)) && (Allowed(w, step) ==> Allowed(v, step))
  {
    EncryptIgnoresMemory(w.ends.Get(p), v.ends.Get(p), text, gen);
    hide Session.Encrypt, Session.ForcesRotation, IndexOf, IsKeyText;
  }

  lemma AlikeDeliver(w: World, v: World, p: Party, gen: string)
    requires Alike(w, v) && w.inbox.Get(p) != []
    requires var s, t, h := w.ends.Get(p), v.ends.Get(p), w.inbox.Get(p)[0].env.header;
      && Find(s.skipped, ShowId(h.dh, h.ns)).None?
      && MsgId(h.dh, h.ns) !in s.seen && MsgId(h.dh, h.ns) !in t.seen
    ensures Alike(Next(w, Deliver(p, gen)), Next(v, Deliver(p, gen)))
  {
    DecryptIgnoresMemory(w.ends.Get(p), v.ends.Get(p), w.inbox.Get(p)[0].env, gen);
    hide Session.Decrypt, Find, ShowId;
  }

  lemma AlikeStep(w: World, v: World, step: Step, e: nat, synced: bool, f: nat, synced': bool)
    requires Alike(w, v) && InStep(w, e, synced) && InStep(v, f, synced') && !step.Reload?
    ensures Alike(Next(w, step), Next(v, step)) && (Allowed(w, step) ==> Allowed(v, step))
  {
    hide Session.Encrypt, Session.Decrypt, Session.ForcesRotation, IndexOf, Noted, InStep, Find, ShowId, IsKeyText;
    match step
    case Send(p, text, gen) => AlikeSend(w, v, p, text, gen);
    case Deliver(p, gen) =>
      if w.inbox.Get(p) != [] {
        HeadIsUnknown(w, p, e, synced);
        HeadIsUnknown(v, p, f, synced');
        AlikeDeliver(w, v, p, gen);
      }
    case Drop(p) =>
  }

  lemma AlikeReload(w: World, v: World, p: Party)
    requires Alike(w, v)
    ensures Alike(Next(w, Reload(p)), v)
  {
    ReloadedIs(w, p);
    hide Next, Restored;
  }

  lemma {:induction false} ReloadsAreInvisible(w: World, v: World, steps: seq<Step>, e: nat, synced: bool, f: nat,
        synced': bool)
    requires Alike(w, v) && InStep(w, e, synced) && InStep(v, f, synced') && AllAllowed(w, steps)
    ensures AllAllowed(v, WithoutReloads(steps)) && Alike(Run(w, steps), Run(v, WithoutReloads(steps)))
    decreases |steps|
  {
    hide Alike, InStep, Next, Allowed, AsSent;
    if steps != [] {
      var step, rest := steps[0], steps[1..];
      var e1, s1 := StepKeeps(w, step, e, synced);
      if step.Reload? {
        AlikeReload(w, v, step.who);
        ReloadsAreInvisible(Next(w, step), v, rest, e1, s1, f, synced');
        assert WithoutReloads(steps) == WithoutReloads(rest);
      } else {
        AlikeStep(w, v, step, e, synced, f, synced');
        var f1, s2 := StepKeeps(v, step, f, synced');
        ReloadsAreInvisible(Next(w, step), Next(v, step), rest, e1, s1, f1, s2);
        assert WithoutReloads(steps) == [step] + WithoutReloads(rest);
        assert WithoutReloads(steps)[1..] == WithoutReloads(rest);
      }
    }
  }

  /** Inserting saves followed by restores anywhere in an agreement run changes
      nothing that is delivered: the log is that of the run without them. */
  lemma {:induction false} ReloadsChangeNoPlaintext(
      aIk: string, bIk: string, spk: string, opk: Option<string>, eph: string, steps: seq<Step>)
    requires IsKeyText(spk) && IsKeyText(eph) && spk != eph
    requires AllAllowed(Begin(aIk, bIk, spk, opk, eph), steps)
    ensures AllAllowed(Begin(aIk, bIk, spk, opk, eph), WithoutReloads(steps))
    ensures Run(Begin(aIk, bIk, spk, opk, eph), steps).log
         == Run(Begin(aIk, bIk, spk, opk, eph), WithoutReloads(steps)).log
  {
    BeginInStep(aIk, bIk, spk, opk, eph);
    var w := Begin(aIk, bIk, spk, opk, eph);
    hide Begin, InStep, Run, AllAllowed;
    ReloadsAreInvisible(w, w, steps, 1, true, 1, true);
  }

  // ---- A header key that comes back ----

  /** The first message under a new header key caches nothing. */
  lemma FirstOfNewChain(s: Session, env: Envelope, gen: string)
    requires s.dhs.Some? && s.rk.Some? && env.header.ns == 0
    requires Find(s.skipped, ShowId(env.header.dh, 0)).None? && |s.seen| < SEEN_LIMIT
    requires ParseKey(env.header.dh).Some? && s.dhr != ParseKey(env.header.dh)
    ensures var s' := s.Decrypt(env, gen).0;
      && s'.skipped == s.skipped && s'.seen <= s.seen + {MsgId(env.header.dh, 0)}
      && s'.dhr == ParseKey(env.header.dh) && s'.dhs.Some? && s'.rk.Some? && s'.Ad() == s.Ad()
  {
    hide ShowId, Find;
    var t := s.(pn := env.header.pn).RatchetReceive(ParseKey(env.header.dh).value, gen).value;
    DecryptRatchets(s, env, gen, t);
    hide Session.Decrypt, Largest;
  }

  /** Number 2 of Bob's first chain, taken first. */
  lemma SecondNumberCachesTwo(s: Session, env: Envelope, gen: string, k: string)
    requires s.skipped == [] && s.seen == {} && s.dhr == Some(k) && s.ckr.Some? && s.ckr.value.step == 0 && IsKeyText(k)
    requires env.header.dh == k && env.header.ns == 2
    requires s.Decrypt(env, gen).1.Ok?
    ensures var s' := s.Decrypt(env, gen).0;
      && |s'.skipped| == 2 && s'.skipped[0].id == ShowId(k, 0) && s'.skipped[1].id == ShowId(k, 1)
      && s'.seen == {MsgId(k, 2)} && s'.dhr == s.dhr && s'.dhs == s.dhs && s'.rk == s.rk && s'.Ad() == s.Ad()
  {
    ParseKeyReadsKeyText(k);
    var c := s.ckr.value;
    var c1, cache1 := c.Advance(s.Ad()), StoreSkipped(c, [], k, s.Ad());
    var c2, cache2 := c1.Advance(s.Ad()), StoreSkipped(c1, cache1, k, s.Ad());
    assert SkipTo(c, [], k, 2, s.Ad()) == SkipTo(c1, cache1, k, 2, s.Ad()) == SkipTo(c2, cache2, k, 2, s.Ad());
    assert SkipTo(c2, cache2, k, 2, s.Ad()) == (c2, cache2);
    ShowIdIsInjective(k, 0, k, 1);
    assert s.Decrypt(env, gen) == s.ReceiveOnChain(env);
    hide SkipTo, Session.Decrypt, ShowId, Largest;
  }

  /** The envelope of number n of a chain. */
  function NumberOf(from: Chain, k: string, n: int, ad: string, text: string): Envelope {
    Envelope(Header(k, 0, n), Sealed(Walk(from, n, ad).MessageKeyHere(ad), ad + text))
  }

  /** A key that comes back finds its numbers cached. */
  lemma ComesBack(s: Session, k: string, gen: string)
    requires s.dhs.Some? && s.rk.Some? && s.dhr != Some(k) && IsKeyText(k)
    requires |s.skipped| == 2 && s.skipped[0].id == ShowId(k, 0) && s.skipped[1].id == ShowId(k, 1)
    requires MsgId(k, 3) !in s.seen
    ensures ReceivingChain(s, k).Some? && ReceivingChain(s, k).value.step == 0
    ensures var from := ReceivingChain(s, k).value; var env := NumberOf(from, k, 3, s.Ad(), "two");
      s.Decrypt(env, gen).1 == Ok("two") && !CacheLaw(s, s.Decrypt(env, gen).0, from, k, 3)
  {
    var from := ReceivingChain(s, k).value;
    var env := NumberOf(from, k, 3, s.Ad(), "two");
    ParseKeyReadsKeyText(k);
    ShowIdIsInjective(k, 3, k, 0);
    ShowIdIsInjective(k, 3, k, 1);
    assert s.skipped[0] in s.skipped;
    assert Find(s.skipped, ShowId(k, 0)).Some?;
    assert Find(s.skipped, ShowId(k, 3)).None?;
    assert !Uncached(s.skipped, k, 0, 3);
    hide Session.Decrypt, Walk, ShowId, ParseKey, Session.Ad, CacheLaw, Uncached, Find;
    DecryptExactly(s, env, gen, "two");
    AcceptedMessage(s, env, gen);
  }

  /** The cache law needs its condition. Bob takes number 2 under key k, which
      caches 0 and 1; then a message under another key starts another chain;
      then k comes back, and its number 3 is accepted on a new chain, but 0 and
      1, being cached under the same names, are not stored again. */
  lemma {:induction false} ReturningKeyBreaksTheLaw(
      sk: Key, ik: string, spk: string, theirIk: string, k: string, k2: string, box: SealedBox,
      g1: string, g2: string, g3: string)
    requires IsKeyText(k) && IsKeyText(k2) && k != k2
    ensures var s0 := StartAsBob(sk, ik, spk, theirIk, k);
      var (s1, r1) := s0.Decrypt(NumberOf(s0.ckr.value, k, 2, s0.Ad(), "one"), g1);
      var s2 := s1.Decrypt(Envelope(Header(k2, 0, 0), box), g2).0;
      && r1 == Ok("one") && ReceivingChain(s2, k).Some?
      && var from := ReceivingChain(s2, k).value;
         var (s3, r3) := s2.Decrypt(NumberOf(from, k, 3, s2.Ad(), "two"), g3);
         r3 == Ok("two") && !CacheLaw(s2, s3, from, k, 3)
  {
    var s0 := StartAsBob(sk, ik, spk, theirIk, k);
    hide Session.Decrypt, Walk, Session.Ad, ParseKey, ReceivingChain, CacheLaw, ShowId;
    var e1, e2 := NumberOf(s0.ckr.value, k, 2, s0.Ad(), "one"), Envelope(Header(k2, 0, 0), box);
    FirstIsAccepted(sk, ik, spk, theirIk, k, g1);
    SecondNumberCachesTwo(s0, e1, g1, k);
    var s1 := s0.Decrypt(e1, g1).0;
    TwoCached(s1, k, k2);
    ParseKeyReadsKeyText(k2);
    hide *;
    FirstOfNewChain(s1, e2, g2);
    ComesBack(s1.Decrypt(e2, g2).0, k, g3);
  }

  lemma FirstIsAccepted(sk: Key, ik: string, spk: string, theirIk: string, k: string, gen: string)
    requires IsKeyText(k)
    ensures var s := StartAsBob(sk, ik, spk, theirIk, k);
      s.Decrypt(NumberOf(s.ckr.value, k, 2, s.Ad(), "one"), gen).1 == Ok("one")
  {
    ParseKeyReadsKeyText(k);
    var s := StartAsBob(sk, ik, spk, theirIk, k);
    hide Session.Decrypt, Walk, ShowId, ParseKey, Session.Ad;
    DecryptExactly(s, NumberOf(s.ckr.value, k, 2, s.Ad(), "one"), gen, "one");
  }

  lemma TwoCached(s: Session, k: string, k2: string)
    requires |s.skipped| == 2 && s.skipped[0].id == ShowId(k, 0) && s.skipped[1].id == ShowId(k, 1) && k != k2
    ensures Find(s.skipped, ShowId(k2, 0)).None?
  {
    ShowIdIsInjective(k2, 0, k, 0);
    ShowIdIsInjective(k2, 0, k, 1);
  }
}
