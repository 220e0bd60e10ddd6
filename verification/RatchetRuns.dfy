/** What one session keeps over every run: any sequence of encryptions,
    decryptions of arbitrary envelopes (honest, replayed, altered, junk), and
    saves followed by restores, forced rotations included. */
module RatchetRuns {
  import opened Text
  import opened Crypto
  import opened Ratchet

  datatype Op =
    | Enc(text: string, gen: string)
    | Dec(env: Envelope, gen: string)
    | SaveAndRestore

  datatype Outcome = Sent(env: Envelope) | Received(text: string) | Failed(error: Error) | Restarted

  function Do(s: Session, op: Op): (Session, Outcome) {
    match op
    case Enc(text, gen) =>
      var (s', r) := s.Encrypt(text, gen);
      (s', match r { case Ok(env) => Sent(env) case Err(e) => Failed(e) })
    case Dec(env, gen) =>
      var (s', r) := s.Decrypt(env, gen);
      (s', match r { case Ok(text) => Received(text) case Err(e) => Failed(e) })
    case SaveAndRestore =>
      match Deserialize(s.Serialize()) { case Ok(s') => (s', Restarted) case Err(e) => (s, Failed(e)) }
  }

  function After(s: Session, ops: seq<Op>): Session {
    if ops == [] then s else Do(After(s, ops[..|ops| - 1]), ops[|ops| - 1]).0
  }

  /** The sealed boxes that gave up a plaintext, in order. */
  function Opened(s: Session, ops: seq<Op>): seq<SealedBox> {
    if ops == [] then []
    else
      var n := |ops| - 1;
      Opened(s, ops[..n])
      + if ops[n].Dec? && Do(After(s, ops[..n]), ops[n]).1.Received? then [ops[n].env.box] else []
  }

  ghost predicate Started(s: Session) {
    (exists sk, ik, theirIk, spk, eph :: s == StartAsAlice(sk, ik, theirIk, spk, eph))
    || (exists sk, ik, spk, theirIk, eph :: s == StartAsBob(sk, ik, spk, theirIk, eph))
  }

  // ---- Skipping along a receiving chain ----

  lemma {:induction false} SkipToArrives(chain: Chain, cache: seq<Skipped>, dh: string, ns: int, ad: string)
    requires chain.step <= ns
    ensures var c := SkipTo(chain, cache, dh, ns, ad).0;
      c.step == ns && Depth(c.key) == Depth(chain.key) && Steps(c.key) - ns == Steps(chain.key) - chain.step
    decreases ns - chain.step
  {
    if chain.step < ns {
      SkipToArrives(chain.Advance(ad), StoreSkipped(chain, cache, dh, ad), dh, ns, ad);
    }
  }

  lemma {:induction false} SkipToFollowsChain(start: Key, k: nat, cache: seq<Skipped>, dh: string, ns: int, ad: string)
    requires k <= ns
    ensures SkipTo(ChainAt(start, k, ad), cache, dh, ns, ad).0 == ChainAt(start, ns, ad)
    decreases ns - k
  {
    if k < ns {
      assert ChainAt(start, k, ad).Advance(ad) == ChainAt(start, k + 1, ad);
      SkipToFollowsChain(start, k + 1, StoreSkipped(ChainAt(start, k, ad), cache, dh, ad), dh, ns, ad);
    }
  }

  // ---- Replay safety ----

  /** The receiving chain counts its own steps, and the root is at least as deep. */
  predicate Ranked(s: Session) {
    && s.rk.Some?
    && (s.ckr.Some? ==>
          && Steps(s.ckr.value.key) == s.ckr.value.step
          && Depth(s.ckr.value.key) <= Depth(s.rk.value))
  }

  /** Lexicographic order of receiving positions: depth of the chain, then number. */
  predicate Reached(before: Option<Chain>, after: Option<Chain>) {
    before.Some? ==>
      && after.Some?
      && (Depth(before.value.key) < Depth(after.value.key)
          || (Depth(before.value.key) == Depth(after.value.key) && before.value.step <= after.value.step))
  }

  /** The receiving position is past the one that produced the message key of `box`. */
  predicate Spent(box: SealedBox, ckr: Option<Chain>) {
    && box.Sealed? && box.key.MessageKey? && ckr.Some?
    && (Depth(box.key.chain) < Depth(ckr.value.key)
        || (Depth(box.key.chain) == Depth(ckr.value.key) && Steps(box.key.chain) < ckr.value.step))
  }

  /** One operation never moves the receiving position back, and a plaintext is
      only returned for a key that position had not passed before and has passed after. */
  lemma StepAdvances(s: Session, op: Op)
    requires Ranked(s)
    ensures Ranked(Do(s, op).0)
    ensures Reached(s.ckr, Do(s, op).0.ckr)
    ensures op.Dec? && Do(s, op).1.Received? ==> !Spent(op.env.box, s.ckr) && Spent(op.env.box, Do(s, op).0.ckr)
  {
    match op
    case Enc(text, gen) => EncryptKeepsReceiving(s, text, gen);
    case SaveAndRestore => RestoreUndoesSave(s);
    case Dec(env, gen) => DecryptAdvances(s, env, gen);
  }

  lemma EncryptKeepsReceiving(s: Session, text: string, gen: string)
    requires s.rk.Some?
    ensures var s' := s.Encrypt(text, gen).0;
      s'.ckr == s.ckr && s'.rk.Some? && Depth(s.rk.value) <= Depth(s'.rk.value)
  {
  }

  lemma DecryptAdvances(s: Session, env: Envelope, gen: string)
    requires Ranked(s)
    ensures var (s', r) := s.Decrypt(env, gen);
      Ranked(s') && Reached(s.ckr, s'.ckr) && (r.Ok? ==> !Spent(env.box, s.ckr) && Spent(env.box, s'.ckr))
  {
    var h := env.header;
    if Find(s.skipped, ShowId(h.dh, h.ns)).None? && ParseKey(h.dh).Some? {
      var their := ParseKey(h.dh).value;
      if s.dhr == Some(their) {
        ReceiveAdvances(s, env);
      } else if s.dhs.Some? {
        var t := s.(pn := h.pn).RatchetReceive(their, gen).value;
        assert Ranked(t) && Reached(s.ckr, t.ckr);
        ReceiveAdvances(t, env);
      }
    }
  }

  lemma ReceiveAdvances(s: Session, env: Envelope)
    requires Ranked(s)
    ensures var (s', r) := s.ReceiveOnChain(env);
      Ranked(s') && Reached(s.ckr, s'.ckr) && (r.Ok? ==> !Spent(env.box, s.ckr) && Spent(env.box, s'.ckr))
  {
    if s.ckr.Some? && s.ckr.value.step <= env.header.ns <= s.ckr.value.step + MAX_SKIP_GAP {
      SkipToArrives(s.ckr.value, s.skipped, env.header.dh, env.header.ns, s.Ad());
      var (chain, cache) := SkipTo(s.ckr.value, s.skipped, env.header.dh, env.header.ns, s.Ad());
      OpenAdvances(s.(ckr := Some(chain.Advance(s.Ad())), skipped := cache), env, chain.MessageKeyHere(s.Ad()));
      hide SkipTo, Session.OpenWith;
    }
  }

  lemma OpenAdvances(s: Session, env: Envelope, key: Key)
    ensures var (s', r) := s.OpenWith(env, key);
      s'.ckr == s.ckr && s'.rk == s.rk && (r.Ok? ==> env.box.Sealed? && env.box.key == key)
  {
  }

  predicate AllSpent(boxes: seq<SealedBox>, ckr: Option<Chain>) {
    forall b | b in boxes :: Spent(b, ckr)
  }

  predicate NoBoxTwice(boxes: seq<SealedBox>) {
    forall i, j | 0 <= i < j < |boxes| :: boxes[i] != boxes[j]
  }

  lemma {:induction false} RunAdvances(s: Session, ops: seq<Op>)
    requires Ranked(s)
    ensures Ranked(After(s, ops)) && Reached(s.ckr, After(s, ops).ckr)
    ensures AllSpent(Opened(s, ops), After(s, ops).ckr) && NoBoxTwice(Opened(s, ops))
  {
    hide Do;
    if ops != [] {
      var n := |ops| - 1;
      RunAdvances(s, ops[..n]);
      var t := After(s, ops[..n]);
      StepAdvances(t, ops[n]);
      assert forall b | b in Opened(s, ops[..n]) :: Spent(b, t.ckr) ==> Spent(b, Do(t, ops[n]).0.ckr);
    }
  }

  /** Replay safety: in any run of a session, whatever headers the envelopes
      carry and in whatever order they come, no sealed box gives up its plaintext twice. */
  lemma {:induction false} ReplaySafety(s: Session, ops: seq<Op>)
    requires Started(s)
    ensures NoBoxTwice(Opened(s, ops))
  {
    RunAdvances(s, ops);
  }
}
