/** Sessions whose roots have parted: one has taken a root step that the other
    will never take. Whatever each of them does from then on, the chains they
    start are different ones, so neither opens a box of the other's. */
module Parting {
  import opened Text
  import opened Crypto
  import opened Ratchet
  import opened RatchetRuns
  import opened Headers

  /** `root` is `above` or comes from it by root steps. */
  predicate Under(root: Key, above: Key) {
    root == above || (root.StepRoot? && Under(root.rk, above))
  }

  lemma {:induction false} UnderIsDeeper(root: Key, above: Key)
    requires Under(root, above)
    ensures Depth(above) <= Depth(root)
  {
    if root != above { UnderIsDeeper(root.rk, above); }
  }

  /** The root that was derived together with the start of a chain. */
  function RootBeside(start: Key): Key {
    match start
    case StepChain(rk, dh) => StepRoot(rk, dh)
    case InitChain(sk) => InitRoot(sk)
    case _ => start
  }

  function StartOf(c: Option<Chain>): Option<Key> {
    if c.Some? then Some(Origin(c.value.key)) else None
  }

  predicate ChainUnder(start: Option<Key>, above: Key) {
    start.Some? && Under(RootBeside(start.value), above)
  }

  /** A root step: the root before it and the two key pairs agreed. */
  datatype Branch = Branch(root: Key, a: string, b: string) {
    function Key(): Key { StepRoot(root, Dh(a, b)) }
    predicate Has(k: string) { k == a || k == b }
  }

  lemma OtherPair(k: string, l: string, br: Branch)
    requires !br.Has(k)
    ensures Dh(k, l) != Dh(br.a, br.b)
  {
  }

  // ---- What an operation does to roots and chains ----

  predicate Rests(s: Session, s': Session) {
    && s'.rk == s.rk && s'.dhs == s.dhs && s'.dhFresh == s.dhFresh
    && StartOf(s'.cks) == StartOf(s.cks) && StartOf(s'.ckr) == StartOf(s.ckr)
  }

  /** A root step with the key pair `own` starts a sending chain. */
  predicate StartsSending(s: Session, s': Session, own: string) {
    && s.rk.Some? && s.dhr.Some? && s'.rk == Some(StepRoot(s.rk.value, Dh(own, s.dhr.value)))
    && s'.dhs == Some(own) && !s'.dhFresh
    && StartOf(s'.cks) == Some(StepChain(s.rk.value, Dh(own, s.dhr.value))) && StartOf(s'.ckr) == StartOf(s.ckr)
  }

  /** A root step with some key of the other end starts a receiving chain, and a new pair is taken up. */
  predicate StartsReceiving(s: Session, s': Session, their: string, gen: string) {
    && s.rk.Some? && s.dhs.Some? && s'.rk == Some(StepRoot(s.rk.value, Dh(s.dhs.value, their)))
    && s'.dhs == Some(gen) && s'.dhFresh
    && StartOf(s'.ckr) == Some(StepChain(s.rk.value, Dh(s.dhs.value, their))) && StartOf(s'.cks) == StartOf(s.cks)
  }

  ghost predicate Moves(s: Session, s': Session, gen: Option<string>) {
    || Rests(s, s')
    || (gen.Some? && StartsSending(s, s', if s.dhFresh && s.dhs.Some? then s.dhs.value else gen.value))
    || (gen.Some? && exists their :: StartsReceiving(s, s', their, gen.value))
  }

  lemma EncryptMoves(s: Session, text: string, gen: string)
    requires Ready(s)
    ensures var (s', r) := s.Encrypt(text, gen);
      && Ready(s') && Moves(s, s', Some(gen)) && !s'.dhFresh
      && r.Ok? && r.value.box.Sealed? && r.value.box.key.MessageKey?
      && Some(Origin(r.value.box.key.chain)) == StartOf(s'.cks)
  {
    if StartsChain(s) {
      var t := s.RatchetSend(gen).value;
      assert s.Encrypt(text, gen) == t.Seal(text) && Origin(t.cks.value.key) == t.cks.value.key;
      assert StartsSending(s, s.Encrypt(text, gen).0, if s.dhFresh then s.dhs.value else gen);
    } else {
      assert s.Encrypt(text, gen) == s.Seal(text);
      assert Rests(s, s.Encrypt(text, gen).0);
    }
  }

  lemma {:induction false} SkipToKeepsStart(chain: Chain, cache: seq<Skipped>, dh: string, ns: int, ad: string)
    ensures Origin(SkipTo(chain, cache, dh, ns, ad).0.key) == Origin(chain.key)
    decreases ns - chain.step
  {
    if chain.step < ns {
      SkipToKeepsStart(chain.Advance(ad), StoreSkipped(chain, cache, dh, ad), dh, ns, ad);
    }
  }

  predicate OpensOn(box: SealedBox, ckr: Option<Chain>) {
    box.Sealed? && box.key.MessageKey? && Some(Origin(box.key.chain)) == StartOf(ckr)
  }

  lemma ReceiveMoves(s: Session, env: Envelope)
    ensures var (s', r) := s.ReceiveOnChain(env);
      Rests(s, s') && (r.Ok? ==> OpensOn(env.box, s'.ckr))
  {
    if s.ckr.Some? && s.ckr.value.step <= env.header.ns <= s.ckr.value.step + MAX_SKIP_GAP {
      SkipToKeepsStart(s.ckr.value, s.skipped, env.header.dh, env.header.ns, s.Ad());
      var (chain, cache) := SkipTo(s.ckr.value, s.skipped, env.header.dh, env.header.ns, s.Ad());
      OpenMoves(s.(ckr := Some(chain.Advance(s.Ad())), skipped := cache), env, chain.MessageKeyHere(s.Ad()));
      assert Origin(chain.Advance(s.Ad()).key) == Origin(chain.key);
      hide SkipTo, Session.OpenWith;
    }
  }

  lemma OpenMoves(s: Session, env: Envelope, key: Key)
    ensures var (s', r) := s.OpenWith(env, key);
      s' == s.(seen := s'.seen) && (r.Ok? ==> env.box.Sealed? && env.box.key == key)
  {
  }

  lemma DecryptMoves(s: Session, env: Envelope, gen: string)
    requires Ready(s)
    ensures var (s', r) := s.Decrypt(env, gen);
      Ready(s') && Moves(s, s', Some(gen)) && (r.Ok? ==> OpensOn(env.box, s'.ckr))
  {
    DecryptKeepsSending(s, env, gen);
    var h := env.header;
    if Find(s.skipped, ShowId(h.dh, h.ns)).None? && ParseKey(h.dh).Some? {
      var their := ParseKey(h.dh).value;
      if s.dhr == Some(their) {
        ReceiveMoves(s, env);
      } else {
        var t := s.(pn := h.pn).RatchetReceive(their, gen).value;
        ReceiveMoves(t, env);
        assert StartsReceiving(s, t.ReceiveOnChain(env).0, their, gen);
      }
    }
  }

  lemma OpMoves(s: Session, op: Op)
    requires Ready(s)
    ensures Ready(Do(s, op).0) && Moves(s, Do(s, op).0, GenOf(op))
  {
    hide Session.Encrypt, Session.Decrypt, Session.Serialize;
    match op
    case Enc(text, gen) => EncryptMoves(s, text, gen);
    case Dec(env, gen) => DecryptMoves(s, env, gen);
    case SaveAndRestore => RestoreUndoesSave(s);
  }

  // ---- The two sides of a branch ----

  /** A session that took the branch. It seals on a chain of its own side, or
      is about to start one; the chain it reads may still be the one of before. */
  ghost predicate Inside(s: Session, br: Branch, ckr: Option<Key>) {
    && Ready(s) && Under(s.rk.value, br.Key())
    && (s.dhFresh || ChainUnder(StartOf(s.cks), br.Key()))
    && (StartOf(s.ckr) == ckr || ChainUnder(StartOf(s.ckr), br.Key()))
  }

  /** A session that did not take it and has no key pair left to take it with. */
  ghost predicate Outside(s: Session, br: Branch) {
    && Ready(s) && !Under(s.rk.value, br.Key())
    && (br.Has(s.dhs.value) ==> s.rk.value != br.root && !s.dhFresh)
    && (s.dhFresh || !ChainUnder(StartOf(s.cks), br.Key())) && !ChainUnder(StartOf(s.ckr), br.Key())
  }

  lemma InsideMoves(s: Session, s': Session, gen: Option<string>, br: Branch, ckr: Option<Key>)
    requires Inside(s, br, ckr) && Ready(s') && Moves(s, s', gen)
    ensures Inside(s', br, ckr)
  {
  }

  lemma OutsideMoves(s: Session, s': Session, gen: Option<string>, br: Branch)
    requires Outside(s, br) && Ready(s') && Moves(s, s', gen) && (gen.Some? ==> !br.Has(gen.value))
    ensures Outside(s', br)
  {
    if s'.rk != s.rk {
      var dh := s'.rk.value.dh;
      assert dh == Dh(br.a, br.b) ==> s.rk.value != br.root;
    }
  }

  /** It reads no chain of the branch after this either, whatever key pair it took up. */
  lemma OutsideReads(s: Session, s': Session, gen: Option<string>, br: Branch)
    requires Outside(s, br) && Moves(s, s', gen)
    ensures !ChainUnder(StartOf(s'.ckr), br.Key())
  {
    if s'.rk != s.rk && StartOf(s'.ckr) != StartOf(s.ckr) {
      var dh := s'.rk.value.dh;
      assert dh == Dh(br.a, br.b) ==> s.rk.value != br.root;
    }
  }

  lemma {:induction false} InsideRun(s: Session, ops: seq<Op>, br: Branch, ckr: Option<Key>)
    requires Inside(s, br, ckr)
    ensures Inside(After(s, ops), br, ckr)
  {
    hide Do, Inside;
    if ops != [] {
      var n := |ops| - 1;
      InsideRun(s, ops[..n], br, ckr);
      InsideDo(After(s, ops[..n]), ops[n], br, ckr);
    }
  }

  lemma InsideDo(s: Session, op: Op, br: Branch, ckr: Option<Key>)
    requires Inside(s, br, ckr)
    ensures Inside(Do(s, op).0, br, ckr)
  {
    hide Do, Moves;
    OpMoves(s, op);
    InsideMoves(s, Do(s, op).0, GenOf(op), br, ckr);
  }

  /** No key pair generated on the way is one of the branch's. */
  predicate Avoid(ops: seq<Op>, br: Branch) {
    forall op <- ops :: GenOf(op).Some? ==> !br.Has(GenOf(op).value)
  }

  lemma {:induction false} OutsideRun(s: Session, ops: seq<Op>, br: Branch)
    requires Outside(s, br) && Avoid(ops, br)
    ensures Outside(After(s, ops), br)
  {
    hide Do, Outside;
    if ops != [] {
      var n := |ops| - 1;
      OutsideRun(s, ops[..n], br);
      OutsideDo(After(s, ops[..n]), ops[n], br);
    }
  }

  lemma OutsideDo(s: Session, op: Op, br: Branch)
    requires Outside(s, br) && (GenOf(op).Some? ==> !br.Has(GenOf(op).value))
    ensures Outside(Do(s, op).0, br)
  {
    hide Do, Moves;
    assert Ready(s);
    OpMoves(s, op);
    OutsideMoves(s, Do(s, op).0, GenOf(op), br);
  }

  // ---- Neither side opens the other's chains ----

  /** A box of a chain on the inner side is refused by the outer. */
  lemma OuterRefuses(o: Session, br: Branch, env: Envelope, gen: string)
    requires Outside(o, br)
    requires env.box.Sealed? && env.box.key.MessageKey? && ChainUnder(Some(Origin(env.box.key.chain)), br.Key())
    ensures o.Decrypt(env, gen).1.Err?
  {
    hide Session.Decrypt, Moves, Ready, Under;
    assert Ready(o);
    DecryptMoves(o, env, gen);
    OutsideReads(o, o.Decrypt(env, gen).0, Some(gen), br);
  }

  /** So is whatever the inner side seals. */
  lemma OuterRefusesInner(s: Session, o: Session, br: Branch, ckr: Option<Key>, text: string,
        gen: string, gen': string)
    requires Inside(s, br, ckr) && Outside(o, br)
    ensures var (s', r) := s.Encrypt(text, gen);
      r.Ok? && o.Decrypt(r.value, gen').1.Err?
  {
    hide Session.Encrypt, Session.Decrypt, Moves, Ready, Under;
    assert Ready(s);
    EncryptMoves(s, text, gen);
    var (s', r) := s.Encrypt(text, gen);
    InsideMoves(s, s', Some(gen), br, ckr);
    OuterRefuses(o, br, r.value, gen');
  }

  /** A box of a chain that is not the inner side's own is refused by it,
      unless that is the chain it was reading before. */
  lemma InnerRefuses(s: Session, br: Branch, ckr: Option<Key>, env: Envelope, gen: string)
    requires Inside(s, br, ckr)
    requires env.box.Sealed? && env.box.key.MessageKey?
    requires var start := Some(Origin(env.box.key.chain)); !ChainUnder(start, br.Key()) && start != ckr
    ensures s.Decrypt(env, gen).1.Err?
  {
    hide Session.Decrypt, Moves, Ready, Under;
    assert Ready(s);
    DecryptMoves(s, env, gen);
    InsideMoves(s, s.Decrypt(env, gen).0, Some(gen), br, ckr);
  }

  lemma InnerRefusesOuter(s: Session, o: Session, br: Branch, ckr: Option<Key>, text: string,
        gen: string, gen': string)
    requires Inside(s, br, ckr) && Outside(o, br) && !br.Has(gen)
    ensures var (o', r) := o.Encrypt(text, gen);
      r.Ok? && (s.Decrypt(r.value, gen').1.Err? || StartOf(o'.cks) == ckr)
  {
    hide Session.Encrypt, Session.Decrypt, Moves, Ready, Under;
    assert Ready(o);
    EncryptMoves(o, text, gen);
    var (o', r) := o.Encrypt(text, gen);
    OutsideMoves(o, o', Some(gen), br);
    if StartOf(o'.cks) != ckr { InnerRefuses(s, br, ckr, r.value, gen'); }
  }

  /** Wherever the two sides have got to since, none opens what the other
      seals there, but for the inner one reading on its chain of before. */
  lemma PartedForGood(s0: Session, o0: Session, br: Branch, ckr: Option<Key>, ops: seq<Op>, others: seq<Op>,
        text: string, k: string, k': string)
    requires Inside(s0, br, ckr) && Outside(o0, br) && Avoid(others, br) && !br.Has(k)
    ensures var s, o := After(s0, ops), After(o0, others); var (o', r) := o.Encrypt(text, k);
      && Inside(s, br, ckr) && Outside(o, br)
      && s.Encrypt(text, k').1.Ok? && o.Decrypt(s.Encrypt(text, k').1.value, k).1.Err?
      && r.Ok? && (s.Decrypt(r.value, k').1.Err? || StartOf(o'.cks) == ckr)
  {
    hide *;
    InsideRun(s0, ops, br, ckr);
    OutsideRun(o0, others, br);
    OuterRefusesInner(After(s0, ops), After(o0, others), br, ckr, text, k', k);
    InnerRefusesOuter(After(s0, ops), After(o0, others), br, ckr, text, k, k');
  }

  // ---- Chains started later ----

  /** `s` is a later state of `s0`; a sending chain that is not the one of then has a deeper root. */
  predicate Later(s0: Session, s: Session) {
    && Ready(s0) && Ready(s) && Depth(s0.rk.value) <= Depth(s.rk.value)
    && (StartOf(s.cks) == StartOf(s0.cks)
        || (s.cks.Some? && Depth(s0.rk.value) < Depth(RootBeside(StartOf(s.cks).value))))
  }

  lemma LaterMoves(s0: Session, s: Session, s': Session, gen: Option<string>)
    requires Later(s0, s) && Ready(s') && Moves(s, s', gen)
    ensures Later(s0, s')
  {
  }

  lemma {:induction false} LaterRun(s0: Session, ops: seq<Op>)
    requires Ready(s0)
    ensures Later(s0, After(s0, ops))
  {
    hide Do, Moves;
    if ops != [] {
      var n := |ops| - 1;
      LaterRun(s0, ops[..n]);
      var s := After(s0, ops[..n]);
      OpMoves(s, ops[n]);
      LaterMoves(s0, s, Do(s, ops[n]).0, GenOf(ops[n]));
    }
  }

  /** A later encryption on a chain no deeper than the root of then is on the chain of then. */
  lemma SealsAsThen(s0: Session, ops: seq<Op>, text: string, gen: string, start: Key)
    requires Ready(s0) && Depth(RootBeside(start)) <= Depth(s0.rk.value)
    ensures StartOf(After(s0, ops).Encrypt(text, gen).0.cks) == Some(start) ==> StartOf(s0.cks) == Some(start)
  {
    hide Moves, Session.Encrypt;
    LaterRun(s0, ops);
    var s := After(s0, ops);
    EncryptMoves(s, text, gen);
    LaterMoves(s0, s, s.Encrypt(text, gen).0, Some(gen));
  }
}
