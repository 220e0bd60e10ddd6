/** The headers one session emits over every run: numbers count the messages
    of a sending chain, `pn` is the length of the chain before it, and no
    (dh, ns) pair is ever emitted twice. */
module Headers {
  import opened Text
  import opened Crypto
  import opened Ratchet
  import opened RatchetRuns

  /** The headers sent, in order. */
  function Emitted(s: Session, ops: seq<Op>): seq<Header> {
    if ops == [] then []
    else
      var n := |ops| - 1;
      Emitted(s, ops[..n])
      + match Do(After(s, ops[..n]), ops[n]).1 { case Sent(env) => [env.header] case _ => [] }
  }

  /** What section 3.4 of "The Double Ratchet Algorithm" asks of a header, read off the list alone. */
  predicate Disciplined(hs: seq<Header>) {
    forall j | 0 <= j < |hs| ::
      if j == 0 then hs[j].ns == 0 && hs[j].pn == 0
      else if hs[j].dh == hs[j - 1].dh then hs[j].ns == hs[j - 1].ns + 1 && hs[j].pn == hs[j - 1].pn
      else hs[j].ns == 0 && hs[j].pn == hs[j - 1].ns + 1
  }

  predicate NoneTwice(hs: seq<Header>) {
    forall i, j | 0 <= i < j < |hs| :: hs[i].dh != hs[j].dh || hs[i].ns != hs[j].ns
  }

  function GenOf(op: Op): Option<string> {
    if op.SaveAndRestore? then None else Some(op.gen)
  }

  predicate Known(k: string, s: Session, ops: seq<Op>) {
    s.dhs == Some(k) || exists i | 0 <= i < |ops| :: GenOf(ops[i]) == Some(k)
  }

  /** Generated key pairs are new ones. */
  predicate FreshKeys(s: Session, ops: seq<Op>) {
    forall i | 0 <= i < |ops| && GenOf(ops[i]).Some? :: !Known(GenOf(ops[i]).value, s, ops[..i])
  }

  // ---- One operation ----

  /** The shape every started session keeps. */
  predicate Ready(s: Session) {
    && s.rk.Some? && s.dhs.Some? && s.dhr.Some?
    && (s.pendingSend <==> s.dhFresh)
    && (s.cks.None? ==> s.ckr.Some? && s.ns == 0)
    && (s.cks.Some? ==> s.cks.value.step == s.ns)
  }

  /** Exactly when an encryption starts a new sending chain. */
  predicate StartsChain(s: Session) {
    s.pendingSend || s.cks.None? || s.RotationDue()
  }

  /** A ready session always encrypts; its header follows from the decision to
      start a chain, and the sending side afterwards from the header. */
  lemma EncryptHeader(s: Session, text: string, gen: string)
    requires Ready(s)
    ensures var (s', r) := s.Encrypt(text, gen);
      && r.Ok? && Ready(s') && !s'.pendingSend
      && r.value.header == (if StartsChain(s)
                            then Header(if s.dhFresh then s.dhs.value else gen, s.ns, 0)
                            else Header(s.dhs.value, s.pn, s.ns))
      && s'.dhs == Some(r.value.header.dh) && s'.pn == r.value.header.pn && s'.ns == r.value.header.ns + 1
      && s'.ckr == s.ckr && s'.dhr == s.dhr && s'.seen == s.seen && s'.skipped == s.skipped
  {
  }

  /** Which of three ways an encryption goes. A session that answers, or has no
      sending chain yet, starts one with the key it generated on receipt or a
      new one; one that has sent a hundred messages on its chain and has heard
      of the other end starts one with a new key; any other goes on with its
      chain. The root steps exactly when a chain starts. */
  lemma EncryptExactly(s: Session, text: string, gen: string)
    requires Ready(s)
    ensures var (s', r) := s.Encrypt(text, gen);
      var own := if s.pendingSend then s.dhs.value else gen;
      var step := Dh(own, s.dhr.value);
      && r.Ok? && s'.dhr == s.dhr && s'.ckr == s.ckr && s'.nr == s.nr
      && if s.pendingSend || s.cks.None? || (s.ns >= 100 && s.ckr.Some?)
         then r.value == Envelope(Header(own, s.ns, 0),
                                  Sealed(MessageKey(StepChain(s.rk.value, step), s.Ad()), s.Ad() + text))
              && s'.rk == Some(StepRoot(s.rk.value, step)) && s'.dhs == Some(own)
              && s'.cks == Some(Chain(StepChain(s.rk.value, step), 0).Advance(s.Ad())) && s'.ns == 1 && s'.pn == s.ns
         else r.value == Envelope(Header(s.dhs.value, s.pn, s.ns),
                                  Sealed(MessageKey(s.cks.value.key, s.Ad()), s.Ad() + text))
              && s'.rk == s.rk && s'.dhs == s.dhs
              && s'.cks == Some(s.cks.value.Advance(s.Ad())) && s'.ns == s.ns + 1 && s'.pn == s.pn
  {
  }

  /** A session that was never started neither encrypts nor changes. */
  lemma UnstartedRefuses(s: Session, text: string, gen: string)
    requires s.cks.None? && (s.ckr.None? || s.dhr.None?) && !s.pendingSend
    ensures s.Encrypt(text, gen) == (s, Err(NoSendingChain))
  {
  }

  /** A decryption leaves the sending chain and its number alone; it may only
      replace the header key by the generated one and ask for a new chain. */
  lemma DecryptKeepsSending(s: Session, env: Envelope, gen: string)
    requires Ready(s)
    ensures var s' := s.Decrypt(env, gen).0;
      && Ready(s') && s'.cks == s.cks && s'.ns == s.ns
      && (|| (s'.dhs == Some(gen) && s'.pendingSend)
          || (s'.dhs == s.dhs && s'.pn == s.pn && s'.pendingSend == s.pendingSend))
  {
    var h := env.header;
    if Find(s.skipped, ShowId(h.dh, h.ns)).None? && ParseKey(h.dh).Some? {
      var their := ParseKey(h.dh).value;
      if s.dhr == Some(their) {
        ReceiveKeepsSending(s, env);
      } else {
        ReceiveKeepsSending(s.(pn := h.pn).RatchetReceive(their, gen).value, env);
      }
    }
  }

  lemma ReceiveKeepsSending(s: Session, env: Envelope)
    ensures var s' := s.ReceiveOnChain(env).0;
      s' == s.(ckr := s'.ckr, seen := s'.seen, skipped := s'.skipped) && (s.ckr.Some? ==> s'.ckr.Some?)
  {
  }

  // ---- Every run ----

  /** How the session after a run stands to the headers emitted so far. */
  predicate Tracks(t: Session, hs: seq<Header>, s: Session, ops: seq<Op>) {
    && Ready(t)
    && Known(t.dhs.value, s, ops)
    && (forall h | h in hs :: Known(h.dh, s, ops))
    && (forall h | h in hs :: h.dh == t.dhs.value ==> !t.pendingSend && h.ns < t.ns)
    && (if hs == [] then t.ns == 0 && (!t.pendingSend ==> t.pn == 0)
        else
          var last := hs[|hs| - 1];
          && t.cks.Some? && t.ns == last.ns + 1
          && (!t.pendingSend ==> t.pn == last.pn && t.dhs.value == last.dh))
  }

  lemma {:induction false} RunTracks(s: Session, ops: seq<Op>)
    requires Started(s) && FreshKeys(s, ops)
    ensures Tracks(After(s, ops), Emitted(s, ops), s, ops)
    ensures Disciplined(Emitted(s, ops)) && NoneTwice(Emitted(s, ops))
  {
    if ops != [] {
      var n := |ops| - 1;
      assert FreshKeys(s, ops[..n]) by {
        assert forall i | 0 <= i < n :: ops[..n][..i] == ops[..i];
      }
      RunTracks(s, ops[..n]);
      StepTracks(After(s, ops[..n]), Emitted(s, ops[..n]), s, ops);
    }
  }

  lemma {:induction false} StepTracks(t: Session, hs: seq<Header>, s: Session, ops: seq<Op>)
    requires ops != [] && FreshKeys(s, ops)
    requires Tracks(t, hs, s, ops[..|ops| - 1]) && Disciplined(hs) && NoneTwice(hs)
    ensures var (t', out) := Do(t, ops[|ops| - 1]);
      var hs' := hs + match out { case Sent(env) => [env.header] case _ => [] };
      Tracks(t', hs', s, ops) && Disciplined(hs') && NoneTwice(hs')
  {
    hide Session.Encrypt, Session.Decrypt, Disciplined, NoneTwice, Known;
    assert hs + [] == hs;
    var n := |ops| - 1;
    assert ops == ops[..n] + [ops[n]];
    match ops[n]
    case SaveAndRestore =>
      RestoreUndoesSave(t);
      KeepsTracks(t, Do(t, ops[n]).0, hs, s, ops[..n], ops[n]);
    case Dec(env, gen) =>
      assert GenOf(ops[n]) == Some(gen);
      DecryptKeepsSending(t, env, gen);
      KeepsTracks(t, Do(t, ops[n]).0, hs, s, ops[..n], ops[n]);
    case Enc(text, gen) =>
      assert GenOf(ops[n]) == Some(gen);
      EncryptTracks(t, hs, s, ops[..n], text, gen);
  }

  lemma KnownGrows(k: string, s: Session, ops: seq<Op>, op: Op)
    ensures Known(k, s, ops) || GenOf(op) == Some(k) ==> Known(k, s, ops + [op])
  {
    if i :| 0 <= i < |ops| && GenOf(ops[i]) == Some(k) {
      assert GenOf((ops + [op])[i]) == Some(k);
    } else if GenOf(op) == Some(k) {
      assert GenOf((ops + [op])[|ops|]) == Some(k);
    }
  }

  /** A step that sends nothing, described by what it does to the sending side. */
  lemma KeepsTracks(t: Session, t': Session, hs: seq<Header>, s: Session, ops: seq<Op>, op: Op)
    requires Tracks(t, hs, s, ops) && Ready(t')
    requires t'.cks == t.cks && t'.ns == t.ns
    requires || (t'.dhs == t.dhs && t'.pn == t.pn && t'.pendingSend == t.pendingSend)
             || (t'.pendingSend && t'.dhs == GenOf(op) && !Known(t'.dhs.value, s, ops))
    ensures Tracks(t', hs, s, ops + [op])
  {
    KnownGrows(t'.dhs.value, s, ops, op);
    forall h | h in hs ensures Known(h.dh, s, ops + [op]) { KnownGrows(h.dh, s, ops, op); }
    assert hs != [] ==> hs[|hs| - 1] in hs;
  }

  /** Appending the next header keeps the discipline; the key of a new chain has not been sent under before. */
  lemma EncryptTracks(t: Session, hs: seq<Header>, s: Session, ops: seq<Op>, text: string, gen: string)
    requires Tracks(t, hs, s, ops) && Disciplined(hs) && NoneTwice(hs)
    requires !Known(gen, s, ops)
    ensures var (t', r) := t.Encrypt(text, gen);
      && r.Ok?
      && Tracks(t', hs + [r.value.header], s, ops + [Enc(text, gen)])
      && Disciplined(hs + [r.value.header]) && NoneTwice(hs + [r.value.header])
  {
    EncryptHeader(t, text, gen);
    var (t', r) := t.Encrypt(text, gen);
    var h := r.value.header;
    forall g | g in hs ensures g.dh != h.dh || (!StartsChain(t) && g.ns < h.ns) {
      if StartsChain(t) && t.dhFresh { assert h.dh == t.dhs.value; }
    }
    AppendNoneTwice(hs, h);
    assert hs != [] ==> hs[|hs| - 1] in hs;
    AppendDisciplined(hs, h);
    var op := Enc(text, gen);
    KnownGrows(h.dh, s, ops, op);
    forall g | g in hs + [h] ensures Known(g.dh, s, ops + [op]) { KnownGrows(g.dh, s, ops, op); }
    assert t'.cks.Some?;
  }

  lemma AppendNoneTwice(hs: seq<Header>, h: Header)
    requires NoneTwice(hs) && forall g | g in hs :: g.dh != h.dh || g.ns != h.ns
    ensures NoneTwice(hs + [h])
  {
  }

  lemma AppendDisciplined(hs: seq<Header>, h: Header)
    requires Disciplined(hs)
    requires if hs == [] then h.ns == 0 && h.pn == 0
             else var last := hs[|hs| - 1];
               if h.dh == last.dh then h.ns == last.ns + 1 && h.pn == last.pn
               else h.ns == 0 && h.pn == last.ns + 1
    ensures Disciplined(hs + [h])
  {
  }

  /** Header discipline of every run of one session. */
  lemma {:induction false} HeaderDiscipline(s: Session, ops: seq<Op>)
    requires Started(s) && FreshKeys(s, ops)
    ensures Disciplined(Emitted(s, ops))
    ensures NoneTwice(Emitted(s, ops))
    ensures var t := After(s, ops); t.cks.Some? ==> t.ns == t.cks.value.step
  {
    RunTracks(s, ops);
  }
}
