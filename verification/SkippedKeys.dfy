/** Decryption, exactly: which envelopes a session accepts, what accepted and
    refused ones leave behind, and what becomes of late messages. */
module SkippedKeys {
  import opened Text
  import opened Crypto
  import opened Ratchet
  import opened RatchetRuns

  /** The last n elements. */
  function Newest<T>(xs: seq<T>, n: nat): seq<T> {
    if |xs| > n then xs[|xs| - n..] else xs
  }

  lemma NewestOfNewest<T>(a: seq<T>, b: seq<T>, n: nat)
    ensures Newest(Newest(a, n) + b, n) == Newest(a + b, n)
  {
  }

  /** The chain moved to number n. */
  function Walk(chain: Chain, n: int, ad: string): Chain
    decreases n - chain.step
  {
    if n <= chain.step then chain else Walk(chain.Advance(ad), n, ad)
  }

  /** The entries for the numbers from the chain's step up to, not including, n. */
  function Passed(chain: Chain, dh: string, n: int, ad: string): (r: seq<Skipped>)
    ensures |r| == if n <= chain.step then 0 else n - chain.step
    decreases n - chain.step
  {
    if n <= chain.step then []
    else [Skipped(ShowId(dh, chain.step), chain.MessageKeyHere(ad))] + Passed(chain.Advance(ad), dh, n, ad)
  }

  /** None of these numbers is in the cache yet. */
  predicate Uncached(cache: seq<Skipped>, dh: string, from: int, to: int) {
    forall n {:trigger ShowId(dh, n)} | from <= n < to :: Find(cache, ShowId(dh, n)).None?
  }

  /** If none of the numbers it passes is cached, the skip loop stores their keys
      at the end and keeps the newest MAX_SKIPPED entries of the insertion order. */
  lemma {:induction false} SkipToFillsCache(chain: Chain, cache: seq<Skipped>, dh: string, ns: int, ad: string)
    requires |cache| <= MAX_SKIPPED && Uncached(cache, dh, chain.step, ns)
    ensures SkipTo(chain, cache, dh, ns, ad)
         == (Walk(chain, ns, ad), Newest(cache + Passed(chain, dh, ns, ad), MAX_SKIPPED))
    decreases ns - chain.step
  {
    if chain.step < ns {
      var x := Skipped(ShowId(dh, chain.step), chain.MessageKeyHere(ad));
      var next := Push(cache, x);
      var rest := Passed(chain.Advance(ad), dh, ns, ad);
      assert StoreSkipped(chain, cache, dh, ad) == next by {
        assert Find(cache, ShowId(dh, chain.step)).None?;
      }
      PushKeepsUncached(cache, chain, dh, ns, ad);
      SkipToFillsCache(chain.Advance(ad), next, dh, ns, ad);
      NewestAfterPush(cache, x, rest);
    } else {
      assert cache + [] == cache;
    }
  }

  /** Short of the cap the condition is needed: a number that is cached already is not stored again. */
  lemma {:induction false} FillsCacheExactly(chain: Chain, cache: seq<Skipped>, dh: string, ns: int, ad: string)
    requires chain.step <= ns && |cache| + ns - chain.step <= MAX_SKIPPED
    ensures SkipTo(chain, cache, dh, ns, ad).1 == cache + Passed(chain, dh, ns, ad)
       <==> Uncached(cache, dh, chain.step, ns)
  {
    if Uncached(cache, dh, chain.step, ns) {
      SkipToFillsCache(chain, cache, dh, ns, ad);
    } else {
      SkipToFallsShort(chain, cache, dh, ns, ad);
    }
  }

  lemma {:induction false} SkipToFallsShort(chain: Chain, cache: seq<Skipped>, dh: string, ns: int, ad: string)
    requires chain.step <= ns && |cache| + ns - chain.step <= MAX_SKIPPED
    ensures |SkipTo(chain, cache, dh, ns, ad).1| <= |cache| + ns - chain.step
    ensures !Uncached(cache, dh, chain.step, ns) ==> |SkipTo(chain, cache, dh, ns, ad).1| < |cache| + ns - chain.step
    decreases ns - chain.step
  {
    hide ShowId, Find, Uncached;
    if chain.step < ns {
      var next := StoreSkipped(chain, cache, dh, ad);
      SkipToFallsShort(chain.Advance(ad), next, dh, ns, ad);
      if !Uncached(cache, dh, chain.step, ns) { StoreKeepsCached(chain, cache, dh, ns, ad); }
    } else {
      NoneIsUncached(cache, dh, chain.step);
    }
  }

  lemma NoneIsUncached(cache: seq<Skipped>, dh: string, n: int)
    ensures Uncached(cache, dh, n, n)
  {
  }

  /** A number that is cached is still cached after one skip below the cap,
      unless it is the one skipped; then nothing was stored. */
  lemma StoreKeepsCached(chain: Chain, cache: seq<Skipped>, dh: string, ns: int, ad: string)
    requires chain.step < ns && |cache| < MAX_SKIPPED && !Uncached(cache, dh, chain.step, ns)
    ensures var next := StoreSkipped(chain, cache, dh, ad);
      if Find(cache, ShowId(dh, chain.step)).Some? then next == cache
      else |next| == |cache| + 1 && !Uncached(next, dh, chain.step + 1, ns)
  {
    hide ShowId;
    var next := StoreSkipped(chain, cache, dh, ad);
    if Find(cache, ShowId(dh, chain.step)).None? {
      var n {:trigger ShowId(dh, n)} :| chain.step <= n < ns && Find(cache, ShowId(dh, n)).Some?;
      assert Skipped(ShowId(dh, n), Find(cache, ShowId(dh, n)).value) in next;
      assert Find(next, ShowId(dh, n)).Some?;
    }
  }

  lemma NewestAfterPush(cache: seq<Skipped>, x: Skipped, rest: seq<Skipped>)
    requires |cache| <= MAX_SKIPPED
    ensures Newest(Push(cache, x) + rest, MAX_SKIPPED) == Newest(cache + ([x] + rest), MAX_SKIPPED)
    ensures |Push(cache, x)| <= MAX_SKIPPED
  {
    assert Push(cache, x) == Newest(cache + [x], MAX_SKIPPED);
    NewestOfNewest(cache + [x], rest, MAX_SKIPPED);
    assert cache + [x] + rest == cache + ([x] + rest);
  }

  lemma PushKeepsUncached(cache: seq<Skipped>, chain: Chain, dh: string, ns: int, ad: string)
    requires Uncached(cache, dh, chain.step, ns)
    ensures Uncached(Push(cache, Skipped(ShowId(dh, chain.step), chain.MessageKeyHere(ad))), dh, chain.step + 1, ns)
  {
    var next := Push(cache, Skipped(ShowId(dh, chain.step), chain.MessageKeyHere(ad)));
    forall n {:trigger ShowId(dh, n)} | chain.step + 1 <= n < ns ensures Find(next, ShowId(dh, n)).None? {
      ShowIdIsInjective(dh, n, dh, chain.step);
      assert Find(cache, ShowId(dh, n)).None?;
    }
  }

  lemma {:induction false} SkipToIsBounded(chain: Chain, cache: seq<Skipped>, dh: string, ns: int, ad: string)
    requires |cache| <= MAX_SKIPPED
    ensures |SkipTo(chain, cache, dh, ns, ad).1| <= MAX_SKIPPED
    ensures SkipTo(chain, cache, dh, ns, ad).0 == Walk(chain, ns, ad)
    decreases ns - chain.step
  {
    if chain.step < ns {
      SkipToIsBounded(chain.Advance(ad), StoreSkipped(chain, cache, dh, ad), dh, ns, ad);
    }
  }

  lemma WalkStep(chain: Chain, n: int, ad: string)
    requires chain.step <= n
    ensures Walk(chain, n, ad).step == n
    decreases n - chain.step
  {
    if chain.step < n { WalkStep(chain.Advance(ad), n, ad); }
  }

  // ---- The cap, over every run ----

  lemma DecryptKeepsCap(s: Session, env: Envelope, gen: string)
    requires |s.skipped| <= MAX_SKIPPED
    ensures |s.Decrypt(env, gen).0.skipped| <= MAX_SKIPPED
  {
    var h := env.header;
    if Find(s.skipped, ShowId(h.dh, h.ns)).None? && ParseKey(h.dh).Some? {
      var their := ParseKey(h.dh).value;
      if s.dhr == Some(their) {
        ReceiveKeepsCap(s, env);
      } else if s.dhs.Some? && s.rk.Some? {
        ReceiveKeepsCap(s.(pn := h.pn).RatchetReceive(their, gen).value, env);
      }
    }
  }

  lemma ReceiveKeepsCap(s: Session, env: Envelope)
    requires |s.skipped| <= MAX_SKIPPED
    ensures |s.ReceiveOnChain(env).0.skipped| <= MAX_SKIPPED
  {
    if s.ckr.Some? {
      SkipToIsBounded(s.ckr.value, s.skipped, env.header.dh, env.header.ns, s.Ad());
    }
  }

  /** The cache never exceeds its cap, raised errors and restores included. */
  lemma {:induction false} CacheStaysCapped(s: Session, ops: seq<Op>)
    requires Started(s)
    ensures |After(s, ops).skipped| <= MAX_SKIPPED
  {
    if ops != [] {
      var n := |ops| - 1;
      CacheStaysCapped(s, ops[..n]);
      var t := After(s, ops[..n]);
      match ops[n]
      case Dec(env, gen) => DecryptKeepsCap(t, env, gen);
      case SaveAndRestore => RestoreUndoesSave(t);
      case Enc(text, gen) => EncryptKeepsSkipped(t, text, gen);
    }
  }

  lemma EncryptKeepsSkipped(s: Session, text: string, gen: string)
    ensures s.Encrypt(text, gen).0.skipped == s.skipped
  {
  }

  // ---- Exactly what is accepted ----

  /** The chain a message under header key `their` is read from. */
  function ReceivingChain(s: Session, their: string): Option<Chain> {
    if s.dhr == Some(their) then s.ckr
    else if s.dhs.Some? && s.rk.Some? then Some(Chain(StepChain(s.rk.value, Dh(s.dhs.value, their)), 0))
    else None
  }

  /** What the envelope must be for the session to return `text`. */
  predicate Acceptable(s: Session, env: Envelope, text: string) {
    var h := env.header;
    && Find(s.skipped, ShowId(h.dh, h.ns)).None?
    && MsgId(h.dh, h.ns) !in s.seen
    && ParseKey(h.dh).Some?
    && ReceivingChain(s, ParseKey(h.dh).value).Some?
    && var from := ReceivingChain(s, ParseKey(h.dh).value).value;
    && from.step <= h.ns <= from.step + MAX_SKIP_GAP
    && env.box == Sealed(Walk(from, h.ns, s.Ad()).MessageKeyHere(s.Ad()), s.Ad() + text)
  }

  /** Decryption returns a text exactly on acceptable envelopes. A stored
      skipped key never helps: it only makes the envelope unacceptable. */
  lemma DecryptExactly(s: Session, env: Envelope, gen: string, text: string)
    ensures s.Decrypt(env, gen).1 == Ok(text) <==> Acceptable(s, env, text)
  {
    var h := env.header;
    if Find(s.skipped, ShowId(h.dh, h.ns)).None? && ParseKey(h.dh).Some? {
      var their := ParseKey(h.dh).value;
      if s.dhr == Some(their) {
        ReceiveExactly(s, env, text);
      } else if s.dhs.Some? && s.rk.Some? {
        ReceiveExactly(s.(pn := h.pn).RatchetReceive(their, gen).value, env, text);
      }
    }
  }

  lemma ReceiveExactly(s: Session, env: Envelope, text: string)
    ensures s.ReceiveOnChain(env).1 == Ok(text)
       <==> && s.ckr.Some? && MsgId(env.header.dh, env.header.ns) !in s.seen
            && s.ckr.value.step <= env.header.ns <= s.ckr.value.step + MAX_SKIP_GAP
            && env.box == Sealed(Walk(s.ckr.value, env.header.ns, s.Ad()).MessageKeyHere(s.Ad()), s.Ad() + text)
  {
    if s.ckr.Some? {
      var h := env.header;
      SkipToWalks(s.ckr.value, s.skipped, h.dh, h.ns, s.Ad());
      if s.ckr.value.step <= h.ns <= s.ckr.value.step + MAX_SKIP_GAP {
        var (chain, cache) := SkipTo(s.ckr.value, s.skipped, h.dh, h.ns, s.Ad());
        OpenExactly(s.(ckr := Some(chain.Advance(s.Ad())), skipped := cache), env, chain.MessageKeyHere(s.Ad()), text);
      }
    }
  }

  lemma {:induction false} SkipToWalks(chain: Chain, cache: seq<Skipped>, dh: string, ns: int, ad: string)
    ensures SkipTo(chain, cache, dh, ns, ad).0 == Walk(chain, ns, ad)
    decreases ns - chain.step
  {
    if chain.step < ns { SkipToWalks(chain.Advance(ad), StoreSkipped(chain, cache, dh, ad), dh, ns, ad); }
  }

  lemma OpenExactly(s: Session, env: Envelope, key: Key, text: string)
    ensures s.OpenWith(env, key).1 == Ok(text)
       <==> MsgId(env.header.dh, env.header.ns) !in s.seen && env.box == Sealed(key, s.Ad() + text)
  {
    if env.box.Sealed? {
      var p := env.box.payload;
      if |s.Ad()| <= |p| && p[..|s.Ad()|] == s.Ad() { assert p == s.Ad() + p[|s.Ad()|..]; }
      assert (s.Ad() + text)[|s.Ad()|..] == text;
    }
  }

  /** The cache after number `ns` of the chain `from` under header key `dh`
      was taken: the newest entries of the old ones and those passed over. */
  predicate CacheLaw(s: Session, s': Session, from: Chain, dh: string, ns: int) {
    s'.skipped == Newest(s.skipped + Passed(from, dh, ns, s.Ad()), MAX_SKIPPED)
  }

  /** After accepting number ns from a chain at step k, the chain stands at
      ns + 1 and, if none of them was cached already, the cache has gained
      exactly the entries k .. ns - 1. */
  lemma AcceptedMessage(s: Session, env: Envelope, gen: string)
    requires s.Decrypt(env, gen).1.Ok?
    ensures ParseKey(env.header.dh).Some? && ReceivingChain(s, ParseKey(env.header.dh).value).Some?
    ensures var s' := s.Decrypt(env, gen).0; var h := env.header;
      var from := ReceivingChain(s, ParseKey(h.dh).value).value;
      && s'.ckr == Some(Walk(from, h.ns, s.Ad()).Advance(s.Ad()))
      && s'.ckr.value.step == h.ns + 1
      && s'.dhr == ParseKey(h.dh)
      && (|s.skipped| <= MAX_SKIPPED && Uncached(s.skipped, h.dh, from.step, h.ns) ==>
            CacheLaw(s, s', from, h.dh, h.ns))
      && (|s.skipped| + h.ns - from.step <= MAX_SKIPPED ==>
            (CacheLaw(s, s', from, h.dh, h.ns) <==> Uncached(s.skipped, h.dh, from.step, h.ns)))
  {
    var text := s.Decrypt(env, gen).1.value;
    DecryptExactly(s, env, gen, text);
    var h := env.header;
    var their := ParseKey(h.dh).value;
    if s.dhr == Some(their) {
      AcceptedOnChain(s, env);
    } else {
      AcceptedOnChain(s.(pn := h.pn).RatchetReceive(their, gen).value, env);
    }
  }

  lemma AcceptedOnChain(s: Session, env: Envelope)
    requires s.ReceiveOnChain(env).1.Ok?
    ensures var s' := s.ReceiveOnChain(env).0; var h := env.header;
      && s.ckr.Some?
      && s'.ckr == Some(Walk(s.ckr.value, h.ns, s.Ad()).Advance(s.Ad()))
      && s'.ckr.value.step == h.ns + 1
      && s'.dhr == s.dhr
      && (|s.skipped| <= MAX_SKIPPED && Uncached(s.skipped, h.dh, s.ckr.value.step, h.ns) ==>
            CacheLaw(s, s', s.ckr.value, h.dh, h.ns))
      && (|s.skipped| + h.ns - s.ckr.value.step <= MAX_SKIPPED ==>
            (CacheLaw(s, s', s.ckr.value, h.dh, h.ns) <==> Uncached(s.skipped, h.dh, s.ckr.value.step, h.ns)))
  {
    AcceptedShape(s, env);
    var h, from := env.header, s.ckr.value;
    SkipToWalks(from, s.skipped, h.dh, h.ns, s.Ad());
    WalkStep(from, h.ns, s.Ad());
    hide SkipTo, Walk, Passed, Newest, Uncached, Session.ReceiveOnChain;
    if |s.skipped| <= MAX_SKIPPED && Uncached(s.skipped, h.dh, from.step, h.ns) {
      SkipToFillsCache(from, s.skipped, h.dh, h.ns, s.Ad());
    }
    if |s.skipped| + h.ns - from.step <= MAX_SKIPPED {
      FillsCacheExactly(from, s.skipped, h.dh, h.ns, s.Ad());
      WholeIsNewest(s.skipped + Passed(from, h.dh, h.ns, s.Ad()));
    }
  }

  lemma WholeIsNewest(xs: seq<Skipped>)
    requires |xs| <= MAX_SKIPPED
    ensures Newest(xs, MAX_SKIPPED) == xs
  {
  }

  /** An accepted envelope moves the chain past its number and keeps what the skip loop stored. */
  lemma AcceptedShape(s: Session, env: Envelope)
    requires s.ReceiveOnChain(env).1.Ok?
    ensures s.ckr.Some? && s.ckr.value.step <= env.header.ns
    ensures var s' := s.ReceiveOnChain(env).0;
      var (chain, cache) := SkipTo(s.ckr.value, s.skipped, env.header.dh, env.header.ns, s.Ad());
      s'.ckr == Some(chain.Advance(s.Ad())) && s'.skipped == cache && s'.dhr == s.dhr
  {
    hide SkipTo;
  }

  // ---- What an envelope leaves behind ----

  /** The number is one the receiving chain for its header key would step to. */
  predicate InReach(s: Session, h: Header) {
    && ParseKey(h.dh).Some?
    && ReceivingChain(s, ParseKey(h.dh).value).Some?
    && var from := ReceivingChain(s, ParseKey(h.dh).value).value;
    from.step <= h.ns <= from.step + MAX_SKIP_GAP
  }

  /** The replay memory once `id` was added: all of it or, past the limit, the
      part with the largest numbers, then keys. */
  ghost predicate Remembers(earlier: set<MsgId>, id: MsgId, seen: set<MsgId>) {
    var grown := earlier + {id};
    if |grown| <= SEEN_LIMIT then seen == grown
    else
      && seen <= grown && |seen| == SEEN_KEPT
      && forall x, y | x in seen && y in grown - seen :: Before(y, x)
  }

  lemma RememberRemembers(seen: set<MsgId>, id: MsgId)
    ensures Remembers(seen, id, Remember(seen, id))
  {
  }

  /** The receiving side as a header key leaves it: a ratchet step if it is not the one in use. */
  predicate TookUp(s: Session, s': Session, their: string, gen: string) {
    && s'.dhr == Some(their) && s'.cks == s.cks && s'.ns == s.ns && s'.ours == s.ours && s'.theirs == s.theirs
    && if s.dhr == Some(their)
       then s'.rk == s.rk && s'.dhs == s.dhs && s'.pn == s.pn && s'.nr == s.nr
            && s'.dhFresh == s.dhFresh && s'.pendingSend == s.pendingSend
       else s.rk.Some? && s.dhs.Some? && s'.rk == Some(StepRoot(s.rk.value, Dh(s.dhs.value, their)))
            && s'.dhs == Some(gen) && s'.pn == s.ns && s'.nr == 0 && s'.dhFresh && s'.pendingSend
  }

  /** Whatever its box is, an envelope whose number is in reach moves the chain
      past it, leaves the passed keys in the cache and its id in the memory. */
  lemma EnvelopeIsTaken(s: Session, env: Envelope, gen: string)
    requires Find(s.skipped, ShowId(env.header.dh, env.header.ns)).None? && InReach(s, env.header)
    ensures var (s', r) := s.Decrypt(env, gen); var h := env.header; var id := MsgId(h.dh, h.ns);
      var from := ReceivingChain(s, ParseKey(h.dh).value).value;
      && TookUp(s, s', ParseKey(h.dh).value, gen)
      && s'.ckr == Some(Walk(from, h.ns, s.Ad()).Advance(s.Ad())) && s'.ckr.value.step == h.ns + 1
      && (|s.skipped| <= MAX_SKIPPED && Uncached(s.skipped, h.dh, from.step, h.ns) ==>
            CacheLaw(s, s', from, h.dh, h.ns))
      && if id in s.seen then s'.seen == s.seen && r == Err(Replay) else Remembers(s.seen, id, s'.seen)
  {
    var h := env.header;
    var their := ParseKey(h.dh).value;
    if s.dhr == Some(their) {
      TakenOnChain(s, env);
    } else {
      TakenOnChain(s.(pn := h.pn).RatchetReceive(their, gen).value, env);
    }
  }

  lemma TakenOnChain(s: Session, env: Envelope)
    requires s.ckr.Some? && s.ckr.value.step <= env.header.ns <= s.ckr.value.step + MAX_SKIP_GAP
    ensures var (s', r) := s.ReceiveOnChain(env); var h := env.header; var id := MsgId(h.dh, h.ns);
      && s' == s.(ckr := s'.ckr, skipped := s'.skipped, seen := s'.seen)
      && s'.ckr == Some(Walk(s.ckr.value, h.ns, s.Ad()).Advance(s.Ad())) && s'.ckr.value.step == h.ns + 1
      && (|s.skipped| <= MAX_SKIPPED && Uncached(s.skipped, h.dh, s.ckr.value.step, h.ns) ==>
            CacheLaw(s, s', s.ckr.value, h.dh, h.ns))
      && if id in s.seen then s'.seen == s.seen && r == Err(Replay) else Remembers(s.seen, id, s'.seen)
  {
    var h, from := env.header, s.ckr.value;
    SkipToWalks(from, s.skipped, h.dh, h.ns, s.Ad());
    WalkStep(from, h.ns, s.Ad());
    var (chain, cache) := SkipTo(from, s.skipped, h.dh, h.ns, s.Ad());
    OpenLeaves(s.(ckr := Some(chain.Advance(s.Ad())), skipped := cache), env, chain.MessageKeyHere(s.Ad()));
    hide SkipTo, Walk, Passed, Newest, Uncached, Session.OpenWith, Remembers;
    if |s.skipped| <= MAX_SKIPPED && Uncached(s.skipped, h.dh, from.step, h.ns) {
      SkipToFillsCache(from, s.skipped, h.dh, h.ns, s.Ad());
    }
  }

  lemma OpenLeaves(s: Session, env: Envelope, key: Key)
    ensures var (s', r) := s.OpenWith(env, key); var id := MsgId(env.header.dh, env.header.ns);
      && s' == s.(seen := s'.seen)
      && if id in s.seen then s'.seen == s.seen && r == Err(Replay) else Remembers(s.seen, id, s'.seen)
  {
    RememberRemembers(s.seen, MsgId(env.header.dh, env.header.ns));
    hide Remember, Remembers;
  }

  /** What the other envelopes leave: a cached number loses its key and is
      remembered; a key that does not parse, or no session to ratchet, changes
      nothing but `pn`; a number out of reach may start the new chain but does
      not move it. None of them is answered. */
  lemma EnvelopeIsRefused(s: Session, env: Envelope, gen: string)
    requires Find(s.skipped, ShowId(env.header.dh, env.header.ns)).Some? || !InReach(s, env.header)
    ensures var (s', r) := s.Decrypt(env, gen); var h := env.header; var id := MsgId(h.dh, h.ns);
      if Find(s.skipped, ShowId(h.dh, h.ns)).Some? then
        && r == Err(Replay)
        && if id in s.seen then s' == s
           else s' == s.(skipped := s'.skipped, seen := s.seen + {id})
                && forall x :: x in s'.skipped <==> x in s.skipped && x.id != ShowId(h.dh, h.ns)
      else if ParseKey(h.dh).None? then s' == s && r == Err(BadHeaderKey)
      else
        var their := ParseKey(h.dh).value;
        if ReceivingChain(s, their).None? then
          r.Err? && s' == if s.dhr == Some(their) then s else s.(pn := h.pn)
        else
          var from := ReceivingChain(s, their).value;
          && TookUp(s, s', their, gen) && s'.ckr == Some(from) && s'.skipped == s.skipped && s'.seen == s.seen
          && r == Err(if h.ns > from.step then GapTooLarge else if id in s.seen then Replay else InThePast)
  {
  }

  /** A header is good for one envelope: once an envelope in reach came under
      a key, whatever its box was, no envelope under that key with this number
      or a lower one is accepted, the honest one included. */
  lemma HeaderIsUsedUp(s: Session, env: Envelope, gen: string, later: Envelope, gen': string)
    requires Find(s.skipped, ShowId(env.header.dh, env.header.ns)).None? && InReach(s, env.header)
    requires ParseKey(later.header.dh) == ParseKey(env.header.dh) && later.header.ns <= env.header.ns
    ensures s.Decrypt(env, gen).0.Decrypt(later, gen').1.Err?
  {
    EnvelopeIsTaken(s, env, gen);
    var s' := s.Decrypt(env, gen).0;
    hide Session.Decrypt;
    LateMessageIsLost(s', later, gen');
  }

  /** Late messages are lost. Section 3.5 of "The Double Ratchet Algorithm" and
      the cache itself are there to let a message that was skipped over
      decrypt later; in this code a number below the chain's step is refused
      on its chain, stored key or not. */
  lemma LateMessageIsLost(s: Session, env: Envelope, gen: string)
    requires ParseKey(env.header.dh).Some? && s.dhr == ParseKey(env.header.dh)
    requires s.ckr.Some? && env.header.ns < s.ckr.value.step
    ensures var r := s.Decrypt(env, gen).1; r == Err(Replay) || r == Err(InThePast)
    ensures Find(s.skipped, ShowId(env.header.dh, env.header.ns)).Some? ==> s.Decrypt(env, gen).1 == Err(Replay)
  {
  }

  /** A message sealed for its place on the current chain decrypts exactly when it is not late and not too far ahead. */
  lemma OnChainExactly(s: Session, env: Envelope, gen: string, text: string, start: Key)
    requires s.ckr.Some? && s.ckr.value == ChainAt(start, s.ckr.value.step, s.Ad())
    requires ParseKey(env.header.dh).Some? && s.dhr == ParseKey(env.header.dh)
    requires env.header.ns >= 0
    requires env.box == Sealed(ChainAt(start, env.header.ns, s.Ad()).MessageKeyHere(s.Ad()), s.Ad() + text)
    requires env.header.ns >= s.ckr.value.step ==>
      Find(s.skipped, ShowId(env.header.dh, env.header.ns)).None? && MsgId(env.header.dh, env.header.ns) !in s.seen
    ensures s.Decrypt(env, gen).1 == Ok(text)
       <==> s.ckr.value.step <= env.header.ns <= s.ckr.value.step + MAX_SKIP_GAP
  {
    DecryptExactly(s, env, gen, text);
    if s.ckr.value.step <= env.header.ns {
      SkipToWalks(s.ckr.value, [], "", env.header.ns, s.Ad());
      SkipToFollowsChain(start, s.ckr.value.step, [], "", env.header.ns, s.Ad());
    }
  }
}
