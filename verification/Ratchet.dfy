/** One Double Ratchet session (shared/double_ratchet.py): its state as a
    value, every operation as a function of that state, and the class whose
    methods change the fields in place and are proved to compute those functions.
    Randomly generated key pairs are parameters named `gen`. */
module Ratchet {
  import opened Text
  import opened Crypto

  const MAX_SKIP_GAP: nat := 2000
  const MAX_SKIPPED: nat := 1000
  const PROTOCOL_VERSION := 3
  const KEY_ROTATION_INTERVAL: nat := 100
  const SEEN_LIMIT: nat := 10000
  const SEEN_KEPT: nat := 5000
  const SEEN_SAVED: nat := 2000

  datatype Error =
    | NotInitialized | FreshKeyMissing | NoSendingChain | NoHeaderKey
    | Replay | BadHeaderKey | NoReceivingChain | InThePast | GapTooLarge
    | BoxRejected | AdMismatch | WrongVersion

  datatype Result<+T> = Ok(value: T) | Err(error: Error)

  datatype Header = Header(dh: string, pn: int, ns: int)
  datatype Envelope = Envelope(header: Header, box: SealedBox)

  /** An entry of the skipped-key dictionary, which is kept in insertion order. */
  datatype Skipped = Skipped(id: string, key: Key)

  datatype Session = Session(
    dhs: Option<string>, dhr: Option<string>, rk: Option<Key>,
    cks: Option<Chain>, ckr: Option<Chain>,
    ns: nat, nr: nat, pn: int,
    ours: Option<string>, theirs: Option<string>,
    seen: set<MsgId>, skipped: seq<Skipped>,
    pendingSend: bool, dhFresh: bool)
  {
    function Ad(): string { AssociatedData(ours, theirs) }

    // ---- DH ratchet ----

    function RatchetSend(gen: string): Result<Session> {
      if dhr.None? || rk.None? then Err(NotInitialized)
      else if dhFresh && dhs.None? then Err(FreshKeyMissing)
      else
        var key := if dhFresh then dhs.value else gen;
        var dh := Dh(key, dhr.value);
        Ok(this.(rk := Some(StepRoot(rk.value, dh)),
                 cks := Some(Chain(StepChain(rk.value, dh), 0)),
                 pn := ns, ns := 0, dhs := Some(key),
                 dhFresh := false, pendingSend := false))
    }

    function RatchetReceive(their: string, gen: string): Result<Session> {
      if dhs.None? || rk.None? then Err(NotInitialized)
      else
        var dh := Dh(dhs.value, their);
        Ok(this.(rk := Some(StepRoot(rk.value, dh)),
                 ckr := Some(Chain(StepChain(rk.value, dh), 0)),
                 pn := ns, nr := 0, dhr := Some(their), dhs := Some(gen),
                 dhFresh := true, pendingSend := true))
    }

    // ---- Encrypt ----

    /** The guard of the forced rotation. */
    predicate RotationDue() {
      cks.Some? && cks.value.step >= KEY_ROTATION_INTERVAL && ckr.Some? && dhr.Some?
    }

    /** The first two ratchet decisions of an encryption. */
    function ReadyToSend(gen: string): Result<Session> {
      if pendingSend && dhr.Some? && rk.Some? then RatchetSend(gen)
      else if cks.Some? then Ok(this)
      else if ckr.Some? && dhr.Some? then RatchetSend(gen)
      else Err(NoSendingChain)
    }

    /** True when encrypting now takes the forced-rotation branch. */
    predicate ForcesRotation() {
      !(pendingSend && dhr.Some? && rk.Some?) && RotationDue()
    }

    function Encrypt(text: string, gen: string): (Session, Result<Envelope>) {
      match ReadyToSend(gen)
      case Err(e) => (this, Err(e))
      case Ok(s) =>
        match if s.RotationDue() then s.RatchetSend(gen) else Ok(s) {
          case Err(e) => (s, Err(e))
          case Ok(s) => s.Seal(text)
        }
    }

    function Seal(text: string): (Session, Result<Envelope>) {
      if cks.None? then (this, Err(NoSendingChain))
      else
        var s := this.(cks := Some(cks.value.Advance(Ad())));
        if dhs.None? then (s, Err(NoHeaderKey))
        else
          var box := Sealed(cks.value.MessageKeyHere(Ad()), Ad() + text);
          (s.(ns := ns + 1), Ok(Envelope(Header(dhs.value, pn, ns), box)))
    }

    // ---- Decrypt ----

    function Decrypt(env: Envelope, gen: string): (Session, Result<string>) {
      var h := env.header;
      var id := MsgId(h.dh, h.ns);
      if Find(skipped, ShowId(h.dh, h.ns)).Some? then
        if id in seen then (this, Err(Replay))
        else
          var s := this.(skipped := Without(skipped, ShowId(h.dh, h.ns)), seen := seen + {id});
          s.OpenWith(env, Find(skipped, ShowId(h.dh, h.ns)).value)
      else
        match ParseKey(h.dh)
        case None => (this, Err(BadHeaderKey))
        case Some(their) =>
          if dhr == Some(their) then ReceiveOnChain(env)
          else
            var s := this.(pn := h.pn);
            match s.RatchetReceive(their, gen)
            case Err(e) => (s, Err(e))
            case Ok(s) => s.ReceiveOnChain(env)
    }

    function ReceiveOnChain(env: Envelope): (Session, Result<string>) {
      var h := env.header;
      if ckr.None? then (this, Err(NoReceivingChain))
      else if h.ns < ckr.value.step then
        (this, Err(if MsgId(h.dh, h.ns) in seen then Replay else InThePast))
      else if h.ns - ckr.value.step > MAX_SKIP_GAP then (this, Err(GapTooLarge))
      else
        var (chain, cache) := SkipTo(ckr.value, skipped, h.dh, h.ns, Ad());
        var s := this.(ckr := Some(chain.Advance(Ad())), skipped := cache);
        s.OpenWith(env, chain.MessageKeyHere(Ad()))
    }

    function OpenWith(env: Envelope, key: Key): (Session, Result<string>) {
      var id := MsgId(env.header.dh, env.header.ns);
      if id in seen then (this, Err(Replay))
      else
        var s := this.(seen := Remember(seen, id));
        match Open(env.box, key)
        case None => (s, Err(BoxRejected))
        case Some(payload) =>
          if |Ad()| <= |payload| && payload[..|Ad()|] == Ad()
          then (s, Ok(payload[|Ad()|..]))
          else (s, Err(AdMismatch))
    }

    // ---- Save and restore ----

    function Serialize(): Saved {
      Saved(PROTOCOL_VERSION, dhs, dhr, rk,
            if cks.Some? then Some(cks.value.key) else None,
            if ckr.Some? then Some(ckr.value.key) else None,
            if cks.Some? then cks.value.step else 0,
            if ckr.Some? then ckr.value.step else 0,
            ns, nr, pn, ours, theirs, skipped,
            PrintIds(Largest(seen, SEEN_SAVED)), pendingSend, dhFresh)
    }
  }

  function AssociatedData(ours: Option<string>, theirs: Option<string>): string {
    var a := if ours.Some? then ours.value else "";
    var b := if theirs.Some? then theirs.value else "";
    if Less(a, b) then a + b else b + a
  }

  lemma AssociatedDataAgrees(a: Option<string>, b: Option<string>)
    ensures AssociatedData(a, b) == AssociatedData(b, a)
  {
    LessIsTotal(if a.Some? then a.value else "", if b.Some? then b.value else "");
  }

  /** Of identity keys of one length, it tells every pair from every other. */
  lemma AssociatedDataBinds(a: string, b: string, c: string, d: string)
    requires |a| == |b| == |c| == |d|
    ensures AssociatedData(Some(a), Some(b)) == AssociatedData(Some(c), Some(d))
       <==> (a == c && b == d) || (a == d && b == c)
  {
    LessIsTotal(a, b);
    LessIsTotal(c, d);
    var x, y := AssociatedData(Some(a), Some(b)), AssociatedData(Some(c), Some(d));
    assert x[..|a|] == (if Less(a, b) then a else b) && x[|a|..] == (if Less(a, b) then b else a);
    assert y[..|a|] == (if Less(c, d) then c else d) && y[|a|..] == (if Less(c, d) then d else c);
  }

  // ---- The skipped-key dictionary ----

  function Find(cache: seq<Skipped>, id: string): (r: Option<Key>)
    ensures r.None? <==> forall x | x in cache :: x.id != id
    ensures r.Some? ==> Skipped(id, r.value) in cache
  {
    if cache == [] then None
    else if cache[0].id == id then Some(cache[0].key)
    else Find(cache[1..], id)
  }

  function Without(cache: seq<Skipped>, id: string): (r: seq<Skipped>)
    ensures |r| <= |cache|
    ensures forall x :: x in r <==> x in cache && x.id != id
  {
    if cache == [] then []
    else (if cache[0].id == id then [] else [cache[0]]) + Without(cache[1..], id)
  }

  /** Insert at the end; past the cap the oldest entry goes. */
  function Push(cache: seq<Skipped>, x: Skipped): (r: seq<Skipped>)
  {
    var grown := cache + [x];
    if |grown| > MAX_SKIPPED then grown[1..] else grown
  }

  /** Walks a receiving chain up to number `ns`, storing the keys passed over. */
  function SkipTo(chain: Chain, cache: seq<Skipped>, dh: string, ns: int, ad: string)
    : (r: (Chain, seq<Skipped>))
    decreases ns - chain.step
  {
    if ns <= chain.step then (chain, cache)
    else SkipTo(chain.Advance(ad), StoreSkipped(chain, cache, dh, ad), dh, ns, ad)
  }

  /** The cache after one skip. The source also looks the printed id up among
      the seen ids; those are pairs, so that test never holds. */
  function StoreSkipped(chain: Chain, cache: seq<Skipped>, dh: string, ad: string): seq<Skipped> {
    var id := ShowId(dh, chain.step);
    if Find(cache, id).Some? then cache else Push(cache, Skipped(id, chain.MessageKeyHere(ad)))
  }

  // ---- Replay memory ----

  function Remember(seen: set<MsgId>, id: MsgId): set<MsgId> {
    var grown := seen + {id};
    if |grown| > SEEN_LIMIT then Largest(grown, SEEN_KEPT) else grown
  }

  // ---- The saved form ----

  datatype Saved = Saved(
    version: int, dhs: Option<string>, dhr: Option<string>, rk: Option<Key>,
    cks: Option<Key>, ckr: Option<Key>, cksStep: nat, ckrStep: nat,
    ns: nat, nr: nat, pn: int, ours: Option<string>, theirs: Option<string>,
    skipped: seq<Skipped>, seen: seq<string>, pendingSend: bool, dhFresh: bool)

  /** The ids in order, printed. */
  function PrintIds(ids: set<MsgId>): seq<string> {
    if ids == {} then []
    else
      LastExists(ids);
      LastIsUnique(ids);
      var m :| IsLast(m, ids);
      PrintIds(ids - {m}) + [ShowId(m.dh, m.ns)]
  }

  /** The ids that parse; the others are dropped. */
  function ParseIds(items: seq<string>): set<MsgId> {
    if items == [] then {}
    else
      ParseIds(items[..|items| - 1])
      + match ParseId(items[|items| - 1]) { case None => {} case Some(id) => {id} }
  }

  function Deserialize(d: Saved): Result<Session> {
    if d.version != PROTOCOL_VERSION then Err(WrongVersion)
    else Ok(Session(
      d.dhs, d.dhr, d.rk,
      if d.cks.Some? then Some(Chain(d.cks.value, d.cksStep)) else None,
      if d.ckr.Some? then Some(Chain(d.ckr.value, d.ckrStep)) else None,
      d.ns, d.nr, d.pn, d.ours, d.theirs,
      ParseIds(d.seen), d.skipped, d.pendingSend, d.dhFresh))
  }

  lemma {:induction false} ParseIdsUndoesPrintIds(ids: set<MsgId>)
    ensures ParseIds(PrintIds(ids)) == ids
  {
    if ids != {} {
      LastExists(ids);
      LastIsUnique(ids);
      var m :| IsLast(m, ids);
      var items := PrintIds(ids);
      assert items[..|items| - 1] == PrintIds(ids - {m});
      ParseIdsUndoesPrintIds(ids - {m});
      ParseIdUndoesShowId(m.dh, m.ns);
      assert ids == (ids - {m}) + {m};
    }
  }

  /** Saving and restoring loses nothing but the smaller remembered ids. */
  lemma RestoreUndoesSave(s: Session)
    ensures Deserialize(s.Serialize()) == Ok(s.(seen := Largest(s.seen, SEEN_SAVED)))
  {
    ParseIdsUndoesPrintIds(Largest(s.seen, SEEN_SAVED));
  }

  /** What was saved by another version of the protocol is refused, and nothing else is. */
  lemma OnlyOwnVersionIsRestored(d: Saved)
    ensures Deserialize(d).Ok? <==> d.version == 3
    ensures Deserialize(d).Err? ==> Deserialize(d) == Err(WrongVersion)
  {
  }

  function Restored(s: Session): Session { s.(seen := Largest(s.seen, SEEN_SAVED)) }

  // ---- X3DH and the initial states ----

  const BLANK := Session(None, None, None, None, None, 0, 0, 0, None, None, {}, [], false, false)

  function X3dhInitiate(ik: string, theirIk: string, theirSpk: string, theirOpk: Option<string>, eph: string): Key {
    SessionSecret(Dh(ik, theirSpk), Dh(eph, theirIk), Dh(eph, theirSpk),
                  if theirOpk.Some? then Some(Dh(eph, theirOpk.value)) else None)
  }

  function X3dhReceive(ik: string, spk: string, opk: Option<string>, theirIk: string, theirEph: string): Key {
    SessionSecret(Dh(spk, theirIk), Dh(ik, theirEph), Dh(spk, theirEph),
                  if opk.Some? then Some(Dh(opk.value, theirEph)) else None)
  }

  /** Both sides of X3DH reach the same secret exactly when they agree on the one-time key. */
  lemma X3dhAgrees(aIk: string, bIk: string, spk: string, aOpk: Option<string>, bOpk: Option<string>, eph: string)
    ensures X3dhInitiate(aIk, bIk, spk, aOpk, eph) == X3dhReceive(bIk, spk, bOpk, aIk, eph)
       <==> aOpk == bOpk
  {
    DhAgrees(aIk, spk);
    DhAgrees(eph, bIk);
    DhAgrees(eph, spk);
    if aOpk.Some? && bOpk.Some? {
      DhAgrees(eph, bOpk.value);
      DhSeparates(eph, aOpk.value, bOpk.value);
    }
  }

  /** The secret binds both identities and the prekeys: under one ephemeral
      key two runs reach it only if they agree on all four. */
  lemma X3dhBinds(ik: string, theirIk: string, spk: string, opk: Option<string>,
        ik': string, theirIk': string, spk': string, opk': Option<string>, eph: string)
    ensures X3dhInitiate(ik, theirIk, spk, opk, eph) == X3dhInitiate(ik', theirIk', spk', opk', eph)
       <==> ik == ik' && theirIk == theirIk' && spk == spk' && opk == opk'
  {
    DhSeparates(eph, theirIk, theirIk');
    DhSeparates(eph, spk, spk');
    DhAgrees(ik, spk);
    DhAgrees(ik', spk);
    DhSeparates(spk, ik, ik');
    if opk.Some? && opk'.Some? { DhSeparates(eph, opk.value, opk'.value); }
  }

  function StartAsAlice(sk: Key, ik: string, theirIk: string, theirSpk: string, eph: string): Session {
    Session(Some(eph), Some(theirSpk), Some(InitRoot(sk)), Some(Chain(InitChain(sk), 0)), None,
            0, 0, 0, Some(ik), Some(theirIk), {}, [], false, false)
  }

  function StartAsBob(sk: Key, ik: string, spk: string, theirIk: string, theirEph: string): Session {
    Session(Some(spk), Some(theirEph), Some(InitRoot(sk)), None, Some(Chain(InitChain(sk), 0)),
            0, 0, 0, Some(ik), Some(theirIk), {}, [], false, false)
  }

  // ---- The session object ----

  class DoubleRatchetSession {
    var DHs: Option<string>
    var DHr: Option<string>
    var RK: Option<Key>
    var CKs: Option<Chain>
    var CKr: Option<Chain>
    var Ns: nat
    var Nr: nat
    var PN: int
    var ours: Option<string>
    var theirs: Option<string>
    var seen: set<MsgId>
    var skipped: seq<Skipped>
    var pendingSend: bool
    var dhFresh: bool

    ghost function View(): Session
      reads this
    {
      Session(DHs, DHr, RK, CKs, CKr, Ns, Nr, PN, ours, theirs, seen, skipped, pendingSend, dhFresh)
    }

    constructor ()
      ensures View() == BLANK
    {
      DHs, DHr, RK, CKs, CKr := None, None, None, None, None;
      Ns, Nr, PN := 0, 0, 0;
      ours, theirs := None, None;
      seen, skipped := {}, [];
      pendingSend, dhFresh := false, false;
    }

    method InitializeAsAlice(ik: string, theirIk: string, theirSpk: string, theirOpk: Option<string>, eph: string)
      modifies this
      ensures View() == StartAsAlice(X3dhInitiate(ik, theirIk, theirSpk, theirOpk, eph), ik, theirIk, theirSpk, eph)
             .(seen := old(seen), skipped := old(skipped), pendingSend := old(pendingSend), dhFresh := old(dhFresh))
    {
      var sk := X3dhInitiate(ik, theirIk, theirSpk, theirOpk, eph);
      SetKeys(eph, theirSpk, ik, theirIk);
      SetChains(InitRoot(sk), Some(Chain(InitChain(sk), 0)), None);
    }

    method InitializeAsBob(ik: string, spk: string, opk: Option<string>, theirIk: string, theirEph: string)
      modifies this
      ensures View() == StartAsBob(X3dhReceive(ik, spk, opk, theirIk, theirEph), ik, spk, theirIk, theirEph)
             .(seen := old(seen), skipped := old(skipped), pendingSend := old(pendingSend), dhFresh := old(dhFresh))
    {
      var sk := X3dhReceive(ik, spk, opk, theirIk, theirEph);
      SetKeys(spk, theirEph, ik, theirIk);
      SetChains(InitRoot(sk), None, Some(Chain(InitChain(sk), 0)));
    }

    /** The first half of either initialisation. */
    method SetKeys(dhs: string, dhr: string, ik: string, theirIk: string)
      modifies this`DHs, this`DHr, this`ours, this`theirs
      ensures DHs == Some(dhs) && DHr == Some(dhr) && ours == Some(ik) && theirs == Some(theirIk)
    {
      DHs := Some(dhs);
      DHr := Some(dhr);
      ours := Some(ik);
      theirs := Some(theirIk);
    }

    /** The second half. */
    method SetChains(root: Key, cks: Option<Chain>, ckr: Option<Chain>)
      modifies this`RK, this`CKs, this`CKr, this`Ns, this`Nr, this`PN
      ensures RK == Some(root) && CKs == cks && CKr == ckr && Ns == 0 && Nr == 0 && PN == 0
    {
      RK := Some(root);
      CKs := cks;
      CKr := ckr;
      Ns := 0;
      Nr := 0;
      PN := 0;
    }

    method DhRatchetSend(gen: string) returns (r: Result<()>)
      modifies this
      ensures match old(View()).RatchetSend(gen)
              case Err(e) => r == Err(e) && View() == old(View())
              case Ok(s) => r == Ok(()) && View() == s
    {
      if DHr.None? || RK.None? { return Err(NotInitialized); }
      var key := gen;
      if dhFresh {
        if DHs.None? { return Err(FreshKeyMissing); }
        key := DHs.value;
      }
      var dh := Dh(key, DHr.value);
      CKs := Some(Chain(StepChain(RK.value, dh), 0));
      RK := Some(StepRoot(RK.value, dh));
      PN := Ns;
      Ns := 0;
      DHs := Some(key);
      dhFresh := false;
      pendingSend := false;
      return Ok(());
    }

    method DhRatchetReceive(their: string, gen: string) returns (r: Result<()>)
      modifies this
      ensures match old(View()).RatchetReceive(their, gen)
              case Err(e) => r == Err(e) && View() == old(View())
              case Ok(s) => r == Ok(()) && View() == s
    {
      if DHs.None? || RK.None? { return Err(NotInitialized); }
      var dh := Dh(DHs.value, their);
      CKr := Some(Chain(StepChain(RK.value, dh), 0));
      RK := Some(StepRoot(RK.value, dh));
      PN := Ns;
      Nr := 0;
      DHr := Some(their);
      DHs := Some(gen);
      dhFresh := true;
      pendingSend := true;
      return Ok(());
    }

    method EncryptMessage(text: string, gen: string) returns (r: Result<Envelope>)
      modifies this
      ensures (View(), r) == old(View()).Encrypt(text, gen)
    {
      if pendingSend && DHr.Some? && RK.Some? {
        var done := DhRatchetSend(gen);
        if done.Err? { return Err(done.error); }
      }
      if CKs.None? {
        if CKr.Some? && DHr.Some? {
          var done := DhRatchetSend(gen);
          if done.Err? { return Err(done.error); }
        } else {
          return Err(NoSendingChain);
        }
      }
      if CKs.Some? && CKs.value.step >= KEY_ROTATION_INTERVAL && CKr.Some? && DHr.Some? {
        var done := DhRatchetSend(gen);
        if done.Err? { return Err(done.error); }
      }
      var ad := AssociatedData(ours, theirs);
      var key := CKs.value.MessageKeyHere(ad);
      CKs := Some(CKs.value.Advance(ad));
      if DHs.None? { return Err(NoHeaderKey); }
      var header := Header(DHs.value, PN, Ns);
      Ns := Ns + 1;
      return Ok(Envelope(header, Sealed(key, ad + text)));
    }

    method DecryptMessage(env: Envelope, gen: string) returns (r: Result<string>)
      modifies this
      ensures (View(), r) == old(View()).Decrypt(env, gen)
    {
      var dh, ns := env.header.dh, env.header.ns;
      var id := MsgId(dh, ns);
      var stored := Find(skipped, ShowId(dh, ns));
      if stored.Some? {
        if id in seen { return Err(Replay); }
        skipped := Without(skipped, ShowId(dh, ns));
        seen := seen + {id};
        r := DecryptWithKey(env, stored.value);
        return;
      }
      var their := ParseKey(dh);
      if their.None? { return Err(BadHeaderKey); }
      if DHr != their {
        PN := env.header.pn;
        var done := DhRatchetReceive(their.value, gen);
        if done.Err? { return Err(done.error); }
      }
      r := ReceiveOnChain(env);
    }

    method ReceiveOnChain(env: Envelope) returns (r: Result<string>)
      modifies this
      ensures (View(), r) == old(View()).ReceiveOnChain(env)
    {
      var dh, ns := env.header.dh, env.header.ns;
      var ad := AssociatedData(ours, theirs);
      if CKr.None? { return Err(NoReceivingChain); }
      if ns < CKr.value.step {
        return Err(if MsgId(dh, ns) in seen then Replay else InThePast);
      }
      if ns - CKr.value.step > MAX_SKIP_GAP { return Err(GapTooLarge); }
      SkipMessageKeys(dh, ns, ad);
      var key := CKr.value.MessageKeyHere(ad);
      CKr := Some(CKr.value.Advance(ad));
      r := DecryptWithKey(env, key);
    }

    /** The skip loop of `decrypt_message`. */
    method SkipMessageKeys(dh: string, ns: int, ad: string)
      requires CKr.Some? && CKr.value.step <= ns
      modifies this`CKr, this`skipped
      ensures CKr.Some? && (CKr.value, skipped) == SkipTo(old(CKr).value, old(skipped), dh, ns, ad)
    {
      hide ShowId, Find, Chain.MessageKeyHere;
      while CKr.value.step < ns
        invariant CKr.Some? && CKr.value.step <= ns
        invariant SkipTo(CKr.value, skipped, dh, ns, ad) == SkipTo(old(CKr).value, old(skipped), dh, ns, ad)
        decreases ns - CKr.value.step
      {
        var key := CKr.value.MessageKeyHere(ad);
        CKr := Some(CKr.value.Advance(ad));
        var skipId := ShowId(dh, CKr.value.step - 1);
        if Find(skipped, skipId).None? {
          skipped := skipped + [Skipped(skipId, key)];
          if |skipped| > MAX_SKIPPED { skipped := skipped[1..]; }
        }
      }
    }

    method DecryptWithKey(env: Envelope, key: Key) returns (r: Result<string>)
      modifies this
      ensures (View(), r) == old(View()).OpenWith(env, key)
    {
      var id := MsgId(env.header.dh, env.header.ns);
      if id in seen { return Err(Replay); }
      seen := seen + {id};
      if |seen| > SEEN_LIMIT { seen := Largest(seen, SEEN_KEPT); }
      var payload := Open(env.box, key);
      if payload.None? { return Err(BoxRejected); }
      var ad := AssociatedData(ours, theirs);
      if |payload.value| < |ad| || payload.value[..|ad|] != ad { return Err(AdMismatch); }
      return Ok(payload.value[|ad|..]);
    }

    method Save() returns (d: Saved)
      ensures d == View().Serialize()
    {
      d := Saved(PROTOCOL_VERSION, DHs, DHr, RK,
                 if CKs.Some? then Some(CKs.value.key) else None,
                 if CKr.Some? then Some(CKr.value.key) else None,
                 if CKs.Some? then CKs.value.step else 0,
                 if CKr.Some? then CKr.value.step else 0,
                 Ns, Nr, PN, ours, theirs, skipped,
                 PrintIds(Largest(seen, SEEN_SAVED)), pendingSend, dhFresh);
    }

    /** `deserialize`. */
    static method Restore(d: Saved) returns (r: Result<DoubleRatchetSession>)
      ensures match Deserialize(d)
              case Err(e) => r == Err(e)
              case Ok(s) => r.Ok? && fresh(r.value) && r.value.View() == s
    {
      if d.version != PROTOCOL_VERSION { return Err(WrongVersion); }
      var ids := ReadIds(d.seen);
      var session := new DoubleRatchetSession.FromSaved(d, ids);
      return Ok(session);
    }

    constructor FromSaved(d: Saved, ids: set<MsgId>)
      ensures d.version == PROTOCOL_VERSION && ids == ParseIds(d.seen) ==> Ok(View()) == Deserialize(d)
    {
      DHs, DHr, RK := d.dhs, d.dhr, d.rk;
      CKs := if d.cks.Some? then Some(Chain(d.cks.value, d.cksStep)) else None;
      CKr := if d.ckr.Some? then Some(Chain(d.ckr.value, d.ckrStep)) else None;
      Ns, Nr, PN := d.ns, d.nr, d.pn;
      pendingSend, dhFresh := d.pendingSend, d.dhFresh;
      ours, theirs := d.ours, d.theirs;
      seen, skipped := ids, d.skipped;
    }

    /** The seen ids of a saved session; what does not parse is left out. */
    static method ReadIds(seen: seq<string>) returns (ids: set<MsgId>)
      ensures ids == ParseIds(seen)
    {
      hide ParseId;
      ids := {};
      var i := 0;
      while i < |seen|
        invariant 0 <= i <= |seen|
        invariant ids == ParseIds(seen[..i])
      {
        var id := ParseId(seen[i]);
        assert seen[..i + 1][..i] == seen[..i];
        if id.Some? { ids := ids + {id.value}; }
        i := i + 1;
      }
      assert seen[..i] == seen;
    }
  }
}
