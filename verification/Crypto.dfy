/** The cryptography of the sessions, as free terms: two keys are equal only
    if they were derived in the same way from the same secrets, and a sealed
    box opens under the key that sealed it and no other. A key pair is named
    by the lower-case hex text of its public key. */
module Crypto {
  import opened Text

  datatype Key =
    | Shared(low: string, high: string)           // X25519 of two key pairs
    | SessionSecret(dh1: Key, dh2: Key, dh3: Key, dh4: Option<Key>)  // "X3DH_SK"
    | InitRoot(sk: Key) | InitChain(sk: Key)      // halves of "DoubleRatchet_Init"
    | StepRoot(rk: Key, dh: Key)                  // halves of "DoubleRatchet_Ratchet"
    | StepChain(rk: Key, dh: Key)
    | MessageKey(chain: Key, ad: string)          // "|nurchat:msg"
    | NextChain(chain: Key, ad: string)           // "|nurchat:chain"

  /** The key agreed between two key pairs; it does not depend on who computes it. */
  function Dh(a: string, b: string): Key {
    if Less(a, b) then Shared(a, b) else Shared(b, a)
  }

  lemma DhAgrees(a: string, b: string)
    ensures Dh(a, b) == Dh(b, a)
  {
    LessIsTotal(a, b);
  }

  lemma DhSeparates(a: string, b: string, c: string)
    ensures Dh(a, b) == Dh(a, c) <==> b == c
  {
    LessIsTotal(a, b);
    LessIsTotal(a, c);
  }

  /** What travels: a box sealed under a key, or bytes that no key opens. */
  datatype SealedBox = Sealed(key: Key, payload: string) | Junk(bytes: string)

  function Open(box: SealedBox, key: Key): Option<string> {
    if box.Sealed? && box.key == key then Some(box.payload) else None
  }

  // ---- KDF chains ----

  datatype Chain = Chain(key: Key, step: nat) {
    function MessageKeyHere(ad: string): Key { MessageKey(key, ad) }
    function Advance(ad: string): Chain { Chain(NextChain(key, ad), step + 1) }
  }

  /** The chain key after n steps from `start`. */
  function ChainKey(start: Key, n: nat, ad: string): Key {
    if n == 0 then start else NextChain(ChainKey(start, n - 1, ad), ad)
  }

  function ChainAt(start: Key, n: nat, ad: string): Chain { Chain(ChainKey(start, n, ad), n) }

  /** The key a chain key was started from, and how many steps it has taken since. */
  function Origin(k: Key): Key {
    if k.NextChain? then Origin(k.chain) else k
  }

  function Steps(k: Key): nat {
    if k.NextChain? then 1 + Steps(k.chain) else 0
  }

  /** How many root steps lie behind a root key or a chain key. */
  function Depth(k: Key): nat {
    match k
    case StepRoot(rk, _) => 1 + Depth(rk)
    case StepChain(rk, _) => 1 + Depth(rk)
    case NextChain(c, _) => Depth(c)
    case _ => 0
  }

  lemma {:induction false} ChainKeyOrigin(start: Key, n: nat, ad: string)
    requires !start.NextChain?
    ensures Origin(ChainKey(start, n, ad)) == start
    ensures Steps(ChainKey(start, n, ad)) == n
  {
    if n > 0 { ChainKeyOrigin(start, n - 1, ad); }
  }

  // ---- Header keys ----

  predicate IsLowerHex(c: char) { '0' <= c <= '9' || 'a' <= c <= 'f' }

  function Lower(c: char): char
    requires IsHex(c)
  {
    if 'A' <= c <= 'F' then 'a' + (c - 'A') else c
  }

  /** `bytes.fromhex`: pairs of hex digits in either case, ASCII blanks between pairs. */
  function FromHex(s: string): Option<string> {
    if s == [] then Some("")
    else if s[0] in " \t\n\r\U{0b}\U{0c}" then FromHex(s[1..])
    else if |s| >= 2 && IsHex(s[0]) && IsHex(s[1]) then
      match FromHex(s[2..])
      case None => None
      case Some(rest) => Some([Lower(s[0]), Lower(s[1])] + rest)
    else None
  }

  /** `PublicKey(bytes.fromhex(text))`: 32 bytes or an exception. */
  function ParseKey(text: string): Option<string> {
    match FromHex(text)
    case None => None
    case Some(key) => if |key| == 64 then Some(key) else None
  }

  /** A key text as `public_key.encode(encoder=HexEncoder)` writes it. */
  predicate IsKeyText(k: string) {
    |k| == 64 && forall i | 0 <= i < |k| :: IsLowerHex(k[i])
  }

  lemma {:induction false} FromHexReadsLowerHex(k: string)
    requires |k| % 2 == 0 && forall i | 0 <= i < |k| :: IsLowerHex(k[i])
    ensures FromHex(k) == Some(k)
  {
    if k != [] {
      FromHexReadsLowerHex(k[2..]);
      assert k == [k[0], k[1]] + k[2..];
    }
  }

  lemma ParseKeyReadsKeyText(k: string)
    requires IsKeyText(k)
    ensures ParseKey(k) == Some(k)
  {
    FromHexReadsLowerHex(k);
  }
}
