/** Text as the server and the session code handle it: Python's ordering of
    strings, decimal numbers, and the `dh:ns` identifiers of messages. */
module Text {

  datatype Option<+T> = None | Some(value: T)

  /** Python's `a < b` on str and bytes: by code point, a proper prefix first. */
  predicate Less(a: string, b: string) {
    if b == [] then false
    else if a == [] then true
    else if a[0] != b[0] then a[0] < b[0]
    else Less(a[1..], b[1..])
  }

  /** The first place where they differ decides, or their lengths. */
  lemma {:induction false} LessExactly(a: string, b: string, k: nat)
    requires k <= |a| && k <= |b| && a[..k] == b[..k]
    requires k < |a| && k < |b| ==> a[k] != b[k]
    ensures Less(a, b) <==> if k < |a| && k < |b| then a[k] < b[k] else |a| < |b|
  {
    if k > 0 {
      assert a[0] == a[..k][0] && b[0] == b[..k][0];
      assert a[1..][..k - 1] == a[..k][1..] && b[1..][..k - 1] == b[..k][1..];
      LessExactly(a[1..], b[1..], k - 1);
    }
  }

  lemma {:induction false} LessIsTotal(a: string, b: string)
    ensures a == b || Less(a, b) || Less(b, a)
    ensures !(Less(a, b) && Less(b, a))
  {
    if a != [] && b != [] && a[0] == b[0] {
      LessIsTotal(a[1..], b[1..]);
      assert a == [a[0]] + a[1..] && b == [b[0]] + b[1..];
    }
  }

  lemma {:induction false} LessIsTransitive(a: string, b: string, c: string)
    requires Less(a, b) && Less(b, c)
    ensures Less(a, c)
  {
    if a != [] && a[0] == b[0] == c[0] {
      LessIsTransitive(a[1..], b[1..], c[1..]);
    }
  }

  // ---- Decimal numbers ----

  predicate IsDigit(c: char) { '0' <= c <= '9' }

  predicate IsHex(c: char) { IsDigit(c) || 'a' <= c <= 'f' || 'A' <= c <= 'F' }

  function Decimal(n: nat): (s: string)
    ensures s != [] && forall i | 0 <= i < |s| :: IsDigit(s[i])
  {
    if n < 10 then ['0' + n as char] else Decimal(n / 10) + ['0' + (n % 10) as char]
  }

  function ShowInt(n: int): string {
    if n < 0 then "-" + Decimal(-n) else Decimal(n)
  }

  function ParseDecimal(s: string): Option<nat> {
    if s == [] then None
    else
      var last := s[|s| - 1];
      if !IsDigit(last) then None
      else if |s| == 1 then Some((last - '0') as nat)
      else match ParseDecimal(s[..|s| - 1]) {
        case None => None
        case Some(n) => Some(10 * n + (last - '0') as nat)
      }
  }

  function ParseInt(s: string): Option<int> {
    if s != [] && s[0] == '-'
    then match ParseDecimal(s[1..]) { case None => None case Some(n) => var i: int := n; Some(-i) }
    else match ParseDecimal(s) { case None => None case Some(n) => Some(n) }
  }

  lemma {:induction false} ParseDecimalUndoesDecimal(n: nat)
    ensures ParseDecimal(Decimal(n)) == Some(n)
  {
    if n >= 10 {
      ParseDecimalUndoesDecimal(n / 10);
      var s := Decimal(n);
      assert s[..|s| - 1] == Decimal(n / 10);
    }
  }

  lemma ParseIntUndoesShowInt(n: int)
    ensures ParseInt(ShowInt(n)) == Some(n)
  {
    if n < 0 {
      ParseDecimalUndoesDecimal(-n);
      assert ShowInt(n)[1..] == Decimal(-n);
    } else {
      ParseDecimalUndoesDecimal(n);
    }
  }

  // ---- Message identifiers ----

  /** The identifier of a message: the sender's ratchet key as it stands in
      the header, and the message number. */
  datatype MsgId = MsgId(dh: string, ns: int)

  /** The printed form `f"{dh}:{ns}"`. */
  function ShowId(dh: string, ns: int): string { dh + ":" + ShowInt(ns) }

  function LastColon(s: string): (r: Option<nat>)
    ensures r.Some? ==> r.value < |s| && s[r.value] == ':'
  {
    if s == [] then None
    else if s[|s| - 1] == ':' then Some(|s| - 1)
    else LastColon(s[..|s| - 1])
  }

  /** `item.rsplit(":", 1)` followed by `int(...)`; None where the source skips the item. */
  function ParseId(s: string): Option<MsgId> {
    match LastColon(s)
    case None => None
    case Some(i) =>
      match ParseInt(s[i + 1..])
      case None => None
      case Some(n) => Some(MsgId(s[..i], n))
  }

  lemma {:induction false} LastColonSkipsColonFree(s: string, tail: string)
    requires ':' !in tail
    ensures LastColon(s + ":" + tail) == Some(|s|)
    decreases |tail|
  {
    var all := s + ":" + tail;
    if tail != [] {
      assert all[..|all| - 1] == s + ":" + tail[..|tail| - 1];
      LastColonSkipsColonFree(s, tail[..|tail| - 1]);
    }
  }

  /** The printed identifier loses nothing, whatever the key text is. */
  lemma ParseIdUndoesShowId(dh: string, ns: int)
    ensures ParseId(ShowId(dh, ns)) == Some(MsgId(dh, ns))
  {
    var s := ShowId(dh, ns);
    LastColonSkipsColonFree(dh, ShowInt(ns));
    ParseIntUndoesShowInt(ns);
    assert s[..|dh|] == dh && s[|dh| + 1..] == ShowInt(ns);
  }

  /** Hence the string-keyed cache never confuses two messages. */
  lemma ShowIdIsInjective(dh: string, ns: int, dh': string, ns': int)
    ensures ShowId(dh, ns) == ShowId(dh', ns') <==> dh == dh' && ns == ns'
  {
    ParseIdUndoesShowId(dh, ns);
    ParseIdUndoesShowId(dh', ns');
  }

  // ---- The largest identifiers of a set ----

  /** The sort key `(t[1], t[0])`: by number, ties by key text. */
  predicate Before(a: MsgId, b: MsgId) {
    a.ns < b.ns || (a.ns == b.ns && Less(a.dh, b.dh))
  }

  /** Of two ids the one with the lower number comes first, of equal numbers the one with the lower key. */
  lemma BeforeExactly(a: MsgId, b: MsgId)
    ensures a.ns < b.ns ==> Before(a, b)
    ensures a.ns == b.ns ==> (Before(a, b) <==> Less(a.dh, b.dh))
    ensures a.ns > b.ns ==> !Before(a, b)
  {
  }

  lemma BeforeIsTotalOrder(a: MsgId, b: MsgId, c: MsgId)
    ensures a == b || Before(a, b) || Before(b, a)
    ensures !(Before(a, b) && Before(b, a))
    ensures Before(a, b) && Before(b, c) ==> Before(a, c)
  {
    LessIsTotal(a.dh, b.dh);
    if Less(a.dh, b.dh) && Less(b.dh, c.dh) {
      LessIsTransitive(a.dh, b.dh, c.dh);
    }
  }

  predicate IsLast(m: MsgId, ids: set<MsgId>) {
    m in ids && forall x | x in ids :: x == m || Before(x, m)
  }

  lemma {:induction false} LastExists(ids: set<MsgId>)
    requires ids != {}
    ensures exists m :: IsLast(m, ids)
    decreases |ids|
  {
    var x :| x in ids;
    var rest := ids - {x};
    if rest == {} {
      assert ids == {x};
      assert IsLast(x, ids);
    } else {
      LastExists(rest);
      var m :| IsLast(m, rest);
      BeforeIsTotalOrder(m, x, m);
      if Before(m, x) {
        forall y | y in ids ensures y == x || Before(y, x) {
          BeforeIsTotalOrder(y, m, x);
        }
        assert IsLast(x, ids);
      } else {
        assert IsLast(m, ids);
      }
    }
  }

  lemma LastIsUnique(ids: set<MsgId>)
    ensures forall a, b | IsLast(a, ids) && IsLast(b, ids) :: a == b
  {
    forall a, b | IsLast(a, ids) && IsLast(b, ids) ensures a == b {
      BeforeIsTotalOrder(a, b, a);
    }
  }

  /** `sorted(ids)[-n:]` as a set. */
  function Largest(ids: set<MsgId>, n: nat): (r: set<MsgId>)
    ensures r <= ids
    ensures |r| == if |ids| < n then |ids| else n
    ensures forall x, y | x in r && y in ids - r :: Before(y, x)
  {
    if n == 0 || ids == {} then {}
    else
      LastExists(ids);
      LastIsUnique(ids);
      var m :| IsLast(m, ids);
      assert ids == (ids - {m}) + {m};
      Largest(ids - {m}, n - 1) + {m}
  }

  /** The three clauses of `Largest` leave no choice: any set satisfying them is it. */
  lemma LargestIsUnique(ids: set<MsgId>, n: nat, t: set<MsgId>)
    requires t <= ids
    requires |t| == if |ids| < n then |ids| else n
    requires forall x, y | x in t && y in ids - t :: Before(y, x)
    ensures t == Largest(ids, n)
  {
    var r := Largest(ids, n);
    if x :| x in t && x !in r {
      if r <= t {
        assert r < t;
        ProperSubsetIsSmaller(r, t);
        assert false;
      }
      var y :| y in r && y !in t;
      BeforeIsTotalOrder(x, y, x);
      assert false;
    }
    if t != r {
      ProperSubsetIsSmaller(t, r);
    }
  }

  lemma {:induction false} ProperSubsetIsSmaller<T>(a: set<T>, b: set<T>)
    requires a < b
    ensures |a| < |b|
  {
    var d := b - a;
    assert b == a + d && d != {};
  }
}
