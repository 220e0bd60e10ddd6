/** Repair of a database URL whose password was pasted in raw (shared/config.py).
    Percent-encoding is that of RFC 3986, section 2.1. */
module UrlRepair {
  import opened Text

  const RESERVED := "%@/:?#[]&="

  predicate IsReserved(c: char) { c in RESERVED }

  /** A valid escape starts the string. */
  predicate Escaped(s: string) { |s| >= 3 && s[0] == '%' && IsHex(s[1]) && IsHex(s[2]) }

  function HexDigit(n: nat): (c: char)
    requires n < 16
    ensures IsHex(c) && HexValue(c) == n
  {
    if n < 10 then '0' + n as char else 'A' + (n - 10) as char
  }

  function HexValue(c: char): (n: nat)
    requires IsHex(c)
    ensures n < 16
  {
    if c <= '9' then (c - '0') as nat
    else if c <= 'F' then (c - 'A') as nat + 10
    else (c - 'a') as nat + 10
  }

  /** The two upper-case digits the code prints; every reserved character is below 128. */
  function Escape(c: char): (s: string)
    requires c as int < 128
    ensures |s| == 3 && Escaped(s)
  {
    ['%', HexDigit(c as int / 16), HexDigit(c as int % 16)]
  }

  /** The characters that are escaped, and as what. */
  lemma EscapesExactly(c: char)
    ensures IsReserved(c) <==> c in {'%', '@', '/', ':', '?', '#', '[', ']', '&', '='}
    ensures Escape('%') == "%25" && Escape('@') == "%40" && Escape('/') == "%2F" && Escape(':') == "%3A"
    ensures Escape('?') == "%3F" && Escape('#') == "%23" && Escape('[') == "%5B" && Escape(']') == "%5D"
    ensures Escape('&') == "%26" && Escape('=') == "%3D"
  {
  }

  function Encode(s: string): string {
    if s == "" then ""
    else if Escaped(s) then s[..3] + Encode(s[3..])
    else (if IsReserved(s[0]) then Escape(s[0]) else [s[0]]) + Encode(s[1..])
  }

  /** Percent-decoding: an escape stands for the character of its code, anything else for itself. */
  function Decode(s: string): string {
    if s == "" then ""
    else if Escaped(s) then [(HexValue(s[1]) * 16 + HexValue(s[2])) as char] + Decode(s[3..])
    else [s[0]] + Decode(s[1..])
  }

  /** Nothing reserved but the percent signs of valid escapes. */
  predicate Clean(s: string) {
    s == "" || (if Escaped(s) then Clean(s[3..]) else !IsReserved(s[0]) && Clean(s[1..]))
  }

  lemma {:induction false} EncodeIsClean(s: string)
    ensures Clean(Encode(s))
  {
    if s == "" {
    } else if Escaped(s) {
      EncodeIsClean(s[3..]);
      EscapeFirst(s[..3], Encode(s[3..]));
    } else {
      EncodeIsClean(s[1..]);
      if IsReserved(s[0]) {
        EscapeFirst(Escape(s[0]), Encode(s[1..]));
      } else {
        assert ([s[0]] + Encode(s[1..]))[1..] == Encode(s[1..]);
      }
    }
  }

  lemma EscapeFirst(e: string, s: string)
    requires |e| == 3 && Escaped(e)
    ensures Escaped(e + s) && (e + s)[3..] == s && (e + s)[..3] == e
  {
  }

  /** A string is left alone exactly if it is clean. */
  lemma {:induction false} UnchangedExactly(s: string)
    ensures Encode(s) == s <==> Clean(s)
    ensures |Encode(s)| >= |s|
  {
    if s == "" {
    } else if Escaped(s) {
      UnchangedExactly(s[3..]);
      assert s == s[..3] + s[3..];
    } else {
      UnchangedExactly(s[1..]);
      assert s == [s[0]] + s[1..];
    }
  }

  /** Encoding twice is encoding once. */
  lemma {:induction false} EncodeIsIdempotent(s: string)
    ensures Encode(Encode(s)) == Encode(s)
  {
    EncodeIsClean(s);
    UnchangedExactly(Encode(s));
  }

  function Meaning(e: string): char
    requires Escaped(e)
  {
    (HexValue(e[1]) * 16 + HexValue(e[2])) as char
  }

  lemma EscapeMeans(c: char)
    requires c as int < 128
    ensures Meaning(Escape(c)) == c
  {
  }

  lemma DecodeEscape(e: string, s: string)
    requires |e| == 3 && Escaped(e)
    ensures Decode(e + s) == [Meaning(e)] + Decode(s)
  {
    EscapeFirst(e, s);
  }

  lemma DecodePlain(c: char, s: string)
    requires !Escaped([c] + s)
    ensures Decode([c] + s) == [c] + Decode(s)
  {
    assert ([c] + s)[1..] == s;
  }

  /** Encoding changes nothing about what the string decodes to. */
  lemma {:induction false} EncodeKeepsMeaning(s: string)
    ensures Decode(Encode(s)) == Decode(s)
  {
    hide Decode, HexValue, HexDigit, Meaning;
    if s == "" {
    } else if Escaped(s) {
      EncodeKeepsMeaning(s[3..]);
      DecodeEscape(s[..3], Encode(s[3..]));
      DecodeEscape(s[..3], s[3..]);
      assert s == s[..3] + s[3..];
    } else {
      var c, rest := s[0], s[1..];
      EncodeKeepsMeaning(rest);
      assert s == [c] + rest;
      DecodePlain(c, rest);
      if IsReserved(c) {
        DecodeEscape(Escape(c), Encode(rest));
        EscapeMeans(c);
      } else {
        DecodePlain(c, Encode(rest));
      }
    }
  }

  lemma {:induction false} CleanHasNoReserved(s: string, c: char)
    requires Clean(s) && IsReserved(c) && c != '%'
    ensures c !in s
  {
    if s == "" {
    } else if Escaped(s) {
      CleanHasNoReserved(s[3..], c);
      assert s == [s[0], s[1], s[2]] + s[3..];
    } else {
      CleanHasNoReserved(s[1..], c);
      assert s == [s[0]] + s[1..];
    }
  }

  predicate NoneReserved(s: string) {
    forall c <- s :: !IsReserved(c)
  }

  lemma {:induction false} PlainIsUnchanged(s: string)
    requires NoneReserved(s)
    ensures Encode(s) == s
  {
    if s != "" {
      PlainIsUnchanged(s[1..]);
      assert s == [s[0]] + s[1..];
    }
  }

  function Piece(c: char): string { if IsReserved(c) then Escape(c) else [c] }

  lemma EncodeAt(s: string, i: nat)
    requires i < |s|
    ensures Escaped(s[i..]) <==> s[i] == '%' && i + 2 < |s| && IsHex(s[i + 1]) && IsHex(s[i + 2])
    ensures Encode(s[i..]) ==
      if Escaped(s[i..]) then s[i..i + 3] + Encode(s[i + 3..]) else Piece(s[i]) + Encode(s[i + 1..])
  {
    hide IsReserved, Escape, IsHex;
    assert s[i..][1..] == s[i + 1..];
    if Escaped(s[i..]) { assert s[i..][3..] == s[i + 3..] && s[i..][..3] == s[i..i + 3]; }
  }

  /** `_encode_password_once`. */
  method EncodePasswordOnce(pw: string) returns (r: string)
    ensures r == Encode(pw)
  {
    hide Encode, IsReserved, Escape, IsHex;
    if NoneReserved(pw) {
      PlainIsUnchanged(pw);
      return pw;
    }
    r := "";
    var i := 0;
    assert pw[0..] == pw;
    while i < |pw|
      invariant 0 <= i <= |pw| && r + Encode(pw[i..]) == Encode(pw)
    {
      EncodeAt(pw, i);
      var c := pw[i];
      if c == '%' && i + 2 < |pw| && IsHex(pw[i + 1]) && IsHex(pw[i + 2]) {
        r := r + pw[i..i + 3];
        i := i + 3;
      } else {
        r := r + Piece(c);
        i := i + 1;
      }
    }
    EncodeNothing(pw[i..]);
  }

  lemma EncodeNothing(s: string)
    requires s == ""
    ensures Encode(s) == ""
  {
  }

  // ---- The URL ----

  /** What Python strips and calls space. */
  predicate IsSpace(c: char) {
    var n := c as int;
    || 0x09 <= n <= 0x0D || 0x1C <= n <= 0x20 || n == 0x85 || n == 0xA0 || n == 0x1680
    || 0x2000 <= n <= 0x200A || n == 0x2028 || n == 0x2029 || n == 0x202F || n == 0x205F || n == 0x3000
  }

  predicate IsQuote(c: char) { c == '\'' || c == '"' }

  function StripLeft(s: string, strips: char -> bool): string {
    if s != "" && strips(s[0]) then StripLeft(s[1..], strips) else s
  }

  function StripRight(s: string, strips: char -> bool): string {
    if s != "" && strips(s[|s| - 1]) then StripRight(s[..|s| - 1], strips) else s
  }

  function Strip(s: string, strips: char -> bool): string {
    StripRight(StripLeft(s, strips), strips)
  }

  /** Where a character first occurs, or the length. */
  function Index(s: string, c: char): (i: nat)
    ensures i <= |s| && c !in s[..i] && (i < |s| ==> s[i] == c) && (i == |s| <==> c !in s)
  {
    if s == "" || s[0] == c then 0
    else
      var i := 1 + Index(s[1..], c);
      assert s[..i] == [s[0]] + s[1..][..i - 1] && s == [s[0]] + s[1..];
      i
  }

  function Before(s: string, c: char): string { s[..Index(s, c)] }

  function After(s: string, c: char): string
    requires c in s
  {
    s[Index(s, c) + 1..]
  }

  /** Where "://" first occurs. */
  function SchemeEnd(s: string): (r: Option<nat>)
    ensures r.Some? ==> r.value + 3 <= |s|
  {
    if |s| < 3 then None
    else if s[..3] == "://" then Some(0)
    else
      match SchemeEnd(s[1..])
      case None => None
      case Some(i) => Some(i + 1)
  }

  /** The text after an at sign begins like a host. */
  predicate HostLike(right: string) {
    var probe := Before(Before(Before(right, '?'), '#'), '/');
    probe != "" && '@' !in probe && forall c <- probe :: !IsSpace(c)
  }

  /** The last at sign before something like a host. */
  function SplitAt(rest: string, n: nat): (r: Option<nat>)
    requires n <= |rest|
    ensures r.Some? ==> r.value < n
  {
    if n == 0 then None
    else if rest[n - 1] == '@' && HostLike(rest[n..]) then Some(n - 1)
    else SplitAt(rest, n - 1)
  }

  function Split(s: string, c: char): (r: seq<string>)
    ensures r != [] && forall p <- r :: c !in p
    decreases |s|
  {
    if c in s then
      var rest := Split(After(s, c), c);
      [Before(s, c)] + rest
    else [s]
  }

  function Join(ps: seq<string>, c: char): string {
    if ps == [] then "" else if |ps| == 1 then ps[0] else ps[0] + [c] + Join(ps[1..], c)
  }

  /** The parameters but those named pgbouncer. */
  function Kept(ps: seq<string>): (r: seq<string>)
    ensures forall p <- r :: p in ps && Before(p, '=') != "pgbouncer"
  {
    if ps == [] then []
    else (if Before(ps[0], '=') == "pgbouncer" then [] else [ps[0]]) + Kept(ps[1..])
  }

  function KeepParams(query: string): string { Join(Kept(Split(query, '&')), '&') }

  function Userinfo(s: string): string {
    if ':' in s then Before(s, ':') + ":" + Encode(After(s, ':')) else s
  }

  /** A part that is either empty or starts with its separator. */
  function Part(c: char, s: string): string { if s != "" then [c] + s else "" }

  /** Host, database and kept parameters; None for a host too mangled to touch. */
  function HostPath(hostpath: string): Option<string> {
    var query := if '?' in hostpath then KeepParams(After(hostpath, '?')) else "";
    var path := Before(hostpath, '?');
    var host, db := Before(path, '/'), if '/' in path then After(path, '/') else "";
    if '#' in host then None else Some(host + Part('/', db) + Part('?', query))
  }

  /** `normalize_database_url` behind its first checks. */
  function Repair(url: string, scheme: string, rest: string): string {
    var at := SplitAt(rest, |rest|);
    var userinfo := if at.Some? then rest[..at.value] else "";
    var hostpath := if at.Some? then rest[at.value + 1..] else rest;
    match HostPath(hostpath)
    case None => url
    case Some(path) => scheme + "://" + (if userinfo != "" then Userinfo(userinfo) + "@" else "") + path
  }

  function Normalize(raw: string): string {
    var url := Strip(Strip(raw, IsSpace), IsQuote);
    var colon := SchemeEnd(url);
    if url == "" || "sqlite" <= url || colon.None? then url
    else Repair(url, url[..colon.value], url[colon.value + 3..])
  }

  /** A URL of these parts; an empty database name or query is left out. */
  function Url(scheme: string, user: string, pw: string, host: string, db: string, query: string): string {
    scheme + "://" + (user + ":" + pw + "@" + Tail(host, db, query))
  }

  function Tail(host: string, db: string, query: string): string {
    host + Part('/', db) + Part('?', query)
  }

  /** What the repair asks of everything but the password. */
  predicate Plain(scheme: string, user: string, host: string, db: string, query: string) {
    && ':' !in scheme && !("sqlite" <= scheme) && ':' !in user
    && host != "" && (forall c <- host :: c != '@' && c != '/' && c != '?' && c != '#' && !IsSpace(c))
    && '@' !in db && '?' !in db && '@' !in query
  }

  lemma {:induction false} IndexAfter(a: string, b: string, c: char)
    requires c !in a
    ensures Index(a + b, c) == |a| + Index(b, c)
  {
    if a == "" {
      assert a + b == b;
    } else {
      assert (a + b)[1..] == a[1..] + b;
      IndexAfter(a[1..], b, c);
    }
  }

  lemma IndexSkips(a: string, b: string, c: char)
    requires c !in a
    ensures Before(a + b, c) == a + Before(b, c)
    ensures c in b ==> c in a + b && After(a + b, c) == After(b, c)
  {
    hide Index;
    IndexAfter(a, b, c);
  }

  lemma {:induction false} SchemeEndAt(scheme: string, rest: string)
    requires ':' !in scheme
    ensures SchemeEnd(scheme + ("://" + rest)) == Some(|scheme|)
  {
    var s := scheme + ("://" + rest);
    if scheme == "" {
      assert s[..3] == "://";
    } else {
      assert s[1..] == scheme[1..] + ("://" + rest);
      assert s[..3] != "://" by { assert s[..3][0] == scheme[0]; }
      SchemeEndAt(scheme[1..], rest);
    }
  }

  lemma {:induction false} SplitAtLast(rest: string, n: nat, k: nat)
    requires k < n <= |rest| && rest[k] == '@' && HostLike(rest[k + 1..])
    requires forall i | k < i < n :: rest[i] != '@'
    ensures SplitAt(rest, n) == Some(k)
    decreases n
  {
    hide HostLike;
    if n > k + 1 { SplitAtLast(rest, n - 1, k); }
  }

  lemma PartSplits(a: string, c: char, s: string)
    requires c !in a
    ensures Before(a + Part(c, s), c) == a && (c in a + Part(c, s) <==> s != "")
    ensures s != "" ==> After(a + Part(c, s), c) == s
  {
    IndexSkips(a, Part(c, s), c);
    if s != "" {
      assert Part(c, s)[1..] == s && Index(Part(c, s), c) == 0;
    }
    assert a + "" == a;
  }

  lemma TailParts(host: string, db: string, query: string)
    requires Plain("", "", host, db, query)
    ensures var t := Tail(host, db, query);
      && HostLike(t) && '@' !in t
      && Before(t, '?') == host + Part('/', db) && ('?' in t <==> query != "")
      && (query != "" ==> After(t, '?') == query)
    ensures var path := host + Part('/', db);
      Before(path, '/') == host && ('/' in path <==> db != "") && (db != "" ==> After(path, '/') == db)
  {
    hide Index, Before, After, IsSpace;
    var path := host + Part('/', db);
    assert Tail(host, db, query) == path + Part('?', query);
    PartSplits(path, '?', query);
    PartSplits(host, '/', db);
    HostFirst(host, db);
  }

  lemma HostFirst(host: string, db: string)
    requires '#' !in host && '/' !in host
    ensures Before(Before(host + Part('/', db), '#'), '/') == host
  {
    hide Index;
    IndexSkips(host, Part('/', db), '#');
    var x := Before(Part('/', db), '#');
    IndexSkips(host, x, '/');
    assert x == "" || x[0] == '/';
    SlashFirst(x);
    assert host + "" == host;
  }

  lemma SlashFirst(x: string)
    requires x == "" || x[0] == '/'
    ensures Before(x, '/') == ""
  {
  }

  /** Whatever the password contains, a URL whose other parts are plain comes
      back with the password encoded, and with its query short of pgbouncer. */
  lemma {:induction false} PasswordAloneIsEncoded(
      raw: string, scheme: string, user: string, pw: string, host: string, db: string, query: string)
    requires Plain(scheme, user, host, db, query)
    requires Strip(Strip(raw, IsSpace), IsQuote) == Url(scheme, user, pw, host, db, query)
    ensures Normalize(raw) == Url(scheme, user, Encode(pw), host, db, if query == "" then "" else KeepParams(query))
  {
    hide Encode, KeepParams, Index, HostLike, IsSpace, Strip, Repair, Plain, SchemeEnd, Tail, Before, After, Part;
    var rest := user + ":" + pw + "@" + Tail(host, db, query);
    var url := scheme + "://" + rest;
    SchemeOf(scheme, user, host, db, query);
    assert url == scheme + ("://" + rest);
    SchemeEndAt(scheme, rest);
    assert url[|scheme| + 3..] == rest && url[..|scheme|] == scheme;
    NotSqlite(scheme, rest);
    RepairParts(url, scheme, user, pw, host, db, query);
  }

  lemma SchemeOf(scheme: string, user: string, host: string, db: string, query: string)
    requires Plain(scheme, user, host, db, query)
    ensures ':' !in scheme && !("sqlite" <= scheme)
  {
  }

  lemma HostPathKeeps(host: string, db: string, query: string)
    requires Plain("", "", host, db, query)
    ensures HostPath(Tail(host, db, query)) == Some(Tail(host, db, if query == "" then "" else KeepParams(query)))
  {
    hide KeepParams, Index, HostLike, IsSpace, Before, After;
    TailParts(host, db, query);
  }

  lemma RepairParts(url: string, scheme: string, user: string, pw: string, host: string, db: string, query: string)
    requires Plain(scheme, user, host, db, query)
    ensures Repair(url, scheme, user + ":" + pw + "@" + Tail(host, db, query))
         == Url(scheme, user, Encode(pw), host, db, if query == "" then "" else KeepParams(query))
  {
    TailParts(host, db, query);
    HostPathKeeps(host, db, query);
    hide *;
    var tail := Tail(host, db, query);
    var rest := user + ":" + pw + "@" + tail;
    var k := |user| + 1 + |pw|;
    assert rest[k] == '@' && rest[k + 1..] == tail && rest[..k] == user + ":" + pw;
    SplitAtLast(rest, |rest|, k);
    ColonFree(scheme, user, host, db, query);
    UserinfoOf(user, pw);
    RepairAt(url, scheme, rest, k);
    UrlOf(scheme, user, Encode(pw), host, db, if query == "" then "" else KeepParams(query));
  }

  lemma ColonFree(scheme: string, user: string, host: string, db: string, query: string)
    requires Plain(scheme, user, host, db, query)
    ensures ':' !in user
  {
  }

  lemma RepairAt(url: string, scheme: string, rest: string, k: nat)
    requires SplitAt(rest, |rest|) == Some(k) && k > 0 && HostPath(rest[k + 1..]).Some?
    ensures Repair(url, scheme, rest) == scheme + "://" + (Userinfo(rest[..k]) + "@") + HostPath(rest[k + 1..]).value
  {
    hide SplitAt, HostPath, Userinfo;
  }

  lemma UrlOf(scheme: string, user: string, pw: string, host: string, db: string, query: string)
    ensures Url(scheme, user, pw, host, db, query) == scheme + "://" + (user + ":" + pw + "@") + Tail(host, db, query)
  {
    hide Tail;
  }

  lemma NotSqlite(scheme: string, rest: string)
    requires !("sqlite" <= scheme) && ':' !in scheme
    ensures !("sqlite" <= scheme + "://" + rest)
  {
    var url := scheme + "://" + rest;
    if |scheme| >= 6 {
      assert url[..6] == scheme[..6];
    } else {
      assert url[|scheme|] == ':';
    }
  }

  lemma UserinfoOf(user: string, pw: string)
    requires ':' !in user
    ensures Userinfo(user + ":" + pw) == user + ":" + Encode(pw)
  {
    hide Encode, Index;
    assert user + ":" + pw == user + (":" + pw);
    IndexSkips(user, ":" + pw, ':');
    assert Before(":" + pw, ':') == "" && After(":" + pw, ':') == pw by { ColonFirst(pw); }
    assert user + "" == user;
  }

  lemma ColonFirst(pw: string)
    ensures Before(":" + pw, ':') == "" && After(":" + pw, ':') == pw
  {
  }

  lemma SplitCons(p: string, c: char, rest: string)
    requires c !in p
    ensures Split(p + ([c] + rest), c) == [p] + Split(rest, c)
  {
    hide Before, After;
    IndexSkips(p, [c] + rest, c);
    SeparatorFirst(c, rest);
    assert p + "" == p && ([c] + rest)[0] == c;
  }

  lemma {:induction false} SplitUndoesJoin(ps: seq<string>, c: char)
    requires ps != [] && forall p <- ps :: c !in p
    ensures Split(Join(ps, c), c) == ps
  {
    hide Before, After;
    assert c !in ps[0];
    if |ps| > 1 {
      hide Split;
      SplitUndoesJoin(ps[1..], c);
      SplitCons(ps[0], c, Join(ps[1..], c));
      assert Join(ps, c) == ps[0] + ([c] + Join(ps[1..], c));
    }
  }

  lemma SeparatorFirst(c: char, s: string)
    ensures Before([c] + s, c) == "" && After([c] + s, c) == s
  {
  }

  lemma {:induction false} KeptIsKept(ps: seq<string>)
    requires forall p <- ps :: Before(p, '=') != "pgbouncer"
    ensures Kept(ps) == ps
  {
    if ps != [] {
      KeptIsKept(ps[1..]);
      assert ps == [ps[0]] + ps[1..];
    }
  }

  /** Dropping pgbouncer twice is dropping it once. */
  lemma {:induction false} KeepIsIdempotent(query: string)
    ensures KeepParams(KeepParams(query)) == KeepParams(query)
  {
    hide Index, Before, Split, Kept, Join;
    var ps := Kept(Split(query, '&'));
    if ps == [] {
      NothingKept();
    } else {
      SplitUndoesJoin(ps, '&');
      KeptIsKept(ps);
    }
  }

  lemma NothingKept()
    ensures Join([], '&') == "" && KeepParams("") == ""
  {
    assert Split("", '&') == [""];
    assert Before("", '=') == "";
    assert Kept([""]) == [""];
  }

  /** Which parameters go: those named pgbouncer, with a value or without. */
  lemma KeptExactly(p: string)
    ensures Kept([p]) == if p == "pgbouncer" || "pgbouncer" + "=" <= p then [] else [p]
  {
    NamedExactly(p, "pgbouncer");
    assert [p][1..] == [];
    hide Before;
  }

  /** And they go wherever they stand. */
  lemma {:induction false} KeptAnywhere(a: seq<string>, b: seq<string>)
    ensures Kept(a + b) == Kept(a) + Kept(b)
  {
    hide Before;
    if a == [] {
      assert a + b == b;
    } else {
      assert (a + b)[1..] == a[1..] + b;
      KeptAnywhere(a[1..], b);
    }
  }

  lemma NamedExactly(p: string, name: string)
    requires '=' !in name
    ensures Before(p, '=') == name <==> p == name || name + "=" <= p
  {
    var i := Index(p, '=');
    if Before(p, '=') == name && i < |p| {
      assert p[..i + 1] == name + "=";
    }
    if name + "=" <= p {
      var rest := p[|name|..];
      assert p == name + rest && rest[0] == '=' && p[..|name|] == name;
      IndexAfter(name, rest, '=');
    }
  }

  /** A query written as a list of parameters keeps the list without them. */
  lemma KeepsTheOthers(ps: seq<string>)
    requires ps != [] && forall p <- ps :: '&' !in p
    ensures KeepParams(Join(ps, '&')) == Join(Kept(ps), '&')
  {
    SplitUndoesJoin(ps, '&');
  }

  // ---- Where a URL is taken apart ----

  predicate SeparatorAt(s: string, i: nat) {
    i + 3 <= |s| && s[i] == ':' && s[i + 1] == '/' && s[i + 2] == '/'
  }

  /** The first "://", if there is one. */
  lemma {:induction false} SchemeEndExactly(s: string)
    ensures match SchemeEnd(s)
      case None => forall i: nat :: !SeparatorAt(s, i)
      case Some(k) => SeparatorAt(s, k) && forall i: nat | i < k :: !SeparatorAt(s, i)
  {
    assert SeparatorAt(s, 0) <==> |s| >= 3 && s[..3] == "://";
    if |s| >= 3 {
      forall i: nat | i > 0 ensures SeparatorAt(s, i) <==> SeparatorAt(s[1..], i - 1) { }
      if s[..3] != "://" { SchemeEndExactly(s[1..]); }
    }
  }

  /** Something like a host: a first part, up to the first of `?`, `#` and `/`, that is not empty and
      holds neither an at sign nor a space. */
  lemma HostLikeExactly(right: string)
    ensures HostLike(right) <==> exists k | 0 < k <= |right| ::
      && (k < |right| ==> right[k] in "?#/")
      && forall i | 0 <= i < k :: right[i] !in "?#/" && right[i] != '@' && !IsSpace(right[i])
  {
    var a := Before(right, '?');
    var b := Before(a, '#');
    var probe := Before(b, '/');
    assert probe == right[..|probe|];
    assert forall i | 0 <= i < |probe| :: right[i] == probe[i] && right[i] in a && right[i] in b && right[i] in probe;
    assert |probe| < |right| ==> right[|probe|] in "?#/";
    if HostLike(right) {
      assert 0 < |probe| <= |right|;
    }
    if k :| 0 < k <= |right| && (k < |right| ==> right[k] in "?#/")
            && forall i | 0 <= i < k :: right[i] !in "?#/" && right[i] != '@' && !IsSpace(right[i]) {
      assert k == |probe|;
      forall c | c in probe ensures c != '@' && !IsSpace(c) {
        var i :| 0 <= i < |probe| && probe[i] == c;
        assert right[i] == c;
      }
    }
  }

  /** The last at sign before something like a host, if there is one. */
  lemma {:induction false} SplitAtExactly(rest: string, n: nat)
    requires n <= |rest|
    ensures match SplitAt(rest, n)
      case None => forall j | 0 <= j < n :: rest[j] != '@' || !HostLike(rest[j + 1..])
      case Some(k) =>
        && k < n && rest[k] == '@' && HostLike(rest[k + 1..])
        && forall j | k < j < n :: rest[j] != '@' || !HostLike(rest[j + 1..])
  {
    hide HostLike;
    if n > 0 { SplitAtExactly(rest, n - 1); }
  }

  /** What is stripped is a run of such characters at either end, as long as there are any. */
  lemma {:induction false} StripExactly(s: string, strips: char -> bool)
    ensures exists i, j | 0 <= i <= j <= |s| ::
      && Strip(s, strips) == s[i..j]
      && (forall k | 0 <= k < |s| && (k < i || j <= k) :: strips(s[k]))
      && (i < j ==> !strips(s[i]) && !strips(s[j - 1]))
  {
    var i := LeftEnd(s, strips);
    var t := s[i..];
    var n := RightEnd(t, strips);
    assert s[i..i + n] == t[..n];
    forall k | 0 <= k < |s| && (k < i || i + n <= k) ensures strips(s[k]) {
      if k >= i { assert s[k] == t[k - i]; }
    }
  }

  lemma {:induction false} LeftEnd(s: string, strips: char -> bool) returns (i: nat)
    ensures i <= |s| && StripLeft(s, strips) == s[i..] && (forall k | 0 <= k < i :: strips(s[k]))
    ensures i < |s| ==> !strips(s[i])
  {
    i := 0;
    if s != "" && strips(s[0]) {
      var k := LeftEnd(s[1..], strips);
      i := k + 1;
      assert s[1..][k..] == s[i..];
    }
  }

  lemma {:induction false} RightEnd(s: string, strips: char -> bool) returns (n: nat)
    ensures n <= |s| && StripRight(s, strips) == s[..n] && (forall k | n <= k < |s| :: strips(s[k]))
    ensures n > 0 ==> !strips(s[n - 1])
  {
    n := |s|;
    if s != "" && strips(s[|s| - 1]) {
      n := RightEnd(s[..|s| - 1], strips);
      assert s[..|s| - 1][..n] == s[..n];
    }
  }

  /** Left alone but for the stripping: nothing at all, SQLite, text that is no
      URL, and a host with a number sign. */
  lemma LeftAlone(raw: string)
    ensures var url := Strip(Strip(raw, IsSpace), IsQuote); var colon := SchemeEnd(url);
      (url == "" || "sqlite" <= url || colon.None? || SignedHost(url[colon.value + 3..])) ==> Normalize(raw) == url
  {
    hide Strip, SchemeEnd, SignedHost, Repair;
    var url := Strip(Strip(raw, IsSpace), IsQuote);
    var colon := SchemeEnd(url);
    if colon.Some? && SignedHost(url[colon.value + 3..]) {
      SignedIsLeft(url, url[..colon.value], url[colon.value + 3..]);
    }
  }

  /** There is a number sign in the part before the first slash or question mark behind the user information. */
  predicate SignedHost(rest: string) {
    var at := SplitAt(rest, |rest|);
    '#' in Before(Before(if at.Some? then rest[at.value + 1..] else rest, '?'), '/')
  }

  lemma SignedIsLeft(url: string, scheme: string, rest: string)
    requires SignedHost(rest)
    ensures Repair(url, scheme, rest) == url
  {
    hide SplitAt, Before, KeepParams, Encode;
  }

  predicate Strips(c: char) { IsSpace(c) || IsQuote(c) }

  lemma NothingToStrip(s: string)
    requires s != "" && !Strips(s[0]) && !Strips(s[|s| - 1])
    ensures Strip(Strip(s, IsSpace), IsQuote) == s
  {
    hide IsSpace;
  }

  /** A URL pasted with a blank or a line end, or a quote, around it is repaired as the URL itself. */
  lemma PastedIsStripped(url: string, c: char)
    requires url != "" && !Strips(url[0]) && !Strips(url[|url| - 1]) && c in " \t\r\n'\""
    ensures Normalize([c] + url + [c]) == Normalize(url)
  {
    NothingToStrip(url);
    var raw := [c] + url + [c];
    hide Repair, SchemeEnd, Strip, IsSpace;
    if c == '\'' || c == '"' {
      QuotesStrip(url, c);
    } else {
      BlanksStrip(url, c);
    }
  }

  lemma QuotesStrip(url: string, c: char)
    requires url != "" && !Strips(url[0]) && !Strips(url[|url| - 1]) && c in "'\""
    ensures Strip(Strip([c] + url + [c], IsSpace), IsQuote) == url
  {
    var raw := [c] + url + [c];
    assert IsQuote(c) && !IsSpace(c);
    hide IsSpace, IsQuote;
    assert StripLeft(raw, IsSpace) == raw && StripRight(raw, IsSpace) == raw;
    StripsOne(url, c, IsQuote);
  }

  lemma BlanksStrip(url: string, c: char)
    requires url != "" && !Strips(url[0]) && !Strips(url[|url| - 1]) && c in " \t\r\n"
    ensures Strip(Strip([c] + url + [c], IsSpace), IsQuote) == url
  {
    assert IsSpace(c);
    hide IsSpace, IsQuote;
    StripsOne(url, c, IsSpace);
    assert StripLeft(url, IsQuote) == url && StripRight(url, IsQuote) == url;
  }

  lemma StripsOne(url: string, c: char, strips: char -> bool)
    requires url != "" && !strips(url[0]) && !strips(url[|url| - 1]) && strips(c)
    ensures Strip([c] + url + [c], strips) == url
  {
    var raw := [c] + url + [c];
    assert raw[1..] == url + [c] && raw[0] == c;
    assert (url + [c])[0] == url[0] && (url + [c])[..|url|] == url;
    assert StripLeft(raw, strips) == StripLeft(url + [c], strips) == url + [c];
    assert StripRight(url + [c], strips) == StripRight(url, strips) == url;
  }

  /** Repairing a repaired URL changes nothing more, if the scheme does not
      begin and the kept tail does not end with what is stripped. */
  lemma {:induction false} RepairIsStable(
      raw: string, scheme: string, user: string, pw: string, host: string, db: string, query: string)
    requires Plain(scheme, user, host, db, query)
    requires scheme != "" ==> !Strips(scheme[0])
    requires var tail := Tail(host, db, if query == "" then "" else KeepParams(query)); !Strips(tail[|tail| - 1])
    requires Strip(Strip(raw, IsSpace), IsQuote) == Url(scheme, user, pw, host, db, query)
    ensures Normalize(Normalize(raw)) == Normalize(raw)
  {
    var q := if query == "" then "" else KeepParams(query);
    PasswordAloneIsEncoded(raw, scheme, user, pw, host, db, query);
    var fixed := Url(scheme, user, Encode(pw), host, db, q);
    UrlEnds(scheme, user, Encode(pw), host, db, q);
    KeptHasNoAt(query);
    PlainWithQuery(scheme, user, host, db, query, q);
    hide *;
    NothingToStrip(fixed);
    PasswordAloneIsEncoded(fixed, scheme, user, Encode(pw), host, db, q);
    EncodeIsIdempotent(pw);
    KeepIsIdempotent(query);
  }

  lemma UrlEnds(scheme: string, user: string, pw: string, host: string, db: string, query: string)
    requires (scheme != "" ==> !Strips(scheme[0])) && host != ""
    requires var tail := Tail(host, db, query); !Strips(tail[|tail| - 1])
    ensures var url := Url(scheme, user, pw, host, db, query); url != "" && !Strips(url[0]) && !Strips(url[|url| - 1])
  {
    hide Tail;
    var url, tail := Url(scheme, user, pw, host, db, query), Tail(host, db, query);
    assert tail != "" by { TailNonEmpty(host, db, query); }
    assert url[|url| - 1] == tail[|tail| - 1];
    assert url[0] == if scheme == "" then ':' else scheme[0];
  }

  lemma TailNonEmpty(host: string, db: string, query: string)
    requires host != ""
    ensures Tail(host, db, query) != ""
  {
  }

  lemma PlainWithQuery(scheme: string, user: string, host: string, db: string, query: string, q: string)
    requires Plain(scheme, user, host, db, query) && '@' !in q
    ensures Plain(scheme, user, host, db, q)
  {
  }

  lemma KeptHasNoAt(query: string)
    requires '@' !in query
    ensures '@' !in KeepParams(query)
  {
    SplitWithin(query, '&', '@');
    JoinWithin(Kept(Split(query, '&')), '&', '@');
  }

  lemma {:induction false} SplitWithin(s: string, c: char, x: char)
    requires x !in s
    ensures forall p <- Split(s, c) :: x !in p
    decreases |s|
  {
    if c in s { SplitWithin(After(s, c), c, x); }
  }

  lemma {:induction false} JoinWithin(ps: seq<string>, c: char, x: char)
    requires c != x && forall p <- ps :: x !in p
    ensures x !in Join(ps, c)
  {
    if |ps| > 1 {
      JoinWithin(ps[1..], c, x);
    } else if |ps| == 1 {
      assert x !in ps[0];
    }
  }

  /** The loop of `normalize_database_url` over the at signs, last first. */
  method SplitUserinfo(rest: string) returns (userinfo: string, hostpath: string)
    ensures match SplitAt(rest, |rest|)
            case None => userinfo == "" && hostpath == rest
            case Some(k) => userinfo == rest[..k] && hostpath == rest[k + 1..]
  {
    hide HostLike;
    var n := |rest|;
    while n > 0
      invariant 0 <= n <= |rest| && SplitAt(rest, |rest|) == SplitAt(rest, n)
    {
      if rest[n - 1] == '@' && HostLike(rest[n..]) { return rest[..n - 1], rest[n..]; }
      n := n - 1;
    }
    return "", rest;
  }

  /** Its handling of query, host and database name. */
  method RepairHostPath(hostpath: string) returns (r: Option<string>)
    ensures r == HostPath(hostpath)
  {
    hide Index, KeepParams;
    var path, query := hostpath, "";
    if '?' in path { path, query := Before(path, '?'), KeepParams(After(path, '?')); }
    var host, db := path, "";
    if '/' in path { host, db := Before(path, '/'), After(path, '/'); }
    assert path == Before(hostpath, '?') && host == Before(path, '/');
    if '#' in host { return None; }
    var out := host;
    if db != "" { out := out + ("/" + db); }
    if query != "" { out := out + ("?" + query); }
    assert out == host + Part('/', db) + Part('?', query);
    return Some(out);
  }

  method NormalizeDatabaseUrl(raw: string) returns (r: string)
    ensures r == Normalize(raw)
  {
    hide HostPath, Index, SchemeEnd, SplitAt, Strip, Encode, IsSpace, Before, After;
    var url := Strip(Strip(raw, IsSpace), IsQuote);
    var colon := SchemeEnd(url);
    if url == "" || "sqlite" <= url || colon.None? { return url; }
    var scheme, rest := url[..colon.value], url[colon.value + 3..];
    var userinfo, hostpath := SplitUserinfo(rest);
    var path := RepairHostPath(hostpath);
    if path.None? { return url; }
    r := scheme + "://";
    if userinfo != "" {
      if ':' in userinfo {
        var password := EncodePasswordOnce(After(userinfo, ':'));
        r := r + (Before(userinfo, ':') + ":" + password + "@");
      } else {
        r := r + (userinfo + "@");
      }
    }
    r := r + path.value;
    assert scheme + "://" + "" == scheme + "://";
  }
}
