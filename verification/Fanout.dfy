/** WebSocket fan-out: one connection manager per server instance with a
    reverse index from chats to users (server/ws/chat_manager.py), and a bus
    between the instances (server/ws/bus.py). */
module Fanout {
  import opened Text

  type User = string
  type ChatId = string
  type Socket = nat
  type FrameId = nat

  /** `active_connections`, `user_chats` and `chat_users`. */
  datatype Manager = Manager(active: map<User, Socket>, lists: map<User, seq<ChatId>>, index: map<ChatId, set<User>>)

  function ListOf(m: Manager, u: User): seq<ChatId> {
    if u in m.lists then m.lists[u] else []
  }

  function Members(m: Manager, c: ChatId): set<User> {
    if c in m.index then m.index[c] else {}
  }

  function Entered(index: map<ChatId, set<User>>, u: User, c: ChatId): map<ChatId, set<User>> {
    index[c := (if c in index then index[c] else {}) + {u}]
  }

  function EnteredAll(index: map<ChatId, set<User>>, u: User, cs: seq<ChatId>): map<ChatId, set<User>> {
    if cs == [] then index
    else Entered(EnteredAll(index, u, cs[..|cs| - 1]), u, cs[|cs| - 1])
  }

  lemma {:induction false} EnteredAllExactly(index: map<ChatId, set<User>>, u: User, cs: seq<ChatId>)
    ensures EnteredAll(index, u, cs).Keys == index.Keys + set c | c in cs
    ensures forall c | c in EnteredAll(index, u, cs) ::
      EnteredAll(index, u, cs)[c] == (if c in index then index[c] else {}) + if c in cs then {u} else {}
  {
    if cs != [] {
      var n := |cs| - 1;
      assert cs == cs[..n] + [cs[n]];
      EnteredAllExactly(index, u, cs[..n]);
    }
  }

  /** `connect`, with the rows `_load_user_chats` found. */
  function Connect(m: Manager, u: User, socket: Socket, chats: seq<ChatId>): Manager {
    Manager(m.active[u := socket], m.lists[u := chats], EnteredAll(m.index, u, chats))
  }

  function Dropped(m: Manager, u: User): Manager {
    Manager(m.active - {u}, m.lists, map c | c in m.index :: if c in ListOf(m, u) then m.index[c] - {u} else m.index[c])
  }

  /** `disconnect`: a socket that no longer owns the slot changes nothing. */
  function Disconnect(m: Manager, u: User, socket: Option<Socket>): Manager {
    if u !in m.active || (socket.Some? && m.active[u] != socket.value) then m else Dropped(m, u)
  }

  /** `add_user_to_chat`. */
  function Add(m: Manager, u: User, c: ChatId): Manager {
    if c in ListOf(m, u) then m
    else m.(lists := m.lists[u := ListOf(m, u) + [c]], index := Entered(m.index, u, c))
  }

  function WithoutFirst(cs: seq<ChatId>, c: ChatId): (r: seq<ChatId>)
    ensures forall d :: d in r ==> d in cs
    ensures forall d | d in cs && d != c :: d in r
  {
    if cs == [] then []
    else if cs[0] == c then cs[1..]
    else [cs[0]] + WithoutFirst(cs[1..], c)
  }

  /** `remove_user_from_chat`. */
  function Remove(m: Manager, u: User, c: ChatId): Manager {
    if c !in ListOf(m, u) then m
    else m.(lists := m.lists[u := WithoutFirst(m.lists[u], c)],
            index := if c in m.index then m.index[c := m.index[c] - {u}] else m.index)
  }

  // ---- A local broadcast ----

  /** A broadcast that raises leaves the rest of the users unserved. */
  datatype Sent = Sent(users: seq<User>, lost: seq<User>, raised: bool)

  /** The loop of `broadcast_local` over the users `order` of the chat's index
      entry, when sends to `dead` fail. A failed send disconnects its user; if
      that takes the user out of the set being iterated, the iteration raises. */
  function Serve(m: Manager, c: ChatId, exclude: Option<User>, dead: set<User>, order: seq<User>): (r: (Manager, Sent))
    ensures forall u <- r.1.users :: u in m.active && u in order && exclude != Some(u)
    ensures forall u <- r.1.lost :: u in m.active && u in dead
    decreases |order|
  {
    if order == [] then (m, Sent([], [], false))
    else
      var u, rest := order[0], order[1..];
      if exclude == Some(u) || u !in m.active then Serve(m, c, exclude, dead, rest)
      else if u in dead then
        var m' := Dropped(m, u);
        if |Members(m', c)| != |Members(m, c)| then (m', Sent([], [u], true))
        else
          var (m'', r) := Serve(m', c, exclude, dead, rest);
          (m'', r.(lost := [u] + r.lost))
      else
        var (m', r) := Serve(m, c, exclude, dead, rest);
        (m', r.(users := [u] + r.users))
  }

  predicate Distinct<T(==)>(s: seq<T>) {
    forall i, j | 0 <= i < j < |s| :: s[i] != s[j]
  }

  /** An order in which a set may be iterated. */
  predicate Enumerates(order: seq<User>, users: set<User>) {
    Distinct(order) && (forall u <- order :: u in users) && forall u <- users :: u in order
  }

  // ---- The index against the lists ----

  /** Every connected user listing a chat is in its index entry. */
  predicate Indexed(m: Manager) {
    forall u | u in m.active && u in m.lists :: forall c <- m.lists[u] :: u in Members(m, c)
  }

  /** Every user in an index entry lists the chat. */
  predicate Listed(m: Manager) {
    forall c | c in m.index :: forall u <- m.index[c] :: c in ListOf(m, u)
  }

  predicate ListsDistinct(m: Manager) {
    forall u | u in m.lists :: Distinct(m.lists[u])
  }

  /** Whom a broadcast is for: a scan over the connected users and their lists. */
  predicate Audience(m: Manager, c: ChatId, exclude: Option<User>, u: User) {
    u in m.active && c in ListOf(m, u) && exclude != Some(u)
  }

  lemma ConnectKeeps(m: Manager, u: User, socket: Socket, chats: seq<ChatId>)
    requires Indexed(m)
    ensures Indexed(Connect(m, u, socket, chats))
    ensures ListsDistinct(m) && Distinct(chats) ==> ListsDistinct(Connect(m, u, socket, chats))
    ensures Listed(m) ==>
      (Listed(Connect(m, u, socket, chats)) <==> forall c | c in m.index && u in m.index[c] :: c in chats)
  {
    var m' := Connect(m, u, socket, chats);
    EnteredAllExactly(m.index, u, chats);
    forall v, c | v in m'.active && v in m'.lists && c in m'.lists[v] ensures v in Members(m', c) {
      if v != u { assert v in Members(m, c); }
    }
    if Listed(m) && forall c | c in m.index && u in m.index[c] :: c in chats {
      forall c, v | c in m'.index && v in m'.index[c] ensures c in ListOf(m', v) {
        if v != u { assert c in ListOf(m, v); }
      }
    }
    if Listed(m') {
      forall c | c in m.index && u in m.index[c] ensures c in chats {
        assert u in m'.index[c] && c in ListOf(m', u);
      }
    }
  }

  lemma DisconnectKeeps(m: Manager, u: User, socket: Option<Socket>)
    ensures Indexed(m) ==> Indexed(Disconnect(m, u, socket))
    ensures Listed(m) ==> Listed(Disconnect(m, u, socket))
    ensures Disconnect(m, u, socket).lists == m.lists
  {
    var m' := Disconnect(m, u, socket);
    if Indexed(m) {
      forall v, c | v in m'.active && v in m'.lists && c in m'.lists[v] ensures v in Members(m', c) {
        assert v in Members(m, c);
      }
    }
    if Listed(m) {
      forall c, v | c in m'.index && v in m'.index[c] ensures c in ListOf(m', v) {
        assert v in m.index[c];
      }
    }
  }

  lemma AddKeeps(m: Manager, u: User, c: ChatId)
    ensures Indexed(m) ==> Indexed(Add(m, u, c))
    ensures Listed(m) ==> Listed(Add(m, u, c))
    ensures ListsDistinct(m) ==> ListsDistinct(Add(m, u, c))
  {
    var m' := Add(m, u, c);
    if Indexed(m) {
      forall v, d | v in m'.active && v in m'.lists && d in m'.lists[v] ensures v in Members(m', d) {
        if !(v == u && d == c) { assert v in m.lists && d in m.lists[v] && v in Members(m, d); }
      }
    }
    if Listed(m) {
      forall d, v | d in m'.index && v in m'.index[d] ensures d in ListOf(m', v) {
        if !(v == u && d == c) { assert d in m.index && v in m.index[d] && d in ListOf(m, v); }
      }
    }
  }

  lemma {:induction false} WithoutFirstExactly(cs: seq<ChatId>, c: ChatId)
    ensures c in WithoutFirst(cs, c) <==> exists i, j | 0 <= i < j < |cs| :: cs[i] == c && cs[j] == c
  {
    if cs != [] {
      var rest := cs[1..];
      WithoutFirstExactly(rest, c);
      if cs[0] == c {
        if c in rest {
          var k :| 0 <= k < |rest| && rest[k] == c;
          assert cs[0] == c && cs[k + 1] == c;
        }
      } else {
        if i, j :| 0 <= i < j < |rest| && rest[i] == c && rest[j] == c {
          assert cs[i + 1] == c && cs[j + 1] == c;
        }
        if i, j :| 0 <= i < j < |cs| && cs[i] == c && cs[j] == c {
          assert rest[i - 1] == c && rest[j - 1] == c;
        }
      }
    }
  }

  lemma {:induction false} WithoutFirstDistinct(cs: seq<ChatId>, c: ChatId)
    requires Distinct(cs)
    ensures Distinct(WithoutFirst(cs, c)) && c !in WithoutFirst(cs, c)
  {
    WithoutFirstExactly(cs, c);
    if cs != [] {
      var rest := cs[1..];
      DistinctTail(cs);
      WithoutFirstDistinct(rest, c);
      if cs[0] != c {
        DistinctCons(cs[0], WithoutFirst(rest, c));
      }
    }
  }

  lemma DistinctTail<T>(s: seq<T>)
    requires Distinct(s) && s != []
    ensures Distinct(s[1..]) && s[0] !in s[1..]
  {
    forall i, j | 0 <= i < j < |s[1..]| ensures s[1..][i] != s[1..][j] {
      assert s[i + 1] != s[j + 1];
    }
  }

  lemma DistinctCons<T>(x: T, s: seq<T>)
    requires Distinct(s) && x !in s
    ensures Distinct([x] + s)
  {
    forall i, j | 0 <= i < j < |s| + 1 ensures ([x] + s)[i] != ([x] + s)[j] {
      if i > 0 { assert s[i - 1] != s[j - 1]; }
    }
  }

  /** A removal keeps the index complete exactly if the user is not connected
      or lists the chat at most once. */
  lemma {:induction false} RemoveKeepsIndexExactly(m: Manager, u: User, c: ChatId)
    requires Indexed(m)
    ensures Indexed(Remove(m, u, c))
       <==> u !in m.active
            || !(exists i, j | 0 <= i < j < |ListOf(m, u)| :: ListOf(m, u)[i] == c && ListOf(m, u)[j] == c)
  {
    WithoutFirstExactly(ListOf(m, u), c);
    var m' := Remove(m, u, c);
    if c in ListOf(m, u) {
      assert u !in Members(m', c);
      if !(u in m.active && c in WithoutFirst(m.lists[u], c)) {
        forall v, d | v in m'.active && v in m'.lists && d in m'.lists[v] ensures v in Members(m', d) {
          assert v in m.lists && d in m.lists[v] && v in Members(m, d);
        }
      }
    } else {
      assert m' == m;
    }
  }

  lemma RemoveKeeps(m: Manager, u: User, c: ChatId)
    requires ListsDistinct(m)
    ensures Listed(m) ==> Listed(Remove(m, u, c))
    ensures ListsDistinct(Remove(m, u, c))
    ensures c !in ListOf(Remove(m, u, c), u)
  {
    var m' := Remove(m, u, c);
    if u in m.lists {
      WithoutFirstDistinct(m.lists[u], c);
    }
    if Listed(m) {
      forall d, v | d in m'.index && v in m'.index[d] ensures d in ListOf(m', v) {
        assert v in m.index[d] && d in ListOf(m, v);
      }
    }
  }

  // ---- Whom a local broadcast reaches ----

  /** `users` are the connected ones of `order` but the excluded, once each. */
  ghost predicate Reaches(m: Manager, c: ChatId, exclude: Option<User>, order: seq<User>, users: seq<User>) {
    Distinct(users) && forall u :: u in users <==> u in order && Audience(m, c, exclude, u)
  }

  /** The broadcast ended at order[k], the first whose send failed, and disconnected that user. */
  ghost predicate StopsAt(m: Manager, c: ChatId, exclude: Option<User>, dead: set<User>, order: seq<User>, k: nat,
        m': Manager, r: Sent)
  {
    && k < |order| && order[k] in dead && Audience(m, c, exclude, order[k])
    && (forall i | 0 <= i < k :: !(order[i] in dead && Audience(m, c, exclude, order[i])))
    && m' == Dropped(m, order[k]) && r.lost == [order[k]] && Reaches(m, c, exclude, order[..k], r.users)
  }

  predicate NoneDead(m: Manager, c: ChatId, exclude: Option<User>, dead: set<User>, order: seq<User>) {
    forall u <- order :: !(u in dead && Audience(m, c, exclude, u))
  }

  /** Among users who are in the entry and list the chat: without a failed send
      exactly the connected ones but the excluded are served and nothing
      changes; the first failed send ends the broadcast. */
  lemma {:induction false} ServeInOrder(m: Manager, c: ChatId, exclude: Option<User>, dead: set<User>, order: seq<User>)
    requires Distinct(order) && forall u <- order :: u in Members(m, c) && c in ListOf(m, u)
    ensures var (m', r) := Serve(m, c, exclude, dead, order);
      if r.raised then exists k: nat :: StopsAt(m, c, exclude, dead, order, k, m', r)
      else m' == m && r.lost == [] && Reaches(m, c, exclude, order, r.users) && NoneDead(m, c, exclude, dead, order)
    decreases |order|
  {
    if order != [] {
      var u, rest := order[0], order[1..];
      DistinctTail(order);
      assert order == [u] + rest;
      if Audience(m, c, exclude, u) && u in dead {
        var m' := Dropped(m, u);
        assert Members(m', c) == Members(m, c) - {u};
        assert order[..0] == [];
        var r := Sent([], [u], true);
        assert Serve(m, c, exclude, dead, order) == (m', r);
        assert StopsAt(m, c, exclude, dead, order, 0, m', r);
      } else {
        ServeInOrder(m, c, exclude, dead, rest);
        var (m', r) := Serve(m, c, exclude, dead, rest);
        var users := if Audience(m, c, exclude, u) then [u] + r.users else r.users;
        assert Serve(m, c, exclude, dead, order) == (m', r.(users := users));
        hide Serve, Members, Dropped, Audience;
        if r.raised {
          var k: nat :| StopsAt(m, c, exclude, dead, rest, k, m', r);
          StopsLater(m, c, exclude, dead, u, rest, k, m', r);
        } else {
          ReachesCons(m, c, exclude, u, rest, r.users);
        }
      }
    }
  }

  lemma ReachesCons(m: Manager, c: ChatId, exclude: Option<User>, u: User, rest: seq<User>, users: seq<User>)
    requires u !in rest && Reaches(m, c, exclude, rest, users)
    ensures Reaches(m, c, exclude, [u] + rest, if Audience(m, c, exclude, u) then [u] + users else users)
  {
    hide Audience;
    if Audience(m, c, exclude, u) { DistinctCons(u, users); }
  }

  lemma StopsLater(m: Manager, c: ChatId, exclude: Option<User>, dead: set<User>, u: User, rest: seq<User>, k: nat,
        m': Manager, r: Sent)
    requires StopsAt(m, c, exclude, dead, rest, k, m', r) && u !in rest && !(u in dead && Audience(m, c, exclude, u))
    ensures StopsAt(m, c, exclude, dead, [u] + rest, k + 1, m',
        r.(users := if Audience(m, c, exclude, u) then [u] + r.users else r.users))
  {
    hide Audience, Reaches;
    assert ([u] + rest)[..k + 1] == [u] + rest[..k];
    ReachesCons(m, c, exclude, u, rest[..k], r.users);
  }

  /** A broadcast over a manager whose index agrees with its lists serves
      exactly its audience, once each, unless a send to someone in it fails;
      then it disconnects the first such user and serves those before. */
  lemma {:induction false} BroadcastExactly(m: Manager, c: ChatId, exclude: Option<User>, dead: set<User>,
        order: seq<User>)
    requires Indexed(m) && Listed(m) && Enumerates(order, Members(m, c))
    ensures var (m', r) := Serve(m, c, exclude, dead, order);
      && (r.raised <==> exists u :: u in dead && Audience(m, c, exclude, u))
      && (if r.raised then exists k: nat :: StopsAt(m, c, exclude, dead, order, k, m', r)
          else m' == m && Distinct(r.users) && forall u :: u in r.users <==> Audience(m, c, exclude, u))
  {
    forall u | u in order ensures c in ListOf(m, u) { assert u in m.index[c]; }
    ServeInOrder(m, c, exclude, dead, order);
    forall u | Audience(m, c, exclude, u) ensures u in order { assert u in Members(m, c); }
  }

  // ---- The manager ----

  lemma ServeInPeace(m: Manager, c: ChatId, exclude: Option<User>, dead: set<User>, order: seq<User>)
    requires order != [] && (exclude == Some(order[0]) || order[0] !in m.active || order[0] !in dead)
    ensures var (m', r) := Serve(m, c, exclude, dead, order[1..]);
      Serve(m, c, exclude, dead, order)
      == (m', if exclude == Some(order[0]) || order[0] !in m.active then r else r.(users := [order[0]] + r.users))
  {
  }

  lemma ServeNobody(m: Manager, c: ChatId, exclude: Option<User>, dead: set<User>)
    ensures Serve(m, c, exclude, dead, []) == (m, Sent([], [], false))
  {
  }

  lemma ServeDead(m: Manager, c: ChatId, exclude: Option<User>, dead: set<User>, order: seq<User>)
    requires order != [] && exclude != Some(order[0]) && order[0] in m.active && order[0] in dead
    ensures var m' := Dropped(m, order[0]);
      var (m'', r) := Serve(m', c, exclude, dead, order[1..]);
      Serve(m, c, exclude, dead, order)
      == if |Members(m', c)| != |Members(m, c)| then (m', Sent([], [order[0]], true))
         else (m'', r.(lost := [order[0]] + r.lost))
  {
  }

  class ConnectionManager {
    var activeConnections: map<User, Socket>
    var userChats: map<User, seq<ChatId>>
    var chatUsers: map<ChatId, set<User>>

    ghost function View(): Manager
      reads this
    {
      Manager(activeConnections, userChats, chatUsers)
    }

    constructor ()
      ensures View() == Manager(map[], map[], map[])
    {
      activeConnections, userChats, chatUsers := map[], map[], map[];
    }

    /** `connect`; `chats` are the chats of the rows found for the user. */
    method Open(user: User, socket: Socket, chats: seq<ChatId>)
      modifies this
      ensures View() == Connect(old(View()), user, socket, chats)
    {
      activeConnections := activeConnections[user := socket];
      userChats := userChats[user := chats];
      var i := 0;
      while i < |chats|
        invariant 0 <= i <= |chats|
        invariant activeConnections == old(activeConnections)[user := socket]
            && userChats == old(userChats)[user := chats]
        invariant chatUsers == EnteredAll(old(chatUsers), user, chats[..i])
      {
        assert chats[..i + 1][..i] == chats[..i];
        if chats[i] !in chatUsers { chatUsers := chatUsers[chats[i] := {}]; }
        chatUsers := chatUsers[chats[i] := chatUsers[chats[i]] + {user}];
        i := i + 1;
      }
      assert chats[..i] == chats;
    }

    /** `disconnect`. */
    method Close(user: User, socket: Option<Socket>)
      modifies this
      ensures View() == Disconnect(old(View()), user, socket)
    {
      if user !in activeConnections { return; }
      if socket.Some? && activeConnections[user] != socket.value { return; }
      activeConnections := activeConnections - {user};
      var chats := if user in userChats then userChats[user] else [];
      var i := 0;
      while i < |chats|
        invariant 0 <= i <= |chats|
        invariant activeConnections == old(activeConnections) - {user} && userChats == old(userChats)
        invariant chatUsers.Keys == old(chatUsers).Keys
        invariant forall c | c in chatUsers ::
          chatUsers[c] == if c in chats[..i] then old(chatUsers)[c] - {user} else old(chatUsers)[c]
      {
        if chats[i] in chatUsers { chatUsers := chatUsers[chats[i] := chatUsers[chats[i]] - {user}]; }
        i := i + 1;
      }
    }

    method AddUserToChat(user: User, chat: ChatId)
      modifies this
      ensures View() == Add(old(View()), user, chat)
    {
      var chats := if user in userChats then userChats[user] else [];
      if chat !in chats {
        userChats := userChats[user := chats + [chat]];
        if chat !in chatUsers { chatUsers := chatUsers[chat := {}]; }
        chatUsers := chatUsers[chat := chatUsers[chat] + {user}];
      }
    }

    method RemoveUserFromChat(user: User, chat: ChatId)
      modifies this
      ensures View() == Remove(old(View()), user, chat)
    {
      if user in userChats && chat in userChats[user] {
        userChats := userChats[user := WithoutFirst(userChats[user], chat)];
        if chat in chatUsers { chatUsers := chatUsers[chat := chatUsers[chat] - {user}]; }
      }
    }

    /** `broadcast_local`, iterating the entry in the given order; the users
        served come first in the result, then those whose send failed. */
    method BroadcastLocal(chat: ChatId, exclude: Option<User>, dead: set<User>, order: seq<User>) returns (r: Sent)
      requires Enumerates(order, Members(View(), chat))
      modifies this
      ensures (View(), r) == Serve(old(View()), chat, exclude, dead, order)
    {
      hide Serve, Dropped, Enumerates;
      var sent, lost, i := [], [], 0;
      assert order[0..] == order;
      PrependNothing(Serve(View(), chat, exclude, dead, order));
      while i < |order|
        invariant 0 <= i <= |order|
        invariant Serve(old(View()), chat, exclude, dead, order)
               == Prepend(sent, lost, Serve(View(), chat, exclude, dead, order[i..]))
      {
        var user := order[i];
        assert order[i..][0] == user && order[i..][1..] == order[i + 1..];
        if exclude != Some(user) && user in activeConnections {
          if user in dead {
            ServeDead(View(), chat, exclude, dead, order[i..]);
            var size := if chat in chatUsers then |chatUsers[chat]| else 0;
            Close(user, None);
            PrependLost(sent, lost, user, Serve(View(), chat, exclude, dead, order[i + 1..]));
            lost := lost + [user];
            if (if chat in chatUsers then |chatUsers[chat]| else 0) != size {
              assert sent + [] == sent;
              return Sent(sent, lost, true);
            }
          } else {
            ServeInPeace(View(), chat, exclude, dead, order[i..]);
            PrependUser(sent, lost, user, Serve(View(), chat, exclude, dead, order[i + 1..]));
            sent := sent + [user];
          }
        } else {
          ServeInPeace(View(), chat, exclude, dead, order[i..]);
        }
        i := i + 1;
      }
      ServeNobody(View(), chat, exclude, dead);
      assert order[i..] == [] && sent + [] == sent && lost + [] == lost;
      return Sent(sent, lost, false);
    }
  }

  /** The outcome of a broadcast that already served `sent` and lost `lost`. */
  function Prepend(sent: seq<User>, lost: seq<User>, o: (Manager, Sent)): (Manager, Sent) {
    (o.0, Sent(sent + o.1.users, lost + o.1.lost, o.1.raised))
  }

  lemma PrependNothing(o: (Manager, Sent))
    ensures Prepend([], [], o) == o
  {
    assert [] + o.1.users == o.1.users && [] + o.1.lost == o.1.lost;
  }

  lemma PrependUser(sent: seq<User>, lost: seq<User>, u: User, o: (Manager, Sent))
    ensures Prepend(sent, lost, (o.0, o.1.(users := [u] + o.1.users))) == Prepend(sent + [u], lost, o)
  {
    assert sent + ([u] + o.1.users) == sent + [u] + o.1.users;
  }

  lemma PrependLost(sent: seq<User>, lost: seq<User>, u: User, o: (Manager, Sent))
    ensures Prepend(sent, lost, (o.0, o.1.(lost := [u] + o.1.lost))) == Prepend(sent, lost + [u], o)
  {
    assert lost + ([u] + o.1.lost) == lost + [u] + o.1.lost;
  }

  // ---- Instances and the bus ----

  datatype Frame = Frame(origin: nat, id: FrameId, chat: ChatId, exclude: Option<User>)
  datatype Receipt = Receipt(socket: Socket, frame: FrameId)
  datatype Row = Row(chat: ChatId, user: User)

  /** A `broadcast_local` underway: the size of the entry when its iteration
      began, the users the iterator has not given out yet, and the send it awaits. */
  datatype Pass = Pass(frame: Frame, size: nat, left: set<User>, sending: Option<(User, Socket)>)

  /** An instance: its manager, the frames its subscriber has yet to read, the
      offline notices its disconnects have yet to send and the broadcasts
      underway; then, as history, those whose entry has gained a user meanwhile. */
  datatype Node = Node(
    m: Manager, inbox: seq<Frame>, notices: seq<Row>, passes: map<FrameId, Pass>, disturbed: set<FrameId>)

  /** The participant rows and the instances; then history: where and whose
      each socket was, every frame ever made, and who received what, in order. */
  datatype Cluster = Cluster(
    db: seq<Row>, nodes: seq<Node>, sockets: map<Socket, (nat, User)>, frames: map<FrameId, Frame>,
    receipts: seq<Receipt>)

  const NO_USERS := Manager(map[], map[], map[])

  function Start(n: nat): Cluster {
    Cluster([], seq(n, _ => Node(NO_USERS, [], [], map[], {})), map[], map[], [])
  }

  function ChatsOf(db: seq<Row>, u: User): (r: seq<ChatId>)
    ensures forall c :: c in r <==> Row(c, u) in db
  {
    if db == [] then []
    else
      var n := |db| - 1;
      assert db == db[..n] + [db[n]];
      ChatsOf(db[..n], u) + if db[n].user == u then [db[n].chat] else []
  }

  function WithoutRow(db: seq<Row>, row: Row): (r: seq<Row>)
    ensures forall x <- r :: x in db
    ensures forall x | x in db && x != row :: x in r
  {
    if db == [] then []
    else if db[0] == row then db[1..]
    else [db[0]] + WithoutRow(db[1..], row)
  }

  function ReceiptsOf(active: map<User, Socket>, users: seq<User>, id: FrameId): (r: seq<Receipt>)
    requires forall u <- users :: u in active
    ensures |r| == |users| && forall k | 0 <= k < |r| :: r[k] == Receipt(active[users[k]], id)
  {
    seq(|users|, k requires 0 <= k < |users| => Receipt(active[users[k]], id))
  }

  /** The notices of `_broadcast_to_user_chats_sync` for users who were dropped. */
  function NoticesOf(m: Manager, lost: seq<User>): seq<Row> {
    if lost == [] then []
    else
      var u := lost[0];
      seq(|ListOf(m, u)|, k requires 0 <= k < |ListOf(m, u)| => Row(ListOf(m, u)[k], u)) + NoticesOf(m, lost[1..])
  }

  /** `Broadcast`, `Notify` and `Deliver` begin a broadcast on instance i; then
      `Visit` takes the next user from the iterator, `Complete` ends the send
      to that user, and `Finish` is the end of the iteration. */
  datatype Event =
    | Insert(row: Row, at: set<nat>)
    | Delete(row: Row, at: set<nat>)
    | Open(i: nat, user: User, socket: Socket)
    | Close(i: nat, user: User, owner: Option<Socket>)
    | Broadcast(i: nat, id: FrameId, chat: ChatId, exclude: Option<User>)
    | Notify(i: nat, id: FrameId)
    | Deliver(i: nat)
    | Visit(i: nat, id: FrameId, user: User)
    | Complete(i: nat, id: FrameId, ok: bool)
    | Finish(i: nat, id: FrameId, bus: bool)
    | Lose(i: nat)

  /** A change of the manager; broadcasts whose entry gains a user by it are disturbed. */
  function Moved(n: Node, m': Manager): Node {
    n.(m := m',
       disturbed := n.disturbed + set id | id in n.passes && Gains(n.m, m', n.passes[id].frame.chat))
  }

  /** A new socket connects. */
  function OpenStep(w: Cluster, i: nat, user: User, socket: Socket): Cluster {
    if i >= |w.nodes| || socket in w.sockets then w
    else
      w.(nodes := w.nodes[i := Moved(w.nodes[i], Connect(w.nodes[i].m, user, socket, ChatsOf(w.db, user)))],
         sockets := w.sockets[socket := (i, user)])
  }

  predicate Gains(m: Manager, m': Manager, c: ChatId) {
    !(Members(m', c) <= Members(m, c))
  }

  function Began(w: Cluster, i: nat, f: Frame): Cluster
    requires i < |w.nodes|
  {
    var n := w.nodes[i];
    var users := Members(n.m, f.chat);
    w.(nodes := w.nodes[i := n.(passes := n.passes[f.id := Pass(f, |users|, users, None)])])
  }

  /** Every subscriber gets a published frame, the publisher's own included. */
  function Publish(w: Cluster, f: Frame): Cluster {
    w.(nodes := seq(|w.nodes|, k requires 0 <= k < |w.nodes| => w.nodes[k].(inbox := w.nodes[k].inbox + [f])))
  }

  /** `broadcast_to_chat` begins. */
  function BroadcastFrame(w: Cluster, f: Frame): Cluster {
    if f.origin >= |w.nodes| || f.id in w.frames then w
    else Began(w.(frames := w.frames[f.id := f]), f.origin, f)
  }

  function Popped(w: Cluster, i: nat): Cluster
    requires i < |w.nodes| && w.nodes[i].inbox != []
  {
    w.(nodes := w.nodes[i := w.nodes[i].(inbox := w.nodes[i].inbox[1..])])
  }

  /** One frame of `_listen_loop`; frames of the instance itself are skipped. */
  function DeliverFrame(w: Cluster, i: nat): Cluster {
    if i >= |w.nodes| || w.nodes[i].inbox == [] then w
    else
      var f := w.nodes[i].inbox[0];
      if f.origin == i then Popped(w, i) else Began(Popped(w, i), i, f)
  }

  predicate Underway(w: Cluster, i: nat, id: FrameId) {
    i < |w.nodes| && id in w.nodes[i].passes
  }

  function WithPass(w: Cluster, i: nat, p: Pass): Cluster
    requires i < |w.nodes|
  {
    w.(nodes := w.nodes[i := w.nodes[i].(passes := w.nodes[i].passes[p.frame.id := p])])
  }

  function Ended(w: Cluster, i: nat, id: FrameId): Cluster
    requires i < |w.nodes|
  {
    w.(nodes := w.nodes[i := w.nodes[i].(passes := w.nodes[i].passes - {id})])
  }

  /** A set that changed size under its iterator makes it raise. */
  predicate Resized(m: Manager, p: Pass) {
    p.size != 0 && |Members(m, p.frame.chat)| != p.size
  }

  /** The iterator gives out each user of an entry once. If users were added
      and as many removed meanwhile, it may give out any of them, again or not. */
  function VisitStep(w: Cluster, i: nat, id: FrameId, u: User): Cluster {
    if !Underway(w, i, id) || w.nodes[i].passes[id].sending.Some? then w
    else
      var n := w.nodes[i];
      var p := n.passes[id];
      if Resized(n.m, p) then Ended(w, i, id)
      else if u !in Members(n.m, p.frame.chat) || (id !in n.disturbed && u !in p.left) then w
      else
        var open := p.frame.exclude != Some(u) && u in n.m.active;
        var p' := p.(left := p.left - {u}, sending := if open then Some((u, n.m.active[u])) else None);
        w.(nodes := w.nodes[i := n.(passes := n.passes[id := p'])])
  }

  /** The awaited send returns, or raises and its user is disconnected, whichever socket is in the slot by then. */
  function CompleteStep(w: Cluster, i: nat, id: FrameId, ok: bool): Cluster {
    if !Underway(w, i, id) || w.nodes[i].passes[id].sending.None? then w
    else
      var n := w.nodes[i];
      var (u, s) := n.passes[id].sending.value;
      var n' := n.(passes := n.passes[id := n.passes[id].(sending := None)]);
      if ok then w.(nodes := w.nodes[i := n'], receipts := w.receipts + [Receipt(s, id)])
      else w.(nodes := w.nodes[i := Closed(n', u, None)])
  }

  /** `disconnect` with the notices it queues. */
  function Closed(n: Node, u: User, owner: Option<Socket>): Node {
    var m' := Disconnect(n.m, u, owner);
    if m' == n.m then n else Moved(n, m').(notices := n.notices + NoticesOf(n.m, [u]))
  }

  /** The iterator is exhausted; the broadcast is published if it began on this instance and the bus is up. */
  function FinishStep(w: Cluster, i: nat, id: FrameId, bus: bool): Cluster {
    if !Underway(w, i, id) || w.nodes[i].passes[id].sending.Some? then w
    else
      var n := w.nodes[i];
      var p := n.passes[id];
      if Resized(n.m, p) then Ended(w, i, id)
      else if id !in n.disturbed && p.left != {} then w
      else if p.frame.origin == i && bus then Publish(Ended(w, i, id), p.frame)
      else Ended(w, i, id)
  }

  /** The subscriber of one instance (`_listen_loop` and `_deliver`). */
  class Subscriber {
    const instance: nat
    const manager: ConnectionManager
    var inbox: seq<Frame>

    constructor (instance: nat, manager: ConnectionManager)
      ensures this.instance == instance && this.manager == manager && inbox == []
    {
      this.instance, this.manager, inbox := instance, manager, [];
    }

    /** Takes frames in order until one is from another instance and delivers
        that one; its own were delivered by their publisher. */
    method DeliverNext(dead: set<User>, orders: seq<seq<User>>) returns (frame: Option<Frame>, sent: Sent)
      requires |orders| == |inbox|
      requires forall i | 0 <= i < |inbox| :: Enumerates(orders[i], Members(manager.View(), inbox[i].chat))
      modifies this`inbox, manager
      ensures match frame
        case None => inbox == [] && manager.View() == old(manager.View())
            && forall f <- old(inbox) :: f.origin == instance
        case Some(f) => exists k | 0 <= k < |orders| ::
          && old(inbox)[k] == f && f.origin != instance && inbox == old(inbox)[k + 1..]
          && (forall i | 0 <= i < k :: old(inbox)[i].origin == instance)
          && (manager.View(), sent) == Serve(old(manager.View()), f.chat, f.exclude, dead, orders[k])
    {
      sent := Sent([], [], false);
      var k := 0;
      while inbox != []
        invariant 0 <= k <= |orders| && inbox == old(inbox)[k..] && manager.View() == old(manager.View())
        invariant forall i | 0 <= i < k :: old(inbox)[i].origin == instance
        decreases |inbox|
      {
        var f := inbox[0];
        inbox := inbox[1..];
        if f.origin != instance {
          sent := manager.BroadcastLocal(f.chat, f.exclude, dead, orders[k]);
          return Some(f), sent;
        }
        k := k + 1;
      }
      return None, sent;
    }
  }

  function Next(w: Cluster, e: Event): Cluster {
    match e
    case Insert(row, at) =>
      w.(db := w.db + [row],
         nodes := seq(|w.nodes|, k requires 0 <= k < |w.nodes| =>
           if k in at then Moved(w.nodes[k], Add(w.nodes[k].m, row.user, row.chat)) else w.nodes[k]))
    case Delete(row, at) =>
      if row !in w.db then w
      else
        w.(db := WithoutRow(w.db, row),
           nodes := seq(|w.nodes|, k requires 0 <= k < |w.nodes| =>
             if k in at then Moved(w.nodes[k], Remove(w.nodes[k].m, row.user, row.chat)) else w.nodes[k]))
    case Open(i, user, socket) => OpenStep(w, i, user, socket)
    case Close(i, user, owner) =>
      if i >= |w.nodes| then w else w.(nodes := w.nodes[i := Closed(w.nodes[i], user, owner)])
    case Broadcast(i, id, chat, exclude) => BroadcastFrame(w, Frame(i, id, chat, exclude))
    case Notify(i, id) =>
      if i >= |w.nodes| || w.nodes[i].notices == [] then w
      else
        var n := w.nodes[i];
        BroadcastFrame(w.(nodes := w.nodes[i := n.(notices := n.notices[1..])]),
                       Frame(i, id, n.notices[0].chat, Some(n.notices[0].user)))
    case Deliver(i) => DeliverFrame(w, i)
    case Visit(i, id, user) => VisitStep(w, i, id, user)
    case Complete(i, id, ok) => CompleteStep(w, i, id, ok)
    case Finish(i, id, bus) => FinishStep(w, i, id, bus)
    case Lose(i) =>
      if i >= |w.nodes| || w.nodes[i].inbox == [] then w else Popped(w, i)
  }

  function Run(w: Cluster, es: seq<Event>): Cluster
    decreases |es|
  {
    if es == [] then w else Run(Next(w, es[0]), es[1..])
  }

  // ---- Every socket gets a frame at most once ----

  ghost predicate SocketsOk(w: Cluster) {
    && (forall i | 0 <= i < |w.nodes| :: forall u | u in w.nodes[i].m.active ::
          w.nodes[i].m.active[u] in w.sockets && w.sockets[w.nodes[i].m.active[u]] == (i, u))
    && (forall s | s in w.sockets :: w.sockets[s].0 < |w.nodes|)
  }

  ghost predicate InboxOk(frames: map<FrameId, Frame>, inbox: seq<Frame>) {
    Distinct(inbox) && forall f <- inbox :: f.id in frames && frames[f.id] == f
  }

  predicate ReceiptOk(w: Cluster, r: Receipt) {
    r.socket in w.sockets && r.frame in w.frames && w.frames[r.frame].exclude != Some(w.sockets[r.socket].1)
  }

  /** A receipt of the frame on instance i. */
  predicate IsAt(w: Cluster, r: Receipt, i: nat, id: FrameId) {
    r.frame == id && r.socket in w.sockets && w.sockets[r.socket].0 == i
  }

  /** What the send awaited is for, and, unless the entry has gained a user,
      that nobody who is left or being sent to has received the frame. */
  predicate PassOk(w: Cluster, i: nat, p: Pass)
    requires i < |w.nodes|
  {
    && p.frame.id in w.frames && w.frames[p.frame.id] == p.frame
    && (p.sending.Some? ==>
          var (u, s) := p.sending.value; s in w.sockets && w.sockets[s] == (i, u) && p.frame.exclude != Some(u))
    && (p.frame.id !in w.nodes[i].disturbed ==>
          && (p.sending.Some? ==> p.sending.value.0 !in p.left)
          && forall r <- w.receipts | IsAt(w, r, i, p.frame.id) ::
               w.sockets[r.socket].1 !in p.left
               && (p.sending.Some? ==> w.sockets[r.socket].1 != p.sending.value.0))
  }

  ghost predicate PassesOk(w: Cluster) {
    && (forall i | 0 <= i < |w.nodes| :: w.nodes[i].disturbed <= w.frames.Keys)
    && forall i | 0 <= i < |w.nodes| :: forall id | id in w.nodes[i].passes ::
      w.nodes[i].passes[id].frame.id == id && PassOk(w, i, w.nodes[i].passes[id])
  }

  /** A frame waiting on another instance has not begun there, and a frame
      underway where it was made has not gone anywhere else. */
  ghost predicate StagesOk(w: Cluster) {
    && (forall i | 0 <= i < |w.nodes| :: forall f <- w.nodes[i].inbox | f.origin != i ::
          f.id !in w.nodes[i].passes && f.id !in w.nodes[i].disturbed
          && forall r <- w.receipts :: !IsAt(w, r, i, f.id))
    && (forall i | 0 <= i < |w.nodes| ::
          forall id | id in w.nodes[i].passes && w.nodes[i].passes[id].frame.origin == i ::
          Unsent(w, i, w.nodes[i].passes[id].frame))
  }

  predicate Unsent(w: Cluster, i: nat, f: Frame) {
    && (forall k | 0 <= k < |w.nodes| ::
          f !in w.nodes[k].inbox && (k != i ==> f.id !in w.nodes[k].passes && f.id !in w.nodes[k].disturbed))
    && forall r <- w.receipts :: r.frame == f.id ==> IsAt(w, r, i, f.id)
  }

  /** Only a disturbed broadcast may have served a socket twice. */
  ghost predicate TwiceOk(w: Cluster) {
    forall a, b | 0 <= a < b < |w.receipts| && w.receipts[a] == w.receipts[b] :: Disturbed(w, w.receipts[a])
  }

  predicate Disturbed(w: Cluster, r: Receipt) {
    r.socket in w.sockets && w.sockets[r.socket].0 < |w.nodes|
    && r.frame in w.nodes[w.sockets[r.socket].0].disturbed
  }

  ghost predicate Inv(w: Cluster) {
    && SocketsOk(w) && PassesOk(w) && StagesOk(w) && TwiceOk(w)
    && (forall r <- w.receipts :: ReceiptOk(w, r))
    && (forall i | 0 <= i < |w.nodes| :: InboxOk(w.frames, w.nodes[i].inbox))
  }

  lemma LocalKeeps(w: Cluster, w': Cluster)
    requires Inv(w) && Local(w, w')
    ensures Inv(w')
  {
    assert forall r <- w.receipts :: ReceiptOk(w, r);
    assert forall r <- w.receipts, i, id :: IsAt(w', r, i, id) <==> IsAt(w, r, i, id);
    forall i, id | 0 <= i < |w'.nodes| && id in w'.nodes[i].passes
      ensures w'.nodes[i].passes[id].frame.id == id && PassOk(w', i, w'.nodes[i].passes[id])
    {
      assert PassOk(w, i, w.nodes[i].passes[id]);
    }
    forall i, id | 0 <= i < |w'.nodes| && id in w'.nodes[i].passes && w'.nodes[i].passes[id].frame.origin == i
      ensures Unsent(w', i, w'.nodes[i].passes[id].frame)
    {
      assert Unsent(w, i, w.nodes[i].passes[id].frame);
    }
    forall a, b | 0 <= a < b < |w'.receipts| && w'.receipts[a] == w'.receipts[b] ensures Disturbed(w', w'.receipts[a]) {
      assert Disturbed(w, w.receipts[a]);
    }
    forall k | 0 <= k < |w'.nodes| ensures InboxOk(w'.frames, w'.nodes[k].inbox) {
      assert InboxOk(w.frames, w.nodes[k].inbox);
    }
  }

  /** A new frame. */
  lemma FrameKeeps(w: Cluster, f: Frame)
    requires Inv(w) && f.id !in w.frames
    ensures Inv(w.(frames := w.frames[f.id := f]))
    ensures forall r <- w.receipts :: r.frame != f.id
    ensures forall k | 0 <= k < |w.nodes| ::
      f.id !in w.nodes[k].passes && f !in w.nodes[k].inbox && f.id !in w.nodes[k].disturbed
  {
    var w' := w.(frames := w.frames[f.id := f]);
    forall r | r in w.receipts ensures ReceiptOk(w', r) && r.frame != f.id { assert ReceiptOk(w, r); }
    forall k | 0 <= k < |w.nodes| ensures InboxOk(w'.frames, w.nodes[k].inbox) && f !in w.nodes[k].inbox {
      assert InboxOk(w.frames, w.nodes[k].inbox);
    }
    forall i, id | 0 <= i < |w.nodes| && id in w.nodes[i].passes
      ensures w.nodes[i].passes[id].frame.id == id && PassOk(w', i, w.nodes[i].passes[id]) && id != f.id
    {
      assert PassOk(w, i, w.nodes[i].passes[id]);
    }
  }

  /** The frame may begin on the instance: nobody there has been reached by it. */
  ghost predicate MayBegin(w: Cluster, i: nat, f: Frame)
    requires i < |w.nodes|
  {
    && f.id in w.frames && w.frames[f.id] == f && f.id !in w.nodes[i].passes
    && (forall r <- w.receipts :: !IsAt(w, r, i, f.id))
    && if f.origin == i then Unsent(w, i, f)
       else f !in w.nodes[i].inbox && (f.origin < |w.nodes| ==> f.id !in w.nodes[f.origin].passes)
  }

  lemma BeganKeeps(w: Cluster, i: nat, f: Frame)
    requires Inv(w) && i < |w.nodes| && MayBegin(w, i, f)
    ensures Inv(Began(w, i, f))
  {
    BeganPasses(w, i, f);
    BeganStages(w, i, f);
    SameButPasses(w, Began(w, i, f), i);
  }

  lemma BeganPasses(w: Cluster, i: nat, f: Frame)
    requires Inv(w) && i < |w.nodes| && MayBegin(w, i, f)
    ensures PassesOk(Began(w, i, f))
  {
    hide StagesOk, TwiceOk, SocketsOk, InboxOk, Members;
    var w' := Began(w, i, f);
    forall k, id | 0 <= k < |w'.nodes| && id in w'.nodes[k].passes
      ensures w'.nodes[k].passes[id].frame.id == id && PassOk(w', k, w'.nodes[k].passes[id])
    {
      if k != i || id != f.id { assert PassOk(w, k, w.nodes[k].passes[id]); }
    }
  }

  lemma BeganStages(w: Cluster, i: nat, f: Frame)
    requires Inv(w) && i < |w.nodes| && MayBegin(w, i, f)
    ensures StagesOk(Began(w, i, f))
  {
    hide TwiceOk, SocketsOk, Members, ReceiptOk;
    var w' := Began(w, i, f);
    forall k, g | 0 <= k < |w'.nodes| && g in w'.nodes[k].inbox && g.origin != k
      ensures g.id !in w'.nodes[k].passes && g.id !in w'.nodes[k].disturbed
      ensures forall r <- w'.receipts :: !IsAt(w', r, k, g.id)
    {
      assert InboxOk(w.frames, w.nodes[k].inbox);
    }
    forall k, id | 0 <= k < |w'.nodes| && id in w'.nodes[k].passes && w'.nodes[k].passes[id].frame.origin == k
      ensures Unsent(w', k, w'.nodes[k].passes[id].frame)
    {
      if k != i || id != f.id {
        assert Unsent(w, k, w.nodes[k].passes[id].frame) && PassOk(w, k, w.nodes[k].passes[id]);
      }
    }
  }

  /** What does not depend on the broadcasts underway. */
  lemma SameButPasses(w: Cluster, w': Cluster, i: nat)
    requires Inv(w) && i < |w.nodes| == |w'.nodes|
    requires w' == w.(nodes := w.nodes[i := w.nodes[i].(passes := w'.nodes[i].passes)])
    ensures SocketsOk(w') && TwiceOk(w') && forall r <- w'.receipts :: ReceiptOk(w', r)
    ensures forall k | 0 <= k < |w'.nodes| :: InboxOk(w'.frames, w'.nodes[k].inbox)
  {
  }

  lemma EndedKeeps(w: Cluster, i: nat, id: FrameId)
    requires Inv(w) && i < |w.nodes|
    ensures Inv(Ended(w, i, id))
  {
    var w' := Ended(w, i, id);
    forall k, j | 0 <= k < |w'.nodes| && j in w'.nodes[k].passes
      ensures w'.nodes[k].passes[j].frame.id == j && PassOk(w', k, w'.nodes[k].passes[j])
      ensures w'.nodes[k].passes[j].frame.origin == k ==> Unsent(w', k, w'.nodes[k].passes[j].frame)
    {
      assert PassOk(w, k, w.nodes[k].passes[j]);
      assert w.nodes[k].passes[j].frame.origin == k ==> Unsent(w, k, w.nodes[k].passes[j].frame);
    }
    SameButPasses(w, w', i);
  }

  /** A broadcast goes on with fewer users left and another send, or none, awaited. */
  lemma PassKeeps(w: Cluster, i: nat, p: Pass, p': Pass)
    requires Inv(w) && i < |w.nodes| && p.frame.id in w.nodes[i].passes && w.nodes[i].passes[p.frame.id] == p
    requires p'.frame == p.frame && PassOk(w, i, p')
    ensures Inv(WithPass(w, i, p'))
  {
    PassChanged(w, i, p, p');
    SameButPasses(w, WithPass(w, i, p'), i);
    hide PassesOk, StagesOk, SocketsOk, TwiceOk, InboxOk, ReceiptOk;
  }

  lemma PassChanged(w: Cluster, i: nat, p: Pass, p': Pass)
    requires Inv(w) && i < |w.nodes| && p.frame.id in w.nodes[i].passes && w.nodes[i].passes[p.frame.id] == p
    requires p'.frame == p.frame && PassOk(w, i, p')
    ensures PassesOk(WithPass(w, i, p')) && StagesOk(WithPass(w, i, p'))
  {
    hide SocketsOk, TwiceOk, InboxOk, ReceiptOk;
    var w' := WithPass(w, i, p');
    PassChangedStages(w, i, p, p');
    hide StagesOk;
    forall k, id | 0 <= k < |w'.nodes| && id in w'.nodes[k].passes
      ensures w'.nodes[k].passes[id].frame.id == id && PassOk(w', k, w'.nodes[k].passes[id])
    {
      assert PassOk(w, k, w.nodes[k].passes[id]);
    }
  }

  lemma PassChangedStages(w: Cluster, i: nat, p: Pass, p': Pass)
    requires StagesOk(w) && i < |w.nodes| && p.frame.id in w.nodes[i].passes && w.nodes[i].passes[p.frame.id] == p
    requires p'.frame == p.frame
    ensures StagesOk(WithPass(w, i, p'))
  {
    var w' := WithPass(w, i, p');
    forall k, id | 0 <= k < |w'.nodes| && id in w'.nodes[k].passes && w'.nodes[k].passes[id].frame.origin == k
      ensures Unsent(w', k, w'.nodes[k].passes[id].frame)
    {
      assert Unsent(w, k, w.nodes[k].passes[id].frame);
    }
  }

  lemma VisitKeeps(w: Cluster, i: nat, id: FrameId, u: User)
    requires Inv(w)
    ensures Inv(VisitStep(w, i, id, u))
  {
    hide Inv, Resized;
    if Underway(w, i, id) && w.nodes[i].passes[id].sending.None? {
      var w' := VisitStep(w, i, id, u);
      if Resized(w.nodes[i].m, w.nodes[i].passes[id]) {
        EndedKeeps(w, i, id);
      } else if w' != w {
        VisitedIsOk(w, i, id, u);
        PassKeeps(w, i, w.nodes[i].passes[id], w'.nodes[i].passes[id]);
      }
    }
  }

  lemma VisitedIsOk(w: Cluster, i: nat, id: FrameId, u: User)
    requires Inv(w) && Underway(w, i, id) && w.nodes[i].passes[id].sending.None?
    requires !Resized(w.nodes[i].m, w.nodes[i].passes[id])
    ensures var w' := VisitStep(w, i, id, u);
      && w.nodes[i].passes[id].frame.id == id
      && (w' != w ==> |w'.nodes| == |w.nodes| && id in w'.nodes[i].passes && PassOk(w, i, w'.nodes[i].passes[id])
                      && w'.nodes[i].passes[id].frame == w.nodes[i].passes[id].frame
                      && w' == WithPass(w, i, w'.nodes[i].passes[id]))
  {
    hide Resized, StagesOk, TwiceOk, InboxOk;
    assert PassOk(w, i, w.nodes[i].passes[id]);
  }

  predicate Awaits(w: Cluster, i: nat, p: Pass) {
    Underway(w, i, p.frame.id) && w.nodes[i].passes[p.frame.id] == p && p.sending.Some?
  }

  /** A send that succeeds reaches a socket of the instance; a broadcast not
      disturbed has not reached it before. */
  lemma ReceiptKeeps(w: Cluster, i: nat, p: Pass)
    requires Inv(w) && Awaits(w, i, p)
    ensures Inv(CompleteStep(w, i, p.frame.id, true))
  {
    var w' := CompleteStep(w, i, p.frame.id, true);
    assert PassOk(w, i, p);
    ReceiptPasses(w, i, p);
    ReceiptStages(w, i, p);
    ReceiptIsNew(w, i, p);
    hide PassesOk, StagesOk, TwiceOk;
    assert SocketsOk(w');
    forall r | r in w'.receipts ensures ReceiptOk(w', r) {
      if r in w.receipts { assert ReceiptOk(w, r); }
    }
    forall k | 0 <= k < |w'.nodes| ensures InboxOk(w'.frames, w'.nodes[k].inbox) {
      assert InboxOk(w.frames, w.nodes[k].inbox);
    }
  }

  lemma ReceiptPasses(w: Cluster, i: nat, p: Pass)
    requires Inv(w) && Awaits(w, i, p)
    ensures PassesOk(CompleteStep(w, i, p.frame.id, true))
  {
    hide StagesOk, TwiceOk, SocketsOk, InboxOk;
    var w' := CompleteStep(w, i, p.frame.id, true);
    assert PassOk(w, i, p);
    forall k, j | 0 <= k < |w'.nodes| && j in w'.nodes[k].passes
      ensures w'.nodes[k].passes[j].frame.id == j && PassOk(w', k, w'.nodes[k].passes[j])
    {
      assert PassOk(w, k, w.nodes[k].passes[j]);
    }
  }

  lemma ReceiptStages(w: Cluster, i: nat, p: Pass)
    requires Inv(w) && Awaits(w, i, p)
    ensures StagesOk(CompleteStep(w, i, p.frame.id, true))
  {
    hide TwiceOk, SocketsOk, InboxOk, ReceiptOk, Closed;
    var id := p.frame.id;
    var w' := CompleteStep(w, i, id, true);
    assert PassOk(w, i, p);
    var r' := Receipt(p.sending.value.1, id);
    assert IsAt(w, r', i, id);
    forall k, j | 0 <= k < |w'.nodes| && j in w'.nodes[k].passes && w'.nodes[k].passes[j].frame.origin == k
      ensures Unsent(w', k, w'.nodes[k].passes[j].frame)
    {
      assert PassOk(w, k, w.nodes[k].passes[j]) && Unsent(w, k, w.nodes[k].passes[j].frame);
    }
    forall k, g | 0 <= k < |w'.nodes| && g in w'.nodes[k].inbox && g.origin != k
      ensures g.id !in w'.nodes[k].passes && g.id !in w'.nodes[k].disturbed
      ensures forall r <- w'.receipts :: !IsAt(w', r, k, g.id)
    {
      assert g in w.nodes[k].inbox && g.id !in w.nodes[k].passes;
      forall r | r in w'.receipts ensures !IsAt(w', r, k, g.id) {
        if r in w.receipts { assert !IsAt(w, r, k, g.id); } else { assert r == r'; }
      }
    }
  }

  lemma ReceiptIsNew(w: Cluster, i: nat, p: Pass)
    requires Inv(w) && Awaits(w, i, p)
    ensures TwiceOk(CompleteStep(w, i, p.frame.id, true))
  {
    var w' := CompleteStep(w, i, p.frame.id, true);
    assert PassOk(w, i, p);
    forall a, b | 0 <= a < b < |w'.receipts| && w'.receipts[a] == w'.receipts[b] ensures Disturbed(w', w'.receipts[a]) {
      if b < |w.receipts| {
        assert Disturbed(w, w.receipts[a]);
      } else {
        assert w.receipts[a] in w.receipts && IsAt(w, w.receipts[a], i, p.frame.id);
      }
    }
  }

  /** A failed send disconnects. */
  lemma ClosedKeeps(w: Cluster, i: nat, u: User, owner: Option<Socket>)
    requires Inv(w) && i < |w.nodes|
    ensures Inv(w.(nodes := w.nodes[i := Closed(w.nodes[i], u, owner)]))
  {
    hide NoticesOf, Gains, PassesOk, StagesOk, TwiceOk, InboxOk;
    LocalKeeps(w, w.(nodes := w.nodes[i := Closed(w.nodes[i], u, owner)]));
  }

  lemma SendCleared(w: Cluster, i: nat, id: FrameId)
    requires Inv(w) && Underway(w, i, id)
    ensures w.nodes[i].passes[id].frame.id == id
    ensures Inv(WithPass(w, i, w.nodes[i].passes[id].(sending := None)))
  {
    var p := w.nodes[i].passes[id];
    assert p.frame.id == id && PassOk(w, i, p) && PassOk(w, i, p.(sending := None));
    hide Inv, PassOk;
    PassKeeps(w, i, p, p.(sending := None));
  }

  lemma CompleteKeeps(w: Cluster, i: nat, id: FrameId, ok: bool)
    requires Inv(w)
    ensures Inv(CompleteStep(w, i, id, ok))
  {
    hide Inv, Closed;
    if Underway(w, i, id) && w.nodes[i].passes[id].sending.Some? {
      var p := w.nodes[i].passes[id];
      SendCleared(w, i, id);
      if ok {
        ReceiptKeeps(w, i, p);
      } else {
        var u, w1 := p.sending.value.0, WithPass(w, i, p.(sending := None));
        ClosedKeeps(w1, i, u, None);
        assert w1.(nodes := w1.nodes[i := Closed(w1.nodes[i], u, None)]) == CompleteStep(w, i, id, false);
      }
    }
  }

  lemma PublishKeeps(w: Cluster, f: Frame)
    requires Inv(w) && f.id in w.frames && w.frames[f.id] == f
    requires forall k | 0 <= k < |w.nodes| ::
      f !in w.nodes[k].inbox && f.id !in w.nodes[k].passes && (k != f.origin ==> f.id !in w.nodes[k].disturbed)
    requires forall r <- w.receipts :: r.frame == f.id ==> IsAt(w, r, f.origin, f.id)
    ensures Inv(Publish(w, f))
  {
    var w' := Publish(w, f);
    forall k | 0 <= k < |w'.nodes| ensures InboxOk(w'.frames, w'.nodes[k].inbox) {
      assert InboxOk(w.frames, w.nodes[k].inbox);
      DistinctSnoc(w.nodes[k].inbox, f);
    }
    forall k, id | 0 <= k < |w'.nodes| && id in w'.nodes[k].passes
      ensures w'.nodes[k].passes[id].frame.id == id && PassOk(w', k, w'.nodes[k].passes[id])
      ensures w'.nodes[k].passes[id].frame.origin == k ==> Unsent(w', k, w'.nodes[k].passes[id].frame)
    {
      assert PassOk(w, k, w.nodes[k].passes[id]);
      assert w.nodes[k].passes[id].frame.origin == k ==> Unsent(w, k, w.nodes[k].passes[id].frame);
    }
    forall k, g | 0 <= k < |w'.nodes| && g in w'.nodes[k].inbox && g.origin != k
      ensures g.id !in w'.nodes[k].passes && g.id !in w'.nodes[k].disturbed
      ensures forall r <- w'.receipts :: !IsAt(w', r, k, g.id)
    {
      if g != f { assert g in w.nodes[k].inbox; }
    }
    assert SocketsOk(w');
    forall a, b | 0 <= a < b < |w'.receipts| && w'.receipts[a] == w'.receipts[b] ensures Disturbed(w', w'.receipts[a]) {
      assert Disturbed(w, w.receipts[a]);
    }
    forall r | r in w'.receipts ensures ReceiptOk(w', r) { assert ReceiptOk(w, r); }
  }

  lemma FinishKeeps(w: Cluster, i: nat, id: FrameId, bus: bool)
    requires Inv(w)
    ensures Inv(FinishStep(w, i, id, bus))
  {
    if Underway(w, i, id) {
      EndedKeeps(w, i, id);
      var f := w.nodes[i].passes[id].frame;
      assert f.id == id && PassOk(w, i, w.nodes[i].passes[id]);
      if f.origin == i {
        assert Unsent(w, i, f);
        PublishKeeps(Ended(w, i, id), f);
      }
    }
  }

  /** Taking the head off an inbox. */
  lemma PopKeeps(w: Cluster, i: nat)
    requires Inv(w) && i < |w.nodes| && w.nodes[i].inbox != []
    ensures Inv(Popped(w, i)) && w.nodes[i].inbox[0] !in Popped(w, i).nodes[i].inbox
  {
    var w' := Popped(w, i);
    assert InboxOk(w.frames, w.nodes[i].inbox);
    DistinctTail(w.nodes[i].inbox);
    forall f | f in w'.nodes[i].inbox ensures f in w.nodes[i].inbox { }
    forall k, id | 0 <= k < |w'.nodes| && id in w'.nodes[k].passes
      ensures w'.nodes[k].passes[id].frame.id == id && PassOk(w', k, w'.nodes[k].passes[id])
      ensures w'.nodes[k].passes[id].frame.origin == k ==> Unsent(w', k, w'.nodes[k].passes[id].frame)
    {
      assert PassOk(w, k, w.nodes[k].passes[id]);
      assert w.nodes[k].passes[id].frame.origin == k ==> Unsent(w, k, w.nodes[k].passes[id].frame);
    }
    forall k | 0 <= k < |w'.nodes| ensures InboxOk(w'.frames, w'.nodes[k].inbox) {
      assert InboxOk(w.frames, w.nodes[k].inbox);
    }
    assert SocketsOk(w');
    forall a, b | 0 <= a < b < |w'.receipts| && w'.receipts[a] == w'.receipts[b] ensures Disturbed(w', w'.receipts[a]) {
      assert Disturbed(w, w.receipts[a]);
    }
    forall r | r in w'.receipts ensures ReceiptOk(w', r) { assert ReceiptOk(w, r); }
  }

  lemma DeliverKeeps(w: Cluster, i: nat)
    requires Inv(w)
    ensures Inv(DeliverFrame(w, i))
  {
    if i < |w.nodes| && w.nodes[i].inbox != [] {
      var f := w.nodes[i].inbox[0];
      PopKeeps(w, i);
      assert InboxOk(w.frames, w.nodes[i].inbox);
      if f.origin != i {
        if f.origin < |w.nodes| { PublishedIsOver(w, i, f); }
        BeganKeeps(Popped(w, i), i, f);
      }
    }
  }

  /** A frame that waits on another instance is no longer underway where it was made. */
  lemma PublishedIsOver(w: Cluster, i: nat, f: Frame)
    requires Inv(w) && i < |w.nodes| && f in w.nodes[i].inbox && f.origin < |w.nodes|
    ensures f.id !in w.nodes[f.origin].passes
  {
    assert InboxOk(w.frames, w.nodes[i].inbox);
    if f.id in w.nodes[f.origin].passes {
      assert false;
    }
  }

  lemma BroadcastKeeps(w: Cluster, f: Frame)
    requires Inv(w)
    ensures Inv(BroadcastFrame(w, f))
  {
    if f.origin < |w.nodes| && f.id !in w.frames {
      FrameKeeps(w, f);
      BeganKeeps(w.(frames := w.frames[f.id := f]), f.origin, f);
    }
  }

  /** Only managers and rows change; sockets may be added, and broadcasts be disturbed. */
  ghost predicate Local(w: Cluster, w': Cluster) {
    && |w'.nodes| == |w.nodes| && w'.frames == w.frames && w'.receipts == w.receipts
    && (forall k | 0 <= k < |w.nodes| ::
          && w'.nodes[k].inbox == w.nodes[k].inbox && w'.nodes[k].passes == w.nodes[k].passes
          && w.nodes[k].disturbed <= w'.nodes[k].disturbed <= w.nodes[k].disturbed + w.nodes[k].passes.Keys)
    && SocketsOk(w') && forall s | s in w.sockets :: s in w'.sockets && w'.sockets[s] == w.sockets[s]
  }

  lemma RowsAreLocal(w: Cluster, e: Event)
    requires SocketsOk(w) && (e.Insert? || e.Delete?)
    ensures Local(w, Next(w, e))
  {
    hide Members, Entered, WithoutRow, WithoutFirst, ListOf, Gains;
  }

  lemma MovedKeeps(n: Node, m': Manager)
    ensures var n' := Moved(n, m');
      n' == n.(m := m', disturbed := n'.disturbed)
      && n.disturbed <= n'.disturbed <= n.disturbed + n.passes.Keys
  {
  }

  lemma OpenIsLocal(w: Cluster, i: nat, user: User, socket: Socket)
    requires SocketsOk(w)
    ensures Local(w, OpenStep(w, i, user, socket))
  {
    if i < |w.nodes| && socket !in w.sockets {
      var w' := OpenStep(w, i, user, socket);
      var m' := Connect(w.nodes[i].m, user, socket, ChatsOf(w.db, user));
      assert m'.active == w.nodes[i].m.active[user := socket];
      MovedKeeps(w.nodes[i], m');
      hide Moved, Connect;
      forall k, u | 0 <= k < |w'.nodes| && u in w'.nodes[k].m.active
        ensures w'.nodes[k].m.active[u] in w'.sockets && w'.sockets[w'.nodes[k].m.active[u]] == (k, u)
      {
        if k != i || u != user { assert u in w.nodes[k].m.active; }
      }
    }
  }

  lemma {:induction false} NextKeeps(w: Cluster, e: Event)
    requires Inv(w)
    ensures Inv(Next(w, e))
  {
    hide Members, OpenStep, BroadcastFrame, DeliverFrame, VisitStep, CompleteStep, FinishStep, Closed, Popped, PassesOk,
         StagesOk, TwiceOk, InboxOk;
    match e
    case Broadcast(i, id, chat, exclude) => BroadcastKeeps(w, Frame(i, id, chat, exclude));
    case Notify(i, id) =>
      if i < |w.nodes| && w.nodes[i].notices != [] {
        var n := w.nodes[i];
        var w' := w.(nodes := w.nodes[i := n.(notices := n.notices[1..])]);
        LocalKeeps(w, w');
        BroadcastKeeps(w', Frame(i, id, n.notices[0].chat, Some(n.notices[0].user)));
      }
    case Deliver(i) => DeliverKeeps(w, i);
    case Visit(i, id, user) => VisitKeeps(w, i, id, user);
    case Complete(i, id, ok) => CompleteKeeps(w, i, id, ok);
    case Finish(i, id, bus) => FinishKeeps(w, i, id, bus);
    case Lose(i) => if i < |w.nodes| && w.nodes[i].inbox != [] { PopKeeps(w, i); }
    case Close(i, user, owner) => if i < |w.nodes| { ClosedKeeps(w, i, user, owner); }
    case Open(i, user, socket) =>
      OpenIsLocal(w, i, user, socket);
      LocalKeeps(w, Next(w, e));
    case _ =>
      RowsAreLocal(w, e);
      LocalKeeps(w, Next(w, e));
  }

  lemma {:induction false} RunKeeps(w: Cluster, es: seq<Event>)
    requires Inv(w)
    ensures Inv(Run(w, es))
    decreases |es|
  {
    hide Inv, Next;
    if es != [] {
      NextKeeps(w, es[0]);
      RunKeeps(Next(w, es[0]), es[1..]);
    }
  }

  lemma StartIsOk(n: nat)
    ensures Inv(Start(n))
  {
  }

  /** Whatever the number of instances, and however the sends of broadcasts
      are interleaved with each other and with deliveries, losses, reconnects
      and removals: no socket of the excluded user receives a frame, and a
      socket receives it twice only if the chat's entry on its instance gained
      a user while the broadcast there was underway. */
  lemma {:induction false} EachSocketOnce(n: nat, es: seq<Event>)
    ensures var w := Run(Start(n), es);
      && (forall i, j | 0 <= i < j < |w.receipts| && w.receipts[i] == w.receipts[j] :: Disturbed(w, w.receipts[i]))
      && (forall r <- w.receipts ::
            && r.socket in w.sockets && r.frame in w.frames
            && w.frames[r.frame].exclude != Some(w.sockets[r.socket].1))
  {
    StartIsOk(n);
    RunKeeps(Start(n), es);
    var w := Run(Start(n), es);
    forall r | r in w.receipts
      ensures r.socket in w.sockets && r.frame in w.frames && w.frames[r.frame].exclude != Some(w.sockets[r.socket].1)
    {
      assert ReceiptOk(w, r);
    }
  }

  /** A step of delivering frame `id` on instance i: taking the next frame off
      the inbox, or going on with one that was made elsewhere. */
  predicate OfDelivery(w: Cluster, e: Event, i: nat, id: FrameId) {
    || (e == Deliver(i) && i < |w.nodes| && w.nodes[i].inbox != [] && id == w.nodes[i].inbox[0].id)
    || ((e.Visit? || e.Complete? || e.Finish?) && e.i == i && e.id == id
        && Underway(w, i, id) && w.nodes[i].passes[id].frame.origin != i)
  }

  /** No frame is made, no other instance changes, only the frame taken leaves
      the inbox, and only sockets of instance i receive anything. */
  ghost predicate Quiet(w: Cluster, w': Cluster, e: Event, i: nat, id: FrameId)
    requires i < |w.nodes|
  {
    && w'.frames == w.frames && |w'.nodes| == |w.nodes|
    && (forall k | 0 <= k < |w.nodes| && k != i :: w'.nodes[k] == w.nodes[k])
    && w'.nodes[i].inbox == (if e.Deliver? && w.nodes[i].inbox != [] then w.nodes[i].inbox[1..] else w.nodes[i].inbox)
    && w.nodes[i].notices <= w'.nodes[i].notices
    && (w'.nodes[i].notices != w.nodes[i].notices ==> e.Complete? && !e.ok)
    && (w'.receipts == w.receipts || exists r :: w'.receipts == w.receipts + [r] && IsAt(w, r, i, id))
  }

  /** Delivering a bus frame publishes nothing, in any step of it; a frame of
      the instance's own is only taken; and offline notices are queued only if
      a send failed. */
  lemma {:induction false} DeliveryPublishesNothing(n: nat, es: seq<Event>, e: Event, i: nat, id: FrameId)
    requires OfDelivery(Run(Start(n), es), e, i, id)
    ensures var w := Run(Start(n), es); var w' := Next(w, e);
      && Quiet(w, w', e, i, id)
      && (e.Deliver? && w.nodes[i].inbox[0].origin == i ==> w' == Popped(w, i))
  {
    StartIsOk(n);
    RunKeeps(Start(n), es);
    var w := Run(Start(n), es);
    hide Run, Inv, Quiet, VisitStep, CompleteStep, FinishStep, DeliverFrame, PassOk;
    match e
    case Visit(_, _, u) => VisitIsQuiet(w, i, id, u);
    case Complete(_, _, ok) =>
      PassIsOk(w, i, id);
      CompleteIsQuiet(w, i, id, ok);
    case Finish(_, _, bus) => FinishIsQuiet(w, i, id, bus);
    case _ => DeliverIsQuiet(w, i);
  }

  lemma PassIsOk(w: Cluster, i: nat, id: FrameId)
    requires Inv(w) && Underway(w, i, id)
    ensures PassOk(w, i, w.nodes[i].passes[id]) && w.nodes[i].passes[id].frame.id == id
  {
  }

  lemma DeliverIsQuiet(w: Cluster, i: nat)
    requires i < |w.nodes| && w.nodes[i].inbox != []
    ensures Quiet(w, DeliverFrame(w, i), Deliver(i), i, w.nodes[i].inbox[0].id)
    ensures w.nodes[i].inbox[0].origin == i ==> DeliverFrame(w, i) == Popped(w, i)
  {
    hide Members;
  }

  lemma VisitIsQuiet(w: Cluster, i: nat, id: FrameId, u: User)
    requires Underway(w, i, id)
    ensures Quiet(w, VisitStep(w, i, id, u), Visit(i, id, u), i, id)
  {
    hide Members, Resized;
  }

  lemma FinishIsQuiet(w: Cluster, i: nat, id: FrameId, bus: bool)
    requires Underway(w, i, id) && w.nodes[i].passes[id].frame.origin != i
    ensures Quiet(w, FinishStep(w, i, id, bus), Finish(i, id, bus), i, id)
  {
    hide Members, Resized, Publish;
  }

  lemma CompleteIsQuiet(w: Cluster, i: nat, id: FrameId, ok: bool)
    requires Underway(w, i, id) && PassOk(w, i, w.nodes[i].passes[id]) && w.nodes[i].passes[id].frame.id == id
    ensures Quiet(w, CompleteStep(w, i, id, ok), Complete(i, id, ok), i, id)
  {
    hide Members, NoticesOf, Disconnect, Gains;
    if w.nodes[i].passes[id].sending.Some? && ok {
      var r := Receipt(w.nodes[i].passes[id].sending.value.1, id);
      assert IsAt(w, r, i, id) && CompleteStep(w, i, id, ok).receipts == w.receipts + [r];
    }
  }

  // ---- Offline notices ----

  lemma NoticesOfOne(m: Manager, u: User)
    ensures |NoticesOf(m, [u])| == |ListOf(m, u)|
    ensures forall k | 0 <= k < |ListOf(m, u)| :: NoticesOf(m, [u])[k] == Row(ListOf(m, u)[k], u)
  {
    assert [u][1..] == [];
  }

  /** A socket that closes and has been replaced changes nothing; one that owns
      its slot gives it up, with every index entry of its user's chats, and
      queues an offline notice for each of them, in the order of the list. */
  lemma CloseExactly(w: Cluster, i: nat, u: User, owner: Option<Socket>)
    requires i < |w.nodes|
    ensures var n := w.nodes[i]; var w' := Next(w, Close(i, u, owner)); var chats := ListOf(n.m, u);
      if u !in n.m.active || (owner.Some? && n.m.active[u] != owner.value) then w' == w
      else
        && |w'.nodes| == |w.nodes| && w'.nodes[i].m.active == n.m.active - {u} && w'.nodes[i].m.lists == n.m.lists
        && (forall c, v :: v in Members(w'.nodes[i].m, c) <==> v in Members(n.m, c) && !(v == u && c in chats))
        && |w'.nodes[i].notices| == |n.notices| + |chats| && n.notices <= w'.nodes[i].notices
        && (forall k | 0 <= k < |chats| :: w'.nodes[i].notices[|n.notices| + k] == Row(chats[k], u))
        && w'.receipts == w.receipts && w'.nodes[i].inbox == n.inbox && w'.nodes[i].passes == n.passes
  {
    NoticesOfOne(w.nodes[i].m, u);
    hide NoticesOf, Gains;
  }

  /** The first notice is sent as a broadcast to its chat, its user excluded. */
  lemma NotifyExactly(w: Cluster, i: nat, id: FrameId)
    requires i < |w.nodes| && w.nodes[i].notices != [] && id !in w.frames
    ensures var n := w.nodes[i]; var f := Frame(i, id, n.notices[0].chat, Some(n.notices[0].user));
      var users := Members(n.m, f.chat);
      Next(w, Notify(i, id))
      == w.(frames := w.frames[id := f],
            nodes := w.nodes[i := n.(notices := n.notices[1..],
                                     passes := n.passes[id := Pass(f, |users|, users, None)])])
  {
    hide Members;
  }

  // ---- The index over every run ----

  /** No participant row is inserted twice. */
  predicate RowsInsertedOnce(w: Cluster, es: seq<Event>)
    decreases |es|
  {
    es == [] || ((es[0].Insert? ==> es[0].row !in w.db) && RowsInsertedOnce(Next(w, es[0]), es[1..]))
  }

  /** Every removal is passed to each manager whose list for the user holds the chat. */
  predicate RemovalsPassedOn(w: Cluster, es: seq<Event>)
    decreases |es|
  {
    es == [] || (PassedOn(w, es[0]) && RemovalsPassedOn(Next(w, es[0]), es[1..]))
  }

  predicate PassedOn(w: Cluster, e: Event) {
    e.Delete? ==> forall i | 0 <= i < |w.nodes| :: e.row.chat in ListOf(w.nodes[i].m, e.row.user) ==> i in e.at
  }

  /** What each manager keeps: a complete index over lists without duplicates. */
  ghost predicate Scannable(w: Cluster) {
    Distinct(w.db) && forall i | 0 <= i < |w.nodes| :: Indexed(w.nodes[i].m) && ListsDistinct(w.nodes[i].m)
  }

  /** And, when removals are passed on: no stale entry, and every list within the rows. */
  ghost predicate Fresh(w: Cluster) {
    forall i | 0 <= i < |w.nodes| :: Listed(w.nodes[i].m) && Backed(w.db, w.nodes[i].m)
  }

  predicate Backed(db: seq<Row>, m: Manager) {
    forall u | u in m.lists :: forall c <- m.lists[u] :: Row(c, u) in db
  }

  lemma {:induction false} ChatsDistinct(db: seq<Row>, u: User)
    requires Distinct(db)
    ensures Distinct(ChatsOf(db, u))
  {
    if db != [] {
      var n := |db| - 1;
      var front := db[..n];
      assert Distinct(front) by {
        forall i, j | 0 <= i < j < n ensures front[i] != front[j] { assert db[i] != db[j]; }
      }
      ChatsDistinct(front, u);
      if db[n].user == u {
        assert db[n] !in front;
        DistinctSnoc(ChatsOf(front, u), db[n].chat);
      }
    }
  }

  lemma DistinctSnoc<T>(s: seq<T>, x: T)
    requires Distinct(s) && x !in s
    ensures Distinct(s + [x])
  {
    forall i, j | 0 <= i < j < |s| + 1 ensures (s + [x])[i] != (s + [x])[j] {
      if j < |s| { assert s[i] != s[j]; }
    }
  }

  lemma {:induction false} WithoutRowDistinct(db: seq<Row>, row: Row)
    requires Distinct(db)
    ensures Distinct(WithoutRow(db, row)) && row !in WithoutRow(db, row)
  {
    if db != [] {
      DistinctTail(db);
      WithoutRowDistinct(db[1..], row);
      if db[0] != row {
        DistinctCons(db[0], WithoutRow(db[1..], row));
      }
    }
  }

  /** What an event does to the manager of instance k. */
  ghost predicate Moves(w: Cluster, e: Event, k: nat, m: Manager, m': Manager) {
    match e
    case Insert(row, at) => m' == if k in at then Add(m, row.user, row.chat) else m
    case Delete(row, at) => m' == if row in w.db && k in at then Remove(m, row.user, row.chat) else m
    case Open(_, user, socket) => m' == m || m' == Connect(m, user, socket, ChatsOf(w.db, user))
    case Close(_, user, owner) => m' == m || m' == Disconnect(m, user, owner)
    case Complete(_, _, _) => m' == m || exists user :: m' == Disconnect(m, user, None)
    case _ => m' == m
  }

  lemma NextMoves(w: Cluster, e: Event, k: nat)
    requires k < |w.nodes|
    ensures |Next(w, e).nodes| == |w.nodes| && Moves(w, e, k, w.nodes[k].m, Next(w, e).nodes[k].m)
  {
    hide Add, Remove, Connect, Disconnect, Members, Gains, NoticesOf;
    if e.Complete? && Underway(w, e.i, e.id) && w.nodes[e.i].passes[e.id].sending.Some? && k == e.i && !e.ok {
      var u := w.nodes[k].passes[e.id].sending.value.0;
      assert Next(w, e).nodes[k].m == Disconnect(w.nodes[k].m, u, None);
    }
  }

  lemma DbMoves(w: Cluster, e: Event)
    ensures Next(w, e).db ==
      if e.Insert? then w.db + [e.row] else if e.Delete? && e.row in w.db then WithoutRow(w.db, e.row) else w.db
  {
    hide Add, Remove, Connect, Disconnect, Members, Gains, NoticesOf;
  }

  lemma ScanStep(w: Cluster, e: Event)
    requires Scannable(w) && (e.Insert? ==> e.row !in w.db)
    ensures Scannable(Next(w, e))
  {
    hide Next, Indexed, ListsDistinct, Add, Remove, Connect, Disconnect;
    var w' := Next(w, e);
    DbMoves(w, e);
    if e.Insert? { DistinctSnoc(w.db, e.row); }
    if e.Delete? { WithoutRowDistinct(w.db, e.row); }
    NodeCount(w, e);
    forall k | 0 <= k < |w'.nodes| ensures Indexed(w'.nodes[k].m) && ListsDistinct(w'.nodes[k].m) {
      NextMoves(w, e, k);
      ScanMove(w, e, k, w.nodes[k].m, w'.nodes[k].m);
    }
  }

  lemma NodeCount(w: Cluster, e: Event)
    ensures |Next(w, e).nodes| == |w.nodes|
  {
    hide Add, Remove, Connect, Disconnect, Members, Gains, NoticesOf;
  }

  lemma ScanMove(w: Cluster, e: Event, k: nat, m: Manager, m': Manager)
    requires Distinct(w.db) && Indexed(m) && ListsDistinct(m) && Moves(w, e, k, m, m')
    ensures Indexed(m') && ListsDistinct(m')
  {
    hide Indexed, Add, Remove, Connect, Disconnect, Distinct;
    if m' != m {
      match e
      case Insert(row, at) => AddKeeps(m, row.user, row.chat);
      case Delete(row, at) =>
        RemoveKeeps(m, row.user, row.chat);
        RemoveKeepsIndex(m, row.user, row.chat);
      case Open(_, user, socket) =>
        ChatsDistinct(w.db, user);
        ConnectKeeps(m, user, socket, ChatsOf(w.db, user));
      case Close(_, user, owner) => DisconnectKeeps(m, user, owner);
      case Complete(_, _, _) =>
        var user :| m' == Disconnect(m, user, None);
        DisconnectKeeps(m, user, None);
    }
  }

  lemma RemoveKeepsIndex(m: Manager, u: User, c: ChatId)
    requires Indexed(m) && ListsDistinct(m)
    ensures Indexed(Remove(m, u, c))
  {
    RemoveKeepsIndexExactly(m, u, c);
  }

  lemma FreshStep(w: Cluster, e: Event)
    requires Scannable(w) && Fresh(w) && (e.Insert? ==> e.row !in w.db) && PassedOn(w, e)
    ensures Fresh(Next(w, e))
  {
    hide Next, Indexed, Listed, ListsDistinct, Add, Remove, Connect, Disconnect, Backed;
    var w' := Next(w, e);
    DbMoves(w, e);
    NodeCount(w, e);
    forall k | 0 <= k < |w'.nodes| ensures Listed(w'.nodes[k].m) && Backed(w'.db, w'.nodes[k].m) {
      NextMoves(w, e, k);
      FreshMove(w, e, k, w.nodes[k].m, w'.nodes[k].m, w'.db);
    }
  }

  lemma FreshMove(w: Cluster, e: Event, k: nat, m: Manager, m': Manager, db': seq<Row>)
    requires Distinct(w.db) && Indexed(m) && ListsDistinct(m) && Listed(m) && Backed(w.db, m) && Moves(w, e, k, m, m')
    requires db' ==
      if e.Insert? then w.db + [e.row] else if e.Delete? && e.row in w.db then WithoutRow(w.db, e.row) else w.db
    requires e.Delete? && e.row.chat in ListOf(m, e.row.user) ==> k in e.at
    ensures Listed(m') && Backed(db', m')
  {
    hide Indexed, Listed, ListsDistinct, Connect, Disconnect, Distinct;
    match e
    case Insert(row, at) =>
      AddKeeps(m, row.user, row.chat);
    case Delete(row, at) =>
      RemoveKeeps(m, row.user, row.chat);
      forall u, c | u in m'.lists && c in m'.lists[u] ensures Row(c, u) in db' {
        assert Row(c, u) in w.db;
      }
    case Open(_, user, socket) =>
      ConnectStaysFresh(w.db, m, user, socket);
    case Close(_, user, owner) => DisconnectKeeps(m, user, owner);
    case Complete(_, _, _) =>
      if m' != m {
        var user :| m' == Disconnect(m, user, None);
        DisconnectKeeps(m, user, None);
      }
    case _ =>
  }

  /** Loading the rows is safe for a manager whose lists are within them. */
  lemma ConnectStaysFresh(db: seq<Row>, m: Manager, u: User, socket: Socket)
    requires Indexed(m) && Listed(m) && Backed(db, m)
    ensures var m' := Connect(m, u, socket, ChatsOf(db, u)); Listed(m') && Backed(db, m')
  {
    ConnectKeeps(m, u, socket, ChatsOf(db, u));
    forall c | c in m.index && u in m.index[c] ensures c in ChatsOf(db, u) {
      assert c in ListOf(m, u);
    }
  }

  lemma {:induction false} RunScans(w: Cluster, es: seq<Event>)
    requires Scannable(w) && RowsInsertedOnce(w, es)
    ensures Scannable(Run(w, es))
    ensures Fresh(w) && RemovalsPassedOn(w, es) ==> Fresh(Run(w, es))
    decreases |es|
  {
    hide Next, Scannable, Fresh, PassedOn;
    if es != [] {
      ScanStep(w, es[0]);
      if Fresh(w) && PassedOn(w, es[0]) { FreshStep(w, es[0]); }
      RunScans(Next(w, es[0]), es[1..]);
    }
  }

  /** If no participant row is inserted twice, every connected user who lists
      a chat is in the chat's index entry on every instance. */
  lemma {:induction false} IndexIsComplete(n: nat, es: seq<Event>, i: nat)
    requires RowsInsertedOnce(Start(n), es) && i < |Run(Start(n), es).nodes|
    ensures Indexed(Run(Start(n), es).nodes[i].m)
  {
    RunScans(Start(n), es);
  }

  /** If also every removal is passed on, a local broadcast on any instance
      serves exactly the connected users whose list holds the chat, minus the
      excluded one, once each, unless a send to one of them fails. */
  lemma {:induction false} BroadcastServesTheScan(
      n: nat, es: seq<Event>, i: nat, c: ChatId, exclude: Option<User>, dead: set<User>, order: seq<User>)
    requires RowsInsertedOnce(Start(n), es) && RemovalsPassedOn(Start(n), es) && i < |Run(Start(n), es).nodes|
    requires Enumerates(order, Members(Run(Start(n), es).nodes[i].m, c))
    ensures var m := Run(Start(n), es).nodes[i].m;
      var (m', r) := Serve(m, c, exclude, dead, order);
      && (r.raised <==> exists u :: u in dead && Audience(m, c, exclude, u))
      && (!r.raised ==> m' == m && Distinct(r.users) && forall u :: u in r.users <==> Audience(m, c, exclude, u))
  {
    RunScans(Start(n), es);
    BroadcastExactly(Run(Start(n), es).nodes[i].m, c, exclude, dead, order);
  }

  /** A removal that is not passed on, as that of `remove_participant`: every
      manager still serves the user; and once the user reconnects without a
      disconnect in between, the index entry outlives even the list. */
  lemma {:induction false} UnpassedRemovalStillServes(w: Cluster, row: Row, i: nat, socket: Socket)
    requires Scannable(w) && row in w.db && i < |w.nodes| && socket !in w.sockets
    requires row.user in w.nodes[i].m.active && row.chat in ListOf(w.nodes[i].m, row.user)
    ensures var w' := Next(w, Delete(row, {})); var m := Next(w', Open(i, row.user, socket)).nodes[i].m;
      && row !in w'.db && Audience(w'.nodes[i].m, row.chat, None, row.user)
      && row.chat !in ListOf(m, row.user) && row.user in Members(m, row.chat) && row.user in m.active
  {
    WithoutRowDistinct(w.db, row);
    var w' := Next(w, Delete(row, {}));
    assert w'.nodes[i] == w.nodes[i];
    assert row.user in Members(w.nodes[i].m, row.chat);
    EnteredAllExactly(w.nodes[i].m.index, row.user, ChatsOf(w'.db, row.user));
  }
}
