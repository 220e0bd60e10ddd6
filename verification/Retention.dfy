/** Deaf-relay retention: a relay keeps message rows only until they are
    delivered or read (server/core/background_tasks.py), next to the endpoints
    that decide which rows those are (server/routes/chat.py,
    server/routes/contacts_groups.py). Sending is two steps, its two commits, and
    fetching a history three, its statements, so that others come in between;
    the purge, a SELECT and a DELETE, is one step. */
module Retention {
  import opened Text

  type User = string
  type ChatId = string
  type MessageId = string

  datatype Message = Message(
    chat: ChatId, sender: User, created: int, scheduled: Option<int>, expires: Option<int>,
    viewOnce: bool, viewed: bool, deleted: bool, delivered: Option<int>)

  datatype Status = Status(msg: MessageId, user: User, read: bool)

  /** A participant row: the time it is stamped with and, as history, when it was committed. */
  datatype Member = Member(chat: ChatId, user: User, joined: int, since: int)

  /** The users of a chat as counted at one moment of a fetch by `fetcher`. */
  datatype Count = Count(fetcher: User, at: int, users: seq<User>)

  /** A fetch between its statements: the undelivered messages of others it
      read, and the count once it was taken. */
  datatype Fetch = Fetch(user: User, chat: ChatId, ids: set<MessageId>, count: Option<Count>)

  /** The tables, the clock and the fetches under way; then history: messages
      whose status rows are still to be written, ids ever used, who marked
      what read, who was handed what, and the count behind each delivery. */
  datatype Store = Store(
    messages: map<MessageId, Message>, statuses: seq<Status>, members: seq<Member>, now: int, fetches: map<nat, Fetch>,
    sending: set<MessageId>, used: set<MessageId>, readBy: set<(MessageId, User)>, handed: set<(MessageId, User)>,
    marks: map<MessageId, Count>)

  const EMPTY := Store(map[], [], [], 0, map[], {}, {}, {}, {}, map[])

  // ---- Rows ----

  predicate Joined(members: seq<Member>, chat: ChatId, user: User) {
    exists m <- members :: m.chat == chat && m.user == user
  }

  function UsersOf(members: seq<Member>, chat: ChatId): (r: seq<User>)
    ensures forall u :: u in r <==> Joined(members, chat, u)
  {
    if members == [] then []
    else
      var n := |members| - 1;
      assert members == members[..n] + [members[n]];
      UsersOf(members[..n], chat) + if members[n].chat == chat then [members[n].user] else []
  }

  /** The first row of that user in that chat goes. */
  function Left(members: seq<Member>, chat: ChatId, user: User): (r: seq<Member>)
    ensures forall m <- r :: m in members
  {
    if members == [] then []
    else if members[0].chat == chat && members[0].user == user then members[1..]
    else [members[0]] + Left(members[1..], chat, user)
  }

  /** Unread rows of message m for everyone in `users` but its sender. */
  function Unread(m: MessageId, users: seq<User>, sender: User): (r: seq<Status>)
    ensures forall x :: x in r <==> x.msg == m && !x.read && x.user in users && x.user != sender
  {
    if users == [] then []
    else
      var n := |users| - 1;
      assert users == users[..n] + [users[n]];
      Unread(m, users[..n], sender) + if users[n] == sender then [] else [Status(m, users[n], false)]
  }

  /** The first row of m and u is set to read; without one, a read row is added. */
  function MarkFirst(ss: seq<Status>, m: MessageId, u: User): seq<Status> {
    if ss == [] then [Status(m, u, true)]
    else if ss[0].msg == m && ss[0].user == u then [ss[0].(read := true)] + ss[1..]
    else [ss[0]] + MarkFirst(ss[1..], m, u)
  }

  lemma {:induction false} MarkFirstRows(ss: seq<Status>, m: MessageId, u: User)
    ensures Status(m, u, true) in MarkFirst(ss, m, u)
    ensures forall x <- MarkFirst(ss, m, u) :: x in ss || x == Status(m, u, true)
    ensures forall x <- ss :: x in MarkFirst(ss, m, u) || (x == Status(m, u, false))
  {
    if ss != [] {
      assert ss == [ss[0]] + ss[1..];
      MarkFirstRows(ss[1..], m, u);
    }
  }

  predicate OfChat(x: Status, messages: map<MessageId, Message>, chat: ChatId, u: User) {
    x.user == u && x.msg in messages && messages[x.msg].chat == chat
  }

  function MarkAll(ss: seq<Status>, messages: map<MessageId, Message>, chat: ChatId, u: User): (r: seq<Status>)
    ensures |r| == |ss|
    ensures forall i | 0 <= i < |ss| ::
      r[i] == if OfChat(ss[i], messages, chat, u) then ss[i].(read := true) else ss[i]
  {
    seq(|ss|, i requires 0 <= i < |ss| => if OfChat(ss[i], messages, chat, u) then ss[i].(read := true) else ss[i])
  }

  /** What the cascade leaves of the status rows when the messages `gone` are deleted. */
  function Without(ss: seq<Status>, gone: set<MessageId>): (r: seq<Status>)
    ensures forall x :: x in r <==> x in ss && x.msg !in gone
  {
    if ss == [] then []
    else
      var n := |ss| - 1;
      assert ss == ss[..n] + [ss[n]];
      Without(ss[..n], gone) + if ss[n].msg in gone then [] else [ss[n]]
  }

  // ---- The purge ----

  /** The third rule: some status row, none unread, nobody joined later, and view-once only if viewed. */
  predicate ReadByAll(m: MessageId, x: Message, statuses: seq<Status>, members: seq<Member>) {
    && (exists t <- statuses :: t.msg == m)
    && (forall t <- statuses :: t.msg == m ==> t.read)
    && (forall p <- members :: p.chat == x.chat ==> p.joined <= x.created)
    && (x.viewOnce ==> x.viewed)
  }

  predicate DeliveredBefore(x: Message, cutoff: int) {
    x.delivered.Some? && x.delivered.value < cutoff
  }

  function Targets(messages: map<MessageId, Message>, statuses: seq<Status>, members: seq<Member>, now: int,
                   retention: int, grace: int): set<MessageId> {
    set m | m in messages
      && messages[m].scheduled.None? && !messages[m].deleted
      && (DeliveredBefore(messages[m], now - grace) || messages[m].created < now - retention
          || ReadByAll(m, messages[m], statuses, members))
  }

  /** The rows a purge takes. */
  function Taken(s: Store, retention: int, grace: int): set<MessageId> {
    Targets(s.messages, s.statuses, s.members, s.now, retention, grace)
  }

  function Purge(s: Store, retention: int, grace: int): Store {
    var gone := Taken(s, retention, grace);
    s.(messages := s.messages - gone, statuses := Without(s.statuses, gone))
  }

  // ---- The steps ----

  datatype Event =
    | Pass(seconds: nat)
    | Join(chat: ChatId, user: User, stamp: int)
    | Leave(chat: ChatId, user: User)
    | Send(
        id: MessageId, chat: ChatId, sender: User, stamp: int,
        scheduled: Option<int>, expires: Option<int>, viewOnce: bool)
    | Address(id: MessageId)
    | ReadOne(id: MessageId, user: User)
    | ReadChat(chat: ChatId, user: User)
    | View(id: MessageId, user: User)
    | Delete(id: MessageId, user: User)
    | Expire
    | Release
    | FetchRead(t: nat, chat: ChatId, user: User, page: set<MessageId>)
    | FetchCount(t: nat)
    | FetchMark(t: nat)
    | RunPurge(retention: int, grace: int)

  /** A row is stamped by the database before it is committed. */
  function JoinRow(s: Store, chat: ChatId, user: User, stamp: int): Store {
    if stamp > s.now then s else s.(members := s.members + [Member(chat, user, stamp, s.now)])
  }

  /** The first commit of a send. */
  function SendRow(s: Store, id: MessageId, x: Message): Store {
    if id in s.used || !Joined(s.members, x.chat, x.sender) || x.created > s.now then s
    else s.(messages := s.messages[id := x], used := s.used + {id}, sending := s.sending + {id})
  }

  /** The second commit of a send: an unread row for each other user now in the chat. */
  function AddressRows(s: Store, id: MessageId): Store {
    if id !in s.sending then s
    else if id !in s.messages then s.(sending := s.sending - {id})
    else
      var x := s.messages[id];
      s.(statuses := s.statuses + Unread(id, UsersOf(s.members, x.chat), x.sender), sending := s.sending - {id})
  }

  function ReadOneRow(s: Store, id: MessageId, user: User): Store {
    if id in s.messages && Joined(s.members, s.messages[id].chat, user)
    then s.(statuses := MarkFirst(s.statuses, id, user), readBy := s.readBy + {(id, user)})
    else s
  }

  function ReadChatRows(s: Store, chat: ChatId, user: User): Store {
    if Joined(s.members, chat, user)
    then s.(statuses := MarkAll(s.statuses, s.messages, chat, user),
            readBy := s.readBy + set x | x in s.statuses && OfChat(x, s.messages, chat, user) :: (x.msg, user))
    else s
  }

  /** Opening a view-once message deletes it softly at once. */
  function ViewRow(s: Store, id: MessageId, user: User): Store {
    if id in s.messages && s.messages[id].viewOnce && Joined(s.members, s.messages[id].chat, user)
       && user != s.messages[id].sender && !s.messages[id].viewed
    then s.(messages := s.messages[id := s.messages[id].(viewed := true, deleted := true)])
    else s
  }

  function DeleteRow(s: Store, id: MessageId, user: User): Store {
    if id in s.messages && s.messages[id].sender == user
    then s.(messages := s.messages[id := s.messages[id].(deleted := true)])
    else s
  }

  predicate Due(at: Option<int>, now: int) {
    at.Some? && at.value <= now
  }

  function ExpireRows(s: Store): Store {
    s.(messages := map m | m in s.messages ::
         s.messages[m].(deleted := s.messages[m].deleted || Due(s.messages[m].expires, s.now)))
  }

  function ReleaseRows(s: Store): Store {
    s.(messages := map m | m in s.messages ::
         if Due(s.messages[m].scheduled, s.now) && !s.messages[m].deleted
         then s.messages[m].(scheduled := None) else s.messages[m])
  }

  /** The part of the asked page that a fetch returns. */
  function Visible(messages: map<MessageId, Message>, now: int, chat: ChatId, page: set<MessageId>): set<MessageId> {
    set m | m in page && m in messages
      && messages[m].chat == chat && !messages[m].deleted && !Due(messages[m].expires, now)
  }

  /** Those of the returned messages whose delivery is still to be marked. */
  function Undelivered(messages: map<MessageId, Message>, seen: set<MessageId>, user: User): set<MessageId> {
    set m | m in seen && m in messages && messages[m].sender != user && messages[m].delivered.None?
  }

  function Marked(messages: map<MessageId, Message>, ids: set<MessageId>, at: int): map<MessageId, Message> {
    map m | m in messages :: if m in ids then messages[m].(delivered := Some(at)) else messages[m]
  }

  function FetchReadRows(s: Store, t: nat, chat: ChatId, user: User, page: set<MessageId>): Store {
    if t in s.fetches || !Joined(s.members, chat, user) then s
    else
      var seen := Visible(s.messages, s.now, chat, page);
      var ids := Undelivered(s.messages, seen, user);
      s.(fetches := s.fetches[t := Fetch(user, chat, ids, None)], handed := s.handed + set m | m in seen :: (m, user))
  }

  /** The fetch reads the clock and counts; only a count of two lets it go on. */
  function FetchCountRows(s: Store, t: nat): Store {
    if t !in s.fetches || s.fetches[t].count.Some? then s
    else
      var f := s.fetches[t];
      var users := UsersOf(s.members, f.chat);
      if |users| == 2 then s.(fetches := s.fetches[t := f.(count := Some(Count(f.user, s.now, users)))])
      else s.(fetches := s.fetches - {t})
  }

  function FetchMarkRows(s: Store, t: nat): Store {
    if t !in s.fetches || s.fetches[t].count.None? then s
    else
      var f := s.fetches[t];
      s.(messages := Marked(s.messages, f.ids, f.count.value.at),
         marks := map m | m in s.marks.Keys + f.ids :: if m in f.ids then f.count.value else s.marks[m],
         fetches := s.fetches - {t})
  }

  function Next(s: Store, e: Event): Store {
    match e
    case Pass(seconds) => s.(now := s.now + seconds)
    case Join(chat, user, stamp) => JoinRow(s, chat, user, stamp)
    case Leave(chat, user) => s.(members := Left(s.members, chat, user))
    case Send(id, chat, sender, stamp, scheduled, expires, viewOnce) =>
      SendRow(s, id, Message(chat, sender, stamp, scheduled, expires, viewOnce, false, false, None))
    case Address(id) => AddressRows(s, id)
    case ReadOne(id, user) => ReadOneRow(s, id, user)
    case ReadChat(chat, user) => ReadChatRows(s, chat, user)
    case View(id, user) => ViewRow(s, id, user)
    case Delete(id, user) => DeleteRow(s, id, user)
    case Expire => ExpireRows(s)
    case Release => ReleaseRows(s)
    case FetchRead(t, chat, user, page) => FetchReadRows(s, t, chat, user, page)
    case FetchCount(t) => FetchCountRows(s, t)
    case FetchMark(t) => FetchMarkRows(s, t)
    case RunPurge(retention, grace) => Purge(s, retention, grace)
  }

  function Run(s: Store, es: seq<Event>): Store {
    if es == [] then s else Next(Run(s, es[..|es| - 1]), es[|es| - 1])
  }

  // ---- What every run keeps ----

  predicate HasStatus(ss: seq<Status>, m: MessageId, u: User) {
    exists x <- ss :: x.msg == m && x.user == u
  }

  ghost predicate RowsOk(s: Store) {
    && (forall m | m in s.messages ::
          m in s.used && s.messages[m].created <= s.now && (s.messages[m].viewed ==> s.messages[m].deleted))
    && s.sending <= s.used
    && (forall x <- s.statuses :: x.msg in s.used)
  }

  /** Whoever was in the chat before a sent message has a status row for it. */
  ghost predicate Addressed(s: Store) {
    forall m, p | m in s.messages && m !in s.sending && p in s.members ::
      p.chat == s.messages[m].chat && p.user != s.messages[m].sender && p.since < s.messages[m].created
      ==> HasStatus(s.statuses, m, p.user)
  }

  /** A status is read only because its user marked it, and what a user marked has a read status. */
  ghost predicate ReadsOk(s: Store) {
    && (forall x <- s.statuses :: x.read ==> (x.msg, x.user) in s.readBy)
    && (forall r <- s.readBy :: r.0 in s.used && (r.0 in s.messages ==> Status(r.0, r.1, true) in s.statuses))
  }

  predicate CountOk(c: Count, now: int) {
    |c.users| == 2 && c.at <= now
  }

  predicate FetchOk(s: Store, f: Fetch) {
    && (forall m <- f.ids :: m in s.used && (m, f.user) in s.handed
          && (m in s.messages ==> s.messages[m].sender != f.user && s.messages[m].chat == f.chat))
    && (f.count.Some? ==> f.count.value.fetcher == f.user && CountOk(f.count.value, s.now))
  }

  ghost predicate FetchesOk(s: Store) {
    forall t | t in s.fetches :: FetchOk(s, s.fetches[t])
  }

  predicate MarkOk(s: Store, m: MessageId)
    requires m in s.messages && s.messages[m].delivered.Some?
  {
    && m in s.marks && s.marks[m].at == s.messages[m].delivered.value && CountOk(s.marks[m], s.now)
    && s.marks[m].fetcher != s.messages[m].sender && (m, s.marks[m].fetcher) in s.handed
  }

  ghost predicate MarksOk(s: Store) {
    forall m | m in s.messages && s.messages[m].delivered.Some? :: MarkOk(s, m)
  }

  ghost predicate Inv(s: Store) {
    RowsOk(s) && Addressed(s) && ReadsOk(s) && FetchesOk(s) && MarksOk(s)
  }

  lemma RowsKeep(s: Store, e: Event)
    requires RowsOk(s)
    ensures RowsOk(Next(s, e))
  {
    hide MarkFirst, MarkAll, Without, Targets, Left, Unread, UsersOf, Visible;
    match e
    case ReadOne(id, user) => MarkFirstRows(s.statuses, id, user);
    case ReadChat(chat, user) =>
      var r := MarkAll(s.statuses, s.messages, chat, user);
      forall x <- r ensures x.msg in s.used {
        var i :| 0 <= i < |r| && r[i] == x;
        assert s.statuses[i] in s.statuses;
      }
    case _ =>
  }

  lemma AddressedKeep(s: Store, e: Event)
    requires RowsOk(s) && Addressed(s)
    ensures Addressed(Next(s, e))
  {
    hide RowsOk;
    var s' := Next(s, e);
    forall m, p | m in s'.messages && m !in s'.sending && p in s'.members
      && p.chat == s'.messages[m].chat && p.user != s'.messages[m].sender && p.since < s'.messages[m].created
      ensures HasStatus(s'.statuses, m, p.user)
    {
      AddressedRow(s, e, m, p);
    }
  }

  lemma AddressedRow(s: Store, e: Event, m: MessageId, p: Member)
    requires RowsOk(s) && Addressed(s)
    requires var s' := Next(s, e);
      && m in s'.messages && m !in s'.sending && p in s'.members
      && p.chat == s'.messages[m].chat && p.user != s'.messages[m].sender && p.since < s'.messages[m].created
    ensures HasStatus(Next(s, e).statuses, m, p.user)
  {
    hide MarkFirst, MarkAll, Without, Targets, Left, Unread, UsersOf, Visible, Due;
    var s' := Next(s, e);
    if e.Address? && e.id == m && m in s.sending {
      assert Joined(s.members, p.chat, p.user);
      assert Status(m, p.user, false) in s'.statuses;
    } else {
      SentBefore(s, e, m, p);
      HistoryGrows(s, e);
      StatusOf(s, m, p);
      var x :| x in s.statuses && x.msg == m && x.user == p.user;
      hide Next, Addressed, RowsOk;
      StatusStays(s, e, x);
    }
  }

  lemma StatusOf(s: Store, m: MessageId, p: Member)
    requires Addressed(s) && m in s.messages && m !in s.sending && p in s.members
    requires p.chat == s.messages[m].chat && p.user != s.messages[m].sender && p.since < s.messages[m].created
    ensures HasStatus(s.statuses, m, p.user)
  {
  }

  /** A message that is sent now, with a member from before it, was both before the event. */
  lemma SentBefore(s: Store, e: Event, m: MessageId, p: Member)
    requires RowsOk(s) && !(e.Address? && e.id == m && m in s.sending)
    requires var s' := Next(s, e);
      m in s'.messages && m !in s'.sending && p in s'.members && p.since < s'.messages[m].created
    ensures m in s.used && m !in s.sending && p in s.members
  {
    hide MarkFirst, MarkAll, Without, Targets, Left, Unread, UsersOf, Visible, Due, Joined;
  }

  /** A status row of a message that is still there is still there, read or not. */
  lemma StatusStays(s: Store, e: Event, x: Status)
    requires x in s.statuses && x.msg in Next(s, e).messages
    ensures x in Next(s, e).statuses || x.(read := true) in Next(s, e).statuses
    ensures x.read ==> x in Next(s, e).statuses
  {
    match e
    case ReadOne(id, user) => MarkFirstRows(s.statuses, id, user);
    case ReadChat(chat, user) =>
      var i :| 0 <= i < |s.statuses| && s.statuses[i] == x;
      var r := MarkAll(s.statuses, s.messages, chat, user);
      assert r[i] in r;
    case _ =>
  }

  lemma ReadsKeep(s: Store, e: Event)
    requires RowsOk(s) && ReadsOk(s)
    ensures ReadsOk(Next(s, e))
  {
    var s' := Next(s, e);
    forall x <- s'.statuses | x.read ensures (x.msg, x.user) in s'.readBy {
      ReadStatus(s, e, x);
    }
    forall r <- s'.readBy ensures r.0 in s'.used && (r.0 in s'.messages ==> Status(r.0, r.1, true) in s'.statuses) {
      ReadStays(s, e, r);
    }
  }

  lemma ReadStatus(s: Store, e: Event, x: Status)
    requires ReadsOk(s) && x in Next(s, e).statuses && x.read
    ensures (x.msg, x.user) in Next(s, e).readBy
  {
    match e
    case ReadOne(id, user) => MarkFirstRows(s.statuses, id, user);
    case ReadChat(chat, user) =>
      if Joined(s.members, chat, user) {
        var r := MarkAll(s.statuses, s.messages, chat, user);
        var i :| 0 <= i < |r| && r[i] == x;
        assert s.statuses[i] in s.statuses;
      }
    case _ =>
  }

  lemma ReadStays(s: Store, e: Event, r: (MessageId, User))
    requires RowsOk(s) && ReadsOk(s) && r in Next(s, e).readBy
    ensures r.0 in Next(s, e).used && (r.0 in Next(s, e).messages ==> Status(r.0, r.1, true) in Next(s, e).statuses)
  {
    hide MarkFirst, Without, Targets, Left, Unread, UsersOf, Visible, Due, Joined;
    var s' := Next(s, e);
    if r in s.readBy {
      if r.0 in s'.messages {
        assert r.0 in s.messages;
        StatusStays(s, e, Status(r.0, r.1, true));
      }
    } else if e.ReadOne? {
      MarkFirstRows(s.statuses, e.id, e.user);
    } else if e.ReadChat? {
      var x :| x in s.statuses && OfChat(x, s.messages, e.chat, e.user) && r == (x.msg, e.user);
      var i :| 0 <= i < |s.statuses| && s.statuses[i] == x;
      var all := MarkAll(s.statuses, s.messages, e.chat, e.user);
      assert all[i] in all;
    }
  }

  lemma FetchesKeep(s: Store, e: Event)
    requires RowsOk(s) && FetchesOk(s)
    ensures FetchesOk(Next(s, e))
  {
    var s' := Next(s, e);
    forall t | t in s'.fetches ensures FetchOk(s', s'.fetches[t]) {
      FetchStays(s, e, t);
    }
  }

  lemma FetchStays(s: Store, e: Event, t: nat)
    requires RowsOk(s) && FetchesOk(s) && t in Next(s, e).fetches
    ensures FetchOk(Next(s, e), Next(s, e).fetches[t])
  {
    var s' := Next(s, e);
    if t in s.fetches && s'.fetches[t] == s.fetches[t] {
      HistoryGrows(s, e);
      FetchFramed(s, s', s.fetches[t]);
    } else if e.FetchRead? {
      hide FetchesOk;
    } else {
      hide RowsOk;
      assert e == FetchCount(t) && FetchOk(s, s.fetches[t]);
    }
  }

  lemma HistoryGrows(s: Store, e: Event)
    requires RowsOk(s)
    ensures var s' := Next(s, e);
      && s.used <= s'.used && s.handed <= s'.handed && s.now <= s'.now
      && forall m | m in s'.messages && m in s.used :: m in s.messages && SameOrigin(s.messages[m], s'.messages[m])
  {
    hide MarkFirst, MarkAll, Without, Targets, Left, Unread, UsersOf, Visible, Joined;
  }

  predicate SameOrigin(x: Message, y: Message) {
    x.chat == y.chat && x.sender == y.sender && x.created == y.created
  }

  lemma FetchFramed(s: Store, s': Store, f: Fetch)
    requires FetchOk(s, f) && s.used <= s'.used && s.handed <= s'.handed && s.now <= s'.now
    requires forall m | m in s'.messages && m in s.used :: m in s.messages && SameOrigin(s.messages[m], s'.messages[m])
    ensures FetchOk(s', f)
  {
  }

  lemma MarksKeep(s: Store, e: Event)
    requires RowsOk(s) && FetchesOk(s) && MarksOk(s)
    ensures MarksOk(Next(s, e))
  {
    var s' := Next(s, e);
    forall m | m in s'.messages && s'.messages[m].delivered.Some? ensures MarkOk(s', m) {
      MarkStays(s, e, m);
    }
  }

  lemma MarkStays(s: Store, e: Event, m: MessageId)
    requires RowsOk(s) && FetchesOk(s) && MarksOk(s)
    requires m in Next(s, e).messages && Next(s, e).messages[m].delivered.Some?
    ensures MarkOk(Next(s, e), m)
  {
    hide MarkFirst, MarkAll, Without, Targets, Left, Unread, UsersOf, Visible, Due, Joined;
    if m in s.messages && s.messages[m].delivered.Some? {
      assert MarkOk(s, m);
    }
    if e.FetchMark? && e.t in s.fetches {
      assert FetchOk(s, s.fetches[e.t]);
    }
  }

  lemma {:induction false} RunKeeps(s: Store, es: seq<Event>)
    requires Inv(s)
    ensures Inv(Run(s, es))
  {
    hide RowsOk, Addressed, ReadsOk, FetchesOk, MarksOk, Next;
    if es != [] {
      var s', e := Run(s, es[..|es| - 1]), es[|es| - 1];
      RunKeeps(s, es[..|es| - 1]);
      RowsKeep(s', e);
      AddressedKeep(s', e);
      ReadsKeep(s', e);
      FetchesKeep(s', e);
      MarksKeep(s', e);
    }
  }

  // ---- What a purge may take ----

  /** The count was taken in this state: those two were the participants of the chat, no more. */
  predicate CountedAt(s: Store, chat: ChatId, c: Count) {
    s.now == c.at && UsersOf(s.members, chat) == c.users && |c.users| == 2
  }

  /** The count was taken at some moment of the run. */
  ghost predicate CountedIn(es: seq<Event>, chat: ChatId, c: Count) {
    exists k | 0 <= k <= |es| :: CountedAt(Run(EMPTY, es[..k]), chat, c)
  }

  /** Every count a fetch goes on with, and every count behind a delivery, was taken in the message's chat. */
  ghost predicate CountsOk(es: seq<Event>) {
    var s := Run(EMPTY, es);
    && (forall t | t in s.fetches && s.fetches[t].count.Some? ::
          CountedIn(es, s.fetches[t].chat, s.fetches[t].count.value))
    && (forall m | m in s.messages && s.messages[m].delivered.Some? ::
          m in s.marks && CountedIn(es, s.messages[m].chat, s.marks[m]))
  }

  lemma CountedEarlier(es: seq<Event>, e: Event, chat: ChatId, c: Count)
    requires CountedIn(es, chat, c)
    ensures CountedIn(es + [e], chat, c)
  {
    hide CountedAt, Run;
    var k :| 0 <= k <= |es| && CountedAt(Run(EMPTY, es[..k]), chat, c);
    assert (es + [e])[..k] == es[..k];
  }

  lemma CountedNow(es: seq<Event>, e: Event, chat: ChatId, c: Count)
    requires CountedAt(Run(EMPTY, es), chat, c)
    ensures CountedIn(es + [e], chat, c)
  {
    hide CountedAt, Run;
    assert (es + [e])[..|es|] == es;
  }

  /** Where the count of a fetch comes from. */
  lemma CountFrom(s: Store, e: Event, t: nat)
    requires t in Next(s, e).fetches && Next(s, e).fetches[t].count.Some?
    ensures var f := Next(s, e).fetches[t];
      (t in s.fetches && s.fetches[t] == f) || CountedAt(s, f.chat, f.count.value)
  {
    hide MarkFirst, MarkAll, Without, Visible, Undelivered, Targets, UsersOf, Joined;
    if e == FetchCount(t) && t in s.fetches && s.fetches[t].count.None? {
      var f := s.fetches[t];
      assert Next(s, e).fetches[t] == f.(count := Some(Count(f.user, s.now, UsersOf(s.members, f.chat))));
    }
  }

  /** Where the count behind a delivery comes from: it stays, or it is that of a fetch of the message's chat. */
  lemma MarkFrom(s: Store, e: Event, m: MessageId)
    requires RowsOk(s) && FetchesOk(s) && MarksOk(s)
    requires m in Next(s, e).messages && Next(s, e).messages[m].delivered.Some?
    ensures var s' := Next(s, e);
      && m in s'.marks
      && ((&& m in s.messages && s.messages[m].delivered.Some? && m in s.marks
           && s'.messages[m].chat == s.messages[m].chat && s'.marks[m] == s.marks[m])
          || exists t ::
               t in s.fetches && s.fetches[t].count == Some(s'.marks[m]) && s'.messages[m].chat == s.fetches[t].chat)
  {
    hide MarkFirst, MarkAll, Without, Targets, Left, Unread, UsersOf, Visible, Undelivered, Joined;
    if m in s.messages && s.messages[m].delivered.Some? {
      assert MarkOk(s, m);
    }
    if e.FetchMark? && e.t in s.fetches {
      assert FetchOk(s, s.fetches[e.t]);
    }
  }

  lemma {:induction false} CountsKeep(es: seq<Event>)
    ensures CountsOk(es)
  {
    hide Next, CountedIn, CountedAt, FetchesOk, MarksOk, RowsOk, Addressed, ReadsOk;
    if es != [] {
      var before, e := es[..|es| - 1], es[|es| - 1];
      var s, s' := Run(EMPTY, before), Run(EMPTY, es);
      CountsKeep(before);
      EmptyIsOk();
      RunKeeps(EMPTY, before);
      RunSnoc(EMPTY, es);
      assert before + [e] == es;
      forall t | t in s'.fetches && s'.fetches[t].count.Some?
        ensures CountedIn(es, s'.fetches[t].chat, s'.fetches[t].count.value)
      {
        CountFrom(s, e, t);
        if CountedAt(s, s'.fetches[t].chat, s'.fetches[t].count.value) {
          CountedNow(before, e, s'.fetches[t].chat, s'.fetches[t].count.value);
        } else {
          CountedEarlier(before, e, s'.fetches[t].chat, s'.fetches[t].count.value);
        }
      }
      forall m | m in s'.messages && s'.messages[m].delivered.Some?
        ensures m in s'.marks && CountedIn(es, s'.messages[m].chat, s'.marks[m])
      {
        MarkFrom(s, e, m);
        CountedEarlier(before, e, s'.messages[m].chat, s'.marks[m]);
      }
    }
  }

  lemma EmptyIsOk()
    ensures Inv(EMPTY)
  {
  }

  /** More than `grace` ago someone other than the sender was handed the
      message by a fetch, and at that moment the chat had exactly two
      participants; if they were sender and fetcher, nobody else. */
  ghost predicate DeliveredLongAgo(es: seq<Event>, m: MessageId, grace: int)
    requires m in Run(EMPTY, es).messages
  {
    var s := Run(EMPTY, es);
    m in s.marks
    && var c, x := s.marks[m], s.messages[m];
       && c.at < s.now - grace && c.fetcher != x.sender && (m, c.fetcher) in s.handed
       && CountedIn(es, x.chat, c) && |c.users| == 2
       && (x.sender in c.users && c.fetcher in c.users ==> forall u <- c.users :: u == x.sender || u == c.fetcher)
  }

  /** Everyone else now in the chat marked it read, save whose row is stamped
      no later than the message and was committed no earlier: a strictly
      increasing clock and rows committed when they are stamped rule that out. */
  predicate EveryoneElseHasRead(s: Store, m: MessageId)
    requires m in s.messages
  {
    forall p <- s.members :: p.chat == s.messages[m].chat && p.user != s.messages[m].sender
      ==> (m, p.user) in s.readBy || p.joined <= s.messages[m].created <= p.since
  }

  /** A purge takes a message younger than the retention limit only if it was
      delivered in a chat of two more than the grace period ago, or everyone
      else now in the chat has marked it read but for joins committed after the
      message under an earlier stamp. */
  lemma {:induction false} YoungMessageIsSafe(es: seq<Event>, retention: int, grace: int, m: MessageId)
    requires m in Taken(Run(EMPTY, es), retention, grace)
    requires var s := Run(EMPTY, es);
      s.messages[m].created >= s.now - retention && m !in s.sending
    ensures DeliveredLongAgo(es, m, grace) || EveryoneElseHasRead(Run(EMPTY, es), m)
  {
    hide Run, CountedIn;
    EmptyIsOk();
    RunKeeps(EMPTY, es);
    CountsKeep(es);
    var s := Run(EMPTY, es);
    if ReadByAll(m, s.messages[m], s.statuses, s.members) {
      ReadIsSafe(s, m);
    } else {
      assert MarkOk(s, m);
    }
  }

  lemma ReadIsSafe(s: Store, m: MessageId)
    requires Inv(s) && m in s.messages && m !in s.sending && ReadByAll(m, s.messages[m], s.statuses, s.members)
    ensures EveryoneElseHasRead(s, m)
  {
    forall p | p in s.members && p.chat == s.messages[m].chat && p.user != s.messages[m].sender
      && p.since < s.messages[m].created
      ensures (m, p.user) in s.readBy
    {
      assert HasStatus(s.statuses, m, p.user);
      var x :| x in s.statuses && x.msg == m && x.user == p.user;
      assert x.read;
    }
  }

  /** No user has two status rows for the message. */
  predicate OneStatusEach(s: Store, m: MessageId) {
    forall i, j | 0 <= i < j < |s.statuses| ::
      s.statuses[i].msg == m && s.statuses[j].msg == m ==> s.statuses[i].user != s.statuses[j].user
  }

  /** When the third rule takes a message that is not deleted: it has status
      rows, each of their users marked it read, nobody in the chat joined after
      it, and it is not view-once. */
  lemma {:induction false} ReadRuleExactly(es: seq<Event>, m: MessageId)
    requires var s := Run(EMPTY, es); m in s.messages && !s.messages[m].deleted && OneStatusEach(s, m)
    ensures var s := Run(EMPTY, es);
      ReadByAll(m, s.messages[m], s.statuses, s.members) <==>
        && (exists u :: HasStatus(s.statuses, m, u))
        && (forall u | HasStatus(s.statuses, m, u) :: (m, u) in s.readBy)
        && (forall p <- s.members :: p.chat == s.messages[m].chat ==> p.joined <= s.messages[m].created)
        && !s.messages[m].viewOnce
  {
    RunKeeps(EMPTY, es);
    ReadRule(Run(EMPTY, es), m);
  }

  lemma ReadRule(s: Store, m: MessageId)
    requires Inv(s) && m in s.messages && !s.messages[m].deleted && OneStatusEach(s, m)
    ensures (exists x <- s.statuses :: x.msg == m) <==> (exists u :: HasStatus(s.statuses, m, u))
    ensures (forall x <- s.statuses :: x.msg == m ==> x.read)
       <==> (forall u | HasStatus(s.statuses, m, u) :: (m, u) in s.readBy)
    ensures !s.messages[m].viewed
  {
    if x :| x in s.statuses && x.msg == m {
      assert HasStatus(s.statuses, m, x.user);
    }
    if forall u | HasStatus(s.statuses, m, u) :: (m, u) in s.readBy {
      forall x | x in s.statuses && x.msg == m ensures x.read {
        assert HasStatus(s.statuses, m, x.user);
        var y := Status(m, x.user, true);
        assert y in s.statuses;
        var i :| 0 <= i < |s.statuses| && s.statuses[i] == x;
        var j :| 0 <= j < |s.statuses| && s.statuses[j] == y;
        assert i == j;
      }
    }
  }

  /** A view-once message that nobody opened is still taken when it was
      delivered or is old; opening one deletes it softly, so the third rule
      never takes any. */
  lemma {:induction false} ViewOnceExactly(es: seq<Event>, retention: int, grace: int, m: MessageId)
    requires var s := Run(EMPTY, es);
      m in s.messages && s.messages[m].viewOnce && s.messages[m].scheduled.None? && !s.messages[m].deleted
    ensures var s := Run(EMPTY, es); var x := s.messages[m];
      m in Taken(s, retention, grace) <==> DeliveredBefore(x, s.now - grace) || x.created < s.now - retention
  {
    RunKeeps(EMPTY, es);
  }

  /** A soft-deleted row is never purged, however old. */
  lemma {:induction false} DeletedRowsStay(s: Store, es: seq<Event>, m: MessageId)
    requires RowsOk(s) && m in s.messages && s.messages[m].deleted
    ensures m in Run(s, es).messages && Run(s, es).messages[m].deleted && RowsOk(Run(s, es))
  {
    hide RowsOk, Next;
    if es != [] {
      DeletedRowsStay(s, es[..|es| - 1], m);
      RowsKeep(Run(s, es[..|es| - 1]), es[|es| - 1]);
      DeletedRowStays(Run(s, es[..|es| - 1]), es[|es| - 1], m);
    }
  }

  lemma DeletedRowStays(s: Store, e: Event, m: MessageId)
    requires RowsOk(s) && m in s.messages && s.messages[m].deleted
    ensures m in Next(s, e).messages && Next(s, e).messages[m].deleted
  {
    hide MarkFirst, MarkAll, Without, Left, Unread, UsersOf, Visible, Joined, ReadByAll;
  }

  /** A purged row never comes back. */
  lemma {:induction false} PurgedRowsStayGone(s: Store, es: seq<Event>, m: MessageId)
    requires m in s.used && m !in s.messages
    ensures m in Run(s, es).used && m !in Run(s, es).messages
  {
    hide Next;
    if es != [] {
      PurgedRowsStayGone(s, es[..|es| - 1], m);
      PurgedRowStaysGone(Run(s, es[..|es| - 1]), es[|es| - 1], m);
    }
  }

  lemma PurgedRowStaysGone(s: Store, e: Event, m: MessageId)
    requires m in s.used && m !in s.messages
    ensures m in Next(s, e).used && m !in Next(s, e).messages
  {
    hide MarkFirst, MarkAll, Without, UsersOf, Left, Unread, Visible, Undelivered, Targets, Joined;
  }

  lemma RunSnoc(s: Store, es: seq<Event>)
    requires es != []
    ensures Run(s, es) == Next(Run(s, es[..|es| - 1]), es[|es| - 1])
  {
    hide Next;
  }

  // ---- Where the conditions are needed ----

  /** Between the two commits of a send the first reader is enough: nobody
      else has a status row yet, so the row can be purged at once. */
  lemma HalfSentIsTaken(s: Store, m: MessageId, a: User, retention: int, grace: int)
    requires m in s.sending && m in s.messages && Joined(s.members, s.messages[m].chat, a)
    requires var x := s.messages[m]; x.scheduled.None? && !x.deleted && !x.viewOnce
    requires forall p <- s.members :: p.chat == s.messages[m].chat ==> p.joined <= s.messages[m].created
    requires forall x <- s.statuses :: x.msg != m
    ensures var s' := Next(s, ReadOne(m, a));
      m in Taken(s', retention, grace) && forall b | b != a :: (m, b) in s'.readBy <==> (m, b) in s.readBy
  {
    var s' := Next(s, ReadOne(m, a));
    MarkFirstRows(s.statuses, m, a);
    assert ReadByAll(m, s'.messages[m], s'.statuses, s'.members);
  }

  /** What a fetch does to the messages once it has read `ids`. */
  function CountAndMark(
      messages: map<MessageId, Message>, members: seq<Member>, chat: ChatId, ids: set<MessageId>, at: int)
    : map<MessageId, Message>
  {
    if |UsersOf(members, chat)| == 2 then Marked(messages, ids, at) else messages
  }

  /** The three steps of a fetch with nothing in between. */
  function Fetched(s: Store, t: nat, chat: ChatId, user: User, page: set<MessageId>): Store {
    Next(Next(Next(s, FetchRead(t, chat, user, page)), FetchCount(t)), FetchMark(t))
  }

  /** Then they do what the two halves of `get_chat_messages` do. */
  lemma FetchInOneGo(s: Store, t: nat, chat: ChatId, user: User, page: set<MessageId>)
    requires t !in s.fetches && Joined(s.members, chat, user)
    ensures var s' := Fetched(s, t, chat, user, page); var seen := Visible(s.messages, s.now, chat, page);
      && s'.messages == CountAndMark(s.messages, s.members, chat, Undelivered(s.messages, seen, user), s.now)
      && s'.handed == s.handed + (set m | m in seen :: (m, user)) && s'.readBy == s.readBy
      && s'.fetches == s.fetches && s'.members == s.members && s'.statuses == s.statuses && s'.now == s.now
  {
    hide Visible, Undelivered, UsersOf, Joined;
    var s1 := Next(s, FetchRead(t, chat, user, page));
    assert s1.fetches - {t} == s.fetches;
  }

  /** Once the sender has left a chat of three, a fetch by one of the other two
      counts two rows, and after the grace period the row is purged although
      the third was neither handed it nor marked it read. */
  lemma SenderLeftIsTaken(s: Store, t: nat, m: MessageId, a: User, b: User, retention: int, grace: nat)
    requires m in s.messages && UsersOf(s.members, s.messages[m].chat) == [a, b] && a != b && t !in s.fetches
    requires var x := s.messages[m];
      x.sender != a && x.delivered.None? && x.scheduled.None? && !x.deleted && x.expires.None?
    ensures var s' := Next(Fetched(s, t, s.messages[m].chat, a, {m}), Pass(grace + 1));
      && m in Taken(s', retention, grace)
      && ((m, b) in s'.readBy <==> (m, b) in s.readBy) && ((m, b) in s'.handed <==> (m, b) in s.handed)
  {
    var chat := s.messages[m].chat;
    assert a in UsersOf(s.members, chat);
    FetchInOneGo(s, t, chat, a, {m});
    FetchOne(s, m, a);
    hide Fetched, Taken, Targets, Visible, Undelivered;
    TakenWhenDelivered(Next(Fetched(s, t, chat, a, {m}), Pass(grace + 1)), m, retention, grace);
  }

  lemma FetchOne(s: Store, m: MessageId, a: User)
    requires m in s.messages
    requires var x := s.messages[m]; x.sender != a && x.delivered.None? && !x.deleted && x.expires.None?
    ensures var seen := Visible(s.messages, s.now, s.messages[m].chat, {m});
      seen == {m} && Undelivered(s.messages, seen, a) == {m}
  {
    var seen := Visible(s.messages, s.now, s.messages[m].chat, {m});
    assert seen == {m};
  }

  lemma TakenWhenDelivered(s: Store, m: MessageId, retention: int, grace: int)
    requires m in s.messages && s.messages[m].scheduled.None? && !s.messages[m].deleted
    requires DeliveredBefore(s.messages[m], s.now - grace)
    ensures m in Taken(s, retention, grace)
  {
  }

  // ---- The tables ----

  predicate FirstStatus(ss: seq<Status>, m: MessageId, u: User, i: nat)
    requires i < |ss|
  {
    ss[i].msg == m && ss[i].user == u && forall j | 0 <= j < i :: !(ss[j].msg == m && ss[j].user == u)
  }

  lemma {:induction false} MarkFirstAt(ss: seq<Status>, m: MessageId, u: User, i: nat)
    requires i < |ss| && FirstStatus(ss, m, u, i)
    ensures MarkFirst(ss, m, u) == ss[i := Status(m, u, true)]
  {
    if i > 0 {
      var rest := ss[1..];
      assert FirstStatus(rest, m, u, i - 1);
      MarkFirstAt(rest, m, u, i - 1);
      assert ss == [ss[0]] + rest;
    }
  }

  lemma {:induction false} MarkFirstAdds(ss: seq<Status>, m: MessageId, u: User)
    requires !HasStatus(ss, m, u)
    ensures MarkFirst(ss, m, u) == ss + [Status(m, u, true)]
  {
    if ss != [] {
      assert ss == [ss[0]] + ss[1..] && ss[0] in ss;
      MarkFirstAdds(ss[1..], m, u);
    }
  }

  lemma {:induction false} FirstStatusExists(ss: seq<Status>, m: MessageId, u: User, i: nat)
    requires i < |ss| && ss[i].msg == m && ss[i].user == u
    ensures exists k | 0 <= k < |ss| :: FirstStatus(ss, m, u, k)
  {
    if j :| 0 <= j < i && ss[j].msg == m && ss[j].user == u {
      FirstStatusExists(ss, m, u, j);
    } else {
      assert FirstStatus(ss, m, u, i);
    }
  }

  predicate FirstMember(members: seq<Member>, chat: ChatId, user: User, i: nat)
    requires i < |members|
  {
    && members[i].chat == chat && members[i].user == user
    && forall j | 0 <= j < i :: !(members[j].chat == chat && members[j].user == user)
  }

  lemma {:induction false} LeftAt(members: seq<Member>, chat: ChatId, user: User, i: nat)
    requires i < |members| && FirstMember(members, chat, user, i)
    ensures Left(members, chat, user) == members[..i] + members[i + 1..]
  {
    if i > 0 {
      var rest := members[1..];
      assert FirstMember(rest, chat, user, i - 1);
      LeftAt(rest, chat, user, i - 1);
      assert members[..i] == [members[0]] + rest[..i - 1] && members[i + 1..] == rest[i..];
    }
  }

  lemma {:induction false} FirstMemberExists(members: seq<Member>, chat: ChatId, user: User, i: nat)
    requires i < |members| && members[i].chat == chat && members[i].user == user
    ensures exists k | 0 <= k < |members| :: FirstMember(members, chat, user, k)
  {
    if j :| 0 <= j < i && members[j].chat == chat && members[j].user == user {
      FirstMemberExists(members, chat, user, j);
    } else {
      assert FirstMember(members, chat, user, i);
    }
  }

  /** Where among the first n rows the user has unread ones in the chat. */
  function UnreadAt(ss: seq<Status>, messages: map<MessageId, Message>, chat: ChatId, u: User, n: nat): set<nat>
    requires n <= |ss|
  {
    set i: nat | i < n && OfChat(ss[i], messages, chat, u) && !ss[i].read
  }

  lemma UnreadNext(ss: seq<Status>, messages: map<MessageId, Message>, chat: ChatId, u: User, i: nat)
    requires i < |ss|
    ensures |UnreadAt(ss, messages, chat, u, i + 1)|
         == |UnreadAt(ss, messages, chat, u, i)| + if OfChat(ss[i], messages, chat, u) && !ss[i].read then 1 else 0
  {
    hide OfChat;
    var before, after := UnreadAt(ss, messages, chat, u, i), UnreadAt(ss, messages, chat, u, i + 1);
    if OfChat(ss[i], messages, chat, u) && !ss[i].read {
      assert i !in before && after == before + {i};
    } else {
      assert after == before;
    }
  }

  lemma UnreadOneMore(m: MessageId, users: seq<User>, sender: User, i: nat)
    requires i < |users|
    ensures Unread(m, users[..i + 1], sender)
         == Unread(m, users[..i], sender) + if users[i] == sender then [] else [Status(m, users[i], false)]
  {
    assert users[..i + 1][..i] == users[..i];
  }

  class RelayStore {
    var messages: map<MessageId, Message>
    var statuses: seq<Status>
    var members: seq<Member>

    constructor ()
      ensures messages == map[] && statuses == [] && members == []
    {
      messages, statuses, members := map[], [], [];
    }

    /** The second commit of `send_message`. */
    method Address(id: MessageId)
      requires id in messages
      modifies this`statuses
      ensures statuses == old(statuses) + Unread(id, UsersOf(members, messages[id].chat), messages[id].sender)
    {
      hide UsersOf;
      var x := messages[id];
      var users := UsersOf(members, x.chat);
      assert Unread(id, users[..0], x.sender) == [];
      hide Unread;
      var i := 0;
      while i < |users|
        invariant 0 <= i <= |users|
        invariant statuses == old(statuses) + Unread(id, users[..i], x.sender)
      {
        UnreadOneMore(id, users, x.sender, i);
        if users[i] != x.sender {
          statuses := statuses + [Status(id, users[i], false)];
        }
        i := i + 1;
      }
      assert users[..i] == users;
    }

    /** `mark_message_as_read`; false is the refusal of an unknown message or a stranger. */
    method MarkMessageAsRead(id: MessageId, user: User) returns (ok: bool)
      modifies this`statuses
      ensures ok == (id in messages && Joined(members, messages[id].chat, user))
      ensures ok && HasStatus(old(statuses), id, user) ==> exists i | 0 <= i < |old(statuses)| ::
        FirstStatus(old(statuses), id, user, i) && statuses == old(statuses)[i := Status(id, user, true)]
      ensures ok && !HasStatus(old(statuses), id, user) ==> statuses == old(statuses) + [Status(id, user, true)]
      ensures !ok ==> statuses == old(statuses)
    {
      ok := id in messages && Joined(members, messages[id].chat, user);
      if ok {
        if HasStatus(statuses, id, user) {
          ghost var x :| x in statuses && x.msg == id && x.user == user;
          ghost var i :| 0 <= i < |statuses| && statuses[i] == x;
          FirstStatusExists(statuses, id, user, i);
          ghost var k: nat :| k < |statuses| && FirstStatus(statuses, id, user, k);
          MarkFirstAt(statuses, id, user, k);
        } else {
          MarkFirstAdds(statuses, id, user);
        }
        statuses := MarkFirst(statuses, id, user);
      }
    }

    /** `mark_chat_as_read`: how many rows it set; None is the refusal of a stranger. */
    method MarkChatAsRead(chat: ChatId, user: User) returns (count: Option<nat>)
      modifies this`statuses
      ensures count.Some? <==> Joined(members, chat, user)
      ensures statuses == if count.Some? then MarkAll(old(statuses), messages, chat, user) else old(statuses)
      ensures |statuses| == |old(statuses)|
      ensures forall i | 0 <= i < |statuses| :: var x := old(statuses)[i];
        statuses[i] == if count.Some? && x.user == user && x.msg in messages && messages[x.msg].chat == chat
                       then Status(x.msg, user, true) else x
      ensures count.Some? ==> count.value == |set i: nat | i < |statuses| && statuses[i] != old(statuses)[i]|
    {
      if !Joined(members, chat, user) { return None; }
      var n, i := 0, 0;
      while i < |statuses|
        invariant 0 <= i <= |statuses| == |old(statuses)|
        invariant n == |UnreadAt(old(statuses), messages, chat, user, i)|
        invariant forall j | 0 <= j < |statuses| ::
          statuses[j] ==
            if j < i && OfChat(old(statuses)[j], messages, chat, user)
            then old(statuses)[j].(read := true) else old(statuses)[j]
      {
        UnreadNext(old(statuses), messages, chat, user, i);
        if OfChat(statuses[i], messages, chat, user) && !statuses[i].read {
          statuses := statuses[i := statuses[i].(read := true)];
          n := n + 1;
        }
        i := i + 1;
      }
      assert UnreadAt(old(statuses), messages, chat, user, i)
          == set j: nat | j < |statuses| && statuses[j] != old(statuses)[j];
      return Some(n);
    }

    /** The first query of `get_chat_messages`: what it returns of the page,
        and of that what is still to be marked; None for a stranger. */
    method ReadPage(chat: ChatId, user: User, page: set<MessageId>, now: int)
      returns (r: Option<(set<MessageId>, set<MessageId>)>)
      ensures r.Some? <==> Joined(members, chat, user)
      ensures r.Some? ==> r.value == (Visible(messages, now, chat, page), Undelivered(messages, r.value.0, user))
      ensures r.Some? ==> forall m :: m in r.value.0 <==>
        && m in page && m in messages && messages[m].chat == chat && !messages[m].deleted
        && (messages[m].expires.Some? ==> messages[m].expires.value > now)
      ensures r.Some? ==> forall m :: m in r.value.1 <==>
        m in r.value.0 && messages[m].sender != user && messages[m].delivered.None?
    {
      if !Joined(members, chat, user) { return None; }
      var seen := Visible(messages, now, chat, page);
      return Some((seen, Undelivered(messages, seen, user)));
    }

    /** Its second half, with the ids it read before and the time it read before it counts. */
    method MarkDelivered(chat: ChatId, ids: set<MessageId>, at: int)
      modifies this`messages
      ensures messages == CountAndMark(old(messages), members, chat, ids, at)
    {
      var count := |UsersOf(members, chat)|;
      if count == 2 && ids != {} {
        messages := map m | m in messages :: if m in ids then messages[m].(delivered := Some(at)) else messages[m];
      }
    }

    /** `_deaf_relay_purge`: what is left is unchanged, and nothing older than
        the limit is left but deleted and scheduled messages. */
    method DeafRelayPurge(now: int, retention: int, grace: int) returns (deleted: nat)
      modifies this`messages, this`statuses
      ensures messages == old(messages) - Targets(old(messages), old(statuses), members, now, retention, grace)
      ensures deleted == |Targets(old(messages), old(statuses), members, now, retention, grace)|
      ensures statuses == Without(old(statuses), Targets(old(messages), old(statuses), members, now, retention, grace))
      ensures forall m | m in messages ::
        messages[m].deleted || messages[m].scheduled.Some? || messages[m].created >= now - retention
    {
      var gone := Targets(messages, statuses, members, now, retention, grace);
      messages, statuses := messages - gone, Without(statuses, gone);
      return |gone|;
    }

    /** `delete_chat` and `leave_group`: the first row of the user in the chat goes. */
    method Leave(chat: ChatId, user: User) returns (ok: bool)
      modifies this`members
      ensures ok == Joined(old(members), chat, user)
      ensures ok ==> exists i | 0 <= i < |old(members)| ::
        FirstMember(old(members), chat, user, i) && members == old(members)[..i] + old(members)[i + 1..]
      ensures !ok ==> members == old(members)
    {
      ok := Joined(members, chat, user);
      if ok {
        ghost var m :| m in members && m.chat == chat && m.user == user;
        ghost var i :| 0 <= i < |members| && members[i] == m;
        FirstMemberExists(members, chat, user, i);
        ghost var k: nat :| k < |members| && FirstMember(members, chat, user, k);
        LeftAt(members, chat, user, k);
        members := Left(members, chat, user);
      }
    }
  }
}
