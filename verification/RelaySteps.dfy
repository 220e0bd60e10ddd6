/** What single steps of the relay do to the fields of its rows, and which
    events a field of a row goes back to. */
module RelaySteps {
  import opened Text
  import opened Retention

  /** A participant row of the user in the chat. */
  predicate IsMember(s: Store, chat: ChatId, u: User) {
    exists i | 0 <= i < |s.members| :: s.members[i].chat == chat && s.members[i].user == u
  }

  lemma MemberIsJoined(s: Store, chat: ChatId, u: User)
    ensures IsMember(s, chat, u) <==> Joined(s.members, chat, u)
  {
    if IsMember(s, chat, u) {
      var i :| 0 <= i < |s.members| && s.members[i].chat == chat && s.members[i].user == u;
      assert s.members[i] in s.members;
    }
    if Joined(s.members, chat, u) {
      var m :| m in s.members && m.chat == chat && m.user == u;
      var i :| 0 <= i < |s.members| && s.members[i] == m;
    }
  }

  /** The rows of a chat among the first n. */
  function RowsOf(members: seq<Member>, chat: ChatId, n: nat): set<nat>
    requires n <= |members|
  {
    set i: nat | i < n && members[i].chat == chat
  }

  /** The count of a chat's users is that of its rows. */
  lemma {:induction false} UsersOfCounts(members: seq<Member>, chat: ChatId, n: nat)
    requires n <= |members|
    ensures |UsersOf(members[..n], chat)| == |RowsOf(members, chat, n)|
  {
    if n > 0 {
      UsersOfCounts(members, chat, n - 1);
      assert members[..n][..n - 1] == members[..n - 1];
      var before := RowsOf(members, chat, n - 1);
      assert n - 1 !in before;
      assert RowsOf(members, chat, n) == if members[n - 1].chat == chat then before + {n - 1} else before;
      hide RowsOf, Joined;
    }
  }

  /** Who has no row in a chat changes nothing by sending to it, reading it,
      fetching from it or opening a message of it. */
  lemma StrangersChangeNothing(s: Store, e: Event, chat: ChatId, u: User)
    requires !IsMember(s, chat, u)
    requires || (e.Send? && e.chat == chat && e.sender == u)
             || (e.ReadChat? && e.chat == chat && e.user == u)
             || (e.FetchRead? && e.chat == chat && e.user == u)
             || ((e.ReadOne? || e.View?) && e.user == u && (e.id in s.messages ==> s.messages[e.id].chat == chat))
    ensures Next(s, e) == s
  {
    MemberIsJoined(s, chat, u);
  }

  /** What becomes of the row of a message in any event: chat, sender, time,
      expiry and kind never change; it is deleted softly by its sender, by a
      member who opens it, or once it expires; it is viewed only by a member
      other than its sender; its schedule is lifted only when due; and its
      delivery time only comes from a fetch that read it. */
  lemma FieldsExactly(s: Store, e: Event, m: MessageId)
    requires m in s.used && m in s.messages && m in Next(s, e).messages
    ensures var x, x' := s.messages[m], Next(s, e).messages[m];
      var opens := e.View? && e.id == m && x.viewOnce && !x.viewed && e.user != x.sender && IsMember(s, x.chat, e.user);
      var marks := e.FetchMark? && e.t in s.fetches && s.fetches[e.t].count.Some? && m in s.fetches[e.t].ids;
      && x' == x.(scheduled := x'.scheduled, deleted := x'.deleted, viewed := x'.viewed, delivered := x'.delivered)
      && (x'.deleted <==> || x.deleted || opens || (e.Delete? && e.id == m && e.user == x.sender)
                          || (e.Expire? && x.expires.Some? && x.expires.value <= s.now))
      && (x'.viewed <==> x.viewed || opens)
      && x'.scheduled == (if e.Release? && !x.deleted && x.scheduled.Some? && x.scheduled.value <= s.now then None
                          else x.scheduled)
      && x'.delivered == (if marks then Some(s.fetches[e.t].count.value.at) else x.delivered)
  {
    hide MarkFirst, MarkAll, Without, Left, Unread, UsersOf, Visible, Undelivered, Targets, Joined;
    if e.View? && e.id in s.messages { MemberIsJoined(s, s.messages[e.id].chat, e.user); }
    hide IsMember;
  }

  /** A row comes by a send of a member under a new id, neither deleted nor
      viewed nor delivered, and goes by a purge alone. */
  lemma RowsComeAndGo(s: Store, e: Event, m: MessageId)
    ensures m in Next(s, e).messages && m !in s.messages ==>
      && e.Send? && e.id == m && m !in s.used && IsMember(s, e.chat, e.sender) && e.stamp <= s.now
      && Next(s, e).messages[m]
         == Message(e.chat, e.sender, e.stamp, e.scheduled, e.expires, e.viewOnce, false, false, None)
    ensures m in s.messages && m !in Next(s, e).messages ==>
      e.RunPurge? && s.messages[m].scheduled.None? && !s.messages[m].deleted
  {
    hide MarkFirst, MarkAll, Without, Left, Unread, UsersOf, Visible, ReadByAll, Joined;
    if e.Send? { MemberIsJoined(s, e.chat, e.sender); }
    hide IsMember;
  }

  lemma UsedStays(s: Store, e: Event)
    ensures s.used <= Next(s, e).used
  {
    hide MarkFirst, MarkAll, Without, Targets, Left, Unread, UsersOf, Visible, Undelivered, Joined;
  }

  /** A scheduled message is not purged, however old, until it has been released. */
  lemma {:induction false} ScheduledRowsStay(s: Store, es: seq<Event>, m: MessageId)
    requires m in s.used && m in s.messages && s.messages[m].scheduled.Some?
    requires forall k | 0 <= k <= |es| :: Run(s, es[..k]).now < s.messages[m].scheduled.value
    ensures m in Run(s, es).used && m in Run(s, es).messages
    ensures Run(s, es).messages[m].scheduled == s.messages[m].scheduled
  {
    hide Next;
    if es != [] {
      var n := |es| - 1;
      assert forall k | 0 <= k <= n :: es[..n][..k] == es[..k];
      ScheduledRowsStay(s, es[..n], m);
      RowsComeAndGo(Run(s, es[..n]), es[n], m);
      FieldsExactly(Run(s, es[..n]), es[n], m);
      UsedStays(Run(s, es[..n]), es[n]);
      assert es[..n] == es[..|es| - 1] && Run(s, es[..n]).now < s.messages[m].scheduled.value;
    }
  }

  /** Who is in a chat: a join adds a row with a stamp that has come, leaving
      takes the first row of the user, and nothing else changes any. */
  lemma MembersExactly(s: Store, e: Event)
    ensures var members := Next(s, e).members;
      match e
      case Join(chat, u, stamp) =>
        members == if stamp <= s.now then s.members + [Member(chat, u, stamp, s.now)] else s.members
      case Leave(chat, u) =>
        if IsMember(s, chat, u)
        then exists i | 0 <= i < |s.members| ::
               && s.members[i].chat == chat && s.members[i].user == u && members == s.members[..i] + s.members[i + 1..]
               && forall j | 0 <= j < i :: s.members[j].chat != chat || s.members[j].user != u
        else members == s.members
      case _ => members == s.members
  {
    hide MarkFirst, MarkAll, Without, Unread, UsersOf, Visible, Undelivered, Targets, Joined;
    if e.Leave? {
      if IsMember(s, e.chat, e.user) {
        var i :| 0 <= i < |s.members| && s.members[i].chat == e.chat && s.members[i].user == e.user;
        FirstMemberExists(s.members, e.chat, e.user, i);
        var k: nat :| k < |s.members| && FirstMember(s.members, e.chat, e.user, k);
        LeftAt(s.members, e.chat, e.user, k);
      } else {
        NobodyLeaves(s.members, e.chat, e.user);
      }
    }
  }

  lemma {:induction false} NobodyLeaves(members: seq<Member>, chat: ChatId, u: User)
    requires forall i | 0 <= i < |members| :: members[i].chat != chat || members[i].user != u
    ensures Left(members, chat, u) == members
  {
    if members != [] { NobodyLeaves(members[1..], chat, u); }
  }

  /** The status rows an event leaves: addressing adds an unread one for each
      other member, reading sets or adds read ones, and a purge takes those of
      the messages it takes. */
  lemma StatusesExactly(s: Store, e: Event, x: Status)
    requires e.Address? || e.RunPurge? || e.ReadChat? || e.Join? || e.Leave? || e.FetchMark?
    ensures x in Next(s, e).statuses <==>
      match e
      case Address(id) =>
        || x in s.statuses
        || (id in s.sending && id in s.messages && x == Status(id, x.user, false)
            && x.user != s.messages[id].sender && IsMember(s, s.messages[id].chat, x.user))
      case RunPurge(_, _) => x in s.statuses && (x.msg in s.messages ==> x.msg in Next(s, e).messages)
      case ReadChat(chat, u) =>
        if IsMember(s, chat, u) && x.user == u && x.msg in s.messages && s.messages[x.msg].chat == chat
        then x.read && exists y <- s.statuses :: y.msg == x.msg && y.user == u
        else x in s.statuses
      case _ => x in s.statuses
  {
    match e
    case Address(id) => if id in s.messages { MemberIsJoined(s, s.messages[id].chat, x.user); }
    case ReadChat(chat, u) =>
      MemberIsJoined(s, chat, u);
      if IsMember(s, chat, u) { MarkAllExactly(s, chat, u, x); }
    case _ =>
  }

  lemma MarkAllExactly(s: Store, chat: ChatId, u: User, x: Status)
    ensures x in MarkAll(s.statuses, s.messages, chat, u) <==>
      if x.user == u && x.msg in s.messages && s.messages[x.msg].chat == chat
      then x.read && exists y <- s.statuses :: y.msg == x.msg && y.user == u
      else x in s.statuses
  {
    var marked := MarkAll(s.statuses, s.messages, chat, u);
    if y :| y in s.statuses && y.msg == x.msg && y.user == u {
      var i :| 0 <= i < |s.statuses| && s.statuses[i] == y;
      assert marked[i] in marked;
    }
    if x in s.statuses {
      var i :| 0 <= i < |s.statuses| && s.statuses[i] == x;
      assert marked[i] in marked;
    }
    if x in marked {
      var i :| 0 <= i < |marked| && marked[i] == x;
      assert s.statuses[i] in s.statuses;
    }
  }

  /** A send is over once its message is addressed, or found purged before. */
  lemma SendingExactly(s: Store, e: Event, m: MessageId)
    ensures m in Next(s, e).sending <==>
      || (m in s.sending && e != Address(m))
      || (e.Send? && e.id == m && m !in s.used && IsMember(s, e.chat, e.sender) && e.stamp <= s.now)
  {
    hide MarkFirst, MarkAll, Without, Left, Unread, UsersOf, Visible, Undelivered, Targets, Joined;
    if e.Send? { MemberIsJoined(s, e.chat, e.sender); }
    hide IsMember;
  }

  /** What a fetch is still to mark: of what it hands out, others' messages without a delivery time. */
  lemma FetchMarksLater(s: Store, t: nat, chat: ChatId, u: User, page: set<MessageId>, m: MessageId)
    requires t !in s.fetches && IsMember(s, chat, u)
    ensures var f := Next(s, FetchRead(t, chat, u, page)).fetches;
      && t in f && f[t].user == u && f[t].chat == chat && f[t].count == None
      && (m in f[t].ids <==>
            && m in page && m in s.messages && s.messages[m].chat == chat && !s.messages[m].deleted
            && (s.messages[m].expires.Some? ==> s.messages[m].expires.value > s.now)
            && s.messages[m].sender != u && s.messages[m].delivered == None)
  {
    MemberIsJoined(s, chat, u);
    hide Joined, IsMember;
  }

  /** What a fetch hands out is exactly what of the asked page is in the chat,
      neither deleted nor expired, to a member. */
  lemma FetchHandsOut(s: Store, t: nat, chat: ChatId, u: User, page: set<MessageId>, m: MessageId, v: User)
    requires t !in s.fetches
    ensures (m, v) in Next(s, FetchRead(t, chat, u, page)).handed
       <==> || (m, v) in s.handed
            || (&& v == u && IsMember(s, chat, u) && m in page && m in s.messages && s.messages[m].chat == chat
                && !s.messages[m].deleted && (s.messages[m].expires.Some? ==> s.messages[m].expires.value > s.now))
  {
    MemberIsJoined(s, chat, u);
    hide Joined, IsMember;
  }

  /** Nothing else hands anything out. */
  lemma OnlyFetchesHandOut(s: Store, e: Event)
    requires !e.FetchRead?
    ensures Next(s, e).handed == s.handed
  {
    hide MarkFirst, MarkAll, Without, Left, Unread, UsersOf, Visible, Undelivered, ReadByAll, Joined;
  }

  /** Who is counted as having read what, event by event. */
  lemma ReadersExactly(s: Store, e: Event, m: MessageId, u: User)
    ensures (m, u) in Next(s, e).readBy
       <==> || (m, u) in s.readBy
            || (m in s.messages && IsMember(s, s.messages[m].chat, u)
                && (e == ReadOne(m, u)
                    || (e == ReadChat(s.messages[m].chat, u) && exists x <- s.statuses :: x.msg == m && x.user == u)))
  {
    if m in s.messages { MemberIsJoined(s, s.messages[m].chat, u); }
    if e.ReadChat? { MemberIsJoined(s, e.chat, e.user); }
    hide MarkFirst, MarkAll, Without, Left, Unread, UsersOf, Visible, Undelivered, ReadByAll, Joined, IsMember, Targets;
  }

  /** The event by which the user marked the message, alone or with its chat. */
  predicate Marks(e: Event, m: MessageId, chat: ChatId, u: User) {
    e == ReadOne(m, u) || e == ReadChat(chat, u)
  }

  lemma {:induction false} ReadersMarked(es: seq<Event>, m: MessageId, u: User)
    requires (m, u) in Run(EMPTY, es).readBy && m in Run(EMPTY, es).messages
    ensures exists k | 0 <= k < |es| :: Marks(es[k], m, Run(EMPTY, es).messages[m].chat, u)
  {
    var n := |es| - 1;
    var s, s' := Run(EMPTY, es[..n]), Run(EMPTY, es);
    RunKeeps(EMPTY, es[..n]) by { EmptyIsOk(); }
    RunSnoc(EMPTY, es);
    hide Run, Next;
    ReadersExactly(s, es[n], m, u);
    if (m, u) in s.readBy {
      ReadIsUsed(s, m, u);
      RowsComeAndGo(s, es[n], m);
      FieldsExactly(s, es[n], m);
      ReadersMarked(es[..n], m, u);
      var k :| 0 <= k < n && Marks(es[..n][k], m, s.messages[m].chat, u);
      assert es[k] == es[..n][k];
    } else {
      FieldsExactly(s, es[n], m);
    }
  }

  lemma ReadIsUsed(s: Store, m: MessageId, u: User)
    requires Inv(s) && (m, u) in s.readBy
    ensures m in s.used
  {
  }

  /** In every run, a status row of a message still there is read only if an
      event of the run marked that message, or its own chat, for that user. */
  lemma {:induction false} ReadOnlyByMarking(es: seq<Event>, x: Status)
    requires x in Run(EMPTY, es).statuses && x.read && x.msg in Run(EMPTY, es).messages
    ensures exists k | 0 <= k < |es| :: Marks(es[k], x.msg, Run(EMPTY, es).messages[x.msg].chat, x.user)
  {
    EmptyIsOk();
    RunKeeps(EMPTY, es);
    ReadHasReader(Run(EMPTY, es), x);
    ReadersMarked(es, x.msg, x.user);
  }

  lemma ReadHasReader(s: Store, x: Status)
    requires Inv(s) && x in s.statuses && x.read
    ensures (x.msg, x.user) in s.readBy
  {
  }
}
