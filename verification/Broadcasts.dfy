/** Broadcasts followed step by step. One that nothing interrupts does what the
    loop of `broadcast_local` computes in one go, so a frame reaches everyone it
    is for, here and across the bus; and in one during which a user leaves the
    chat and rejoins, that user is served twice. */
module Broadcasts {
  import opened Text
  import opened Fanout

  // ---- A broadcast that nothing interrupts ----

  function Visits(i: nat, id: FrameId, order: seq<User>, dead: set<User>): seq<Event> {
    if order == [] then []
    else [Visit(i, id, order[0]), Complete(i, id, order[0] !in dead)] + Visits(i, id, order[1..], dead)
  }

  /** The broadcast is between two sends, and the iterator has exactly `order` left. */
  ghost predicate Between(w: Cluster, i: nat, id: FrameId, order: seq<User>) {
    && Underway(w, i, id) && id !in w.nodes[i].disturbed
    && var n := w.nodes[i]; var p := n.passes[id];
      && p.frame.id == id && p.sending.None? && !Resized(n.m, p)
      && Enumerates(order, p.left) && p.left <= Members(n.m, p.frame.chat)
      && (order != [] ==> p.size != 0)
  }

  /** What an uninterrupted broadcast makes of the world, by `Serve`. */
  function Whole(w: Cluster, i: nat, id: FrameId, order: seq<User>, dead: set<User>, bus: bool): Cluster
    requires Underway(w, i, id)
  {
    var n := w.nodes[i];
    var f := n.passes[id].frame;
    var (m', r) := Serve(n.m, f.chat, f.exclude, dead, order);
    var n' := n.(m := m', notices := n.notices + NoticesOf(n.m, r.lost), passes := n.passes - {id});
    var w' := w.(nodes := w.nodes[i := n'], receipts := w.receipts + ReceiptsOf(n.m.active, r.users, f.id));
    if !r.raised && f.origin == i && bus then Publish(w', f) else w'
  }

  lemma RunTwo(w: Cluster, a: Event, b: Event, es: seq<Event>)
    ensures Run(w, [a, b] + es) == Run(Next(Next(w, a), b), es)
  {
    hide Next;
    assert ([a, b] + es)[1..] == [b] + es && ([b] + es)[1..] == es;
  }

  /** Once it has ended, nothing more comes of it. */
  lemma {:induction false} OverStaysOver(w: Cluster, i: nat, id: FrameId, order: seq<User>, dead: set<User>, bus: bool)
    requires !Underway(w, i, id)
    ensures Run(w, Visits(i, id, order, dead) + [Finish(i, id, bus)]) == w
    decreases |order|
  {
    if order == [] {
      assert Visits(i, id, order, dead) + [Finish(i, id, bus)] == [Finish(i, id, bus)];
    } else {
      var rest := Visits(i, id, order[1..], dead) + [Finish(i, id, bus)];
      var a, b := Visit(i, id, order[0]), Complete(i, id, order[0] !in dead);
      assert Visits(i, id, order, dead) + [Finish(i, id, bus)] == [a, b] + rest;
      RunTwo(w, a, b, rest);
      OverStaysOver(w, i, id, order[1..], dead, bus);
    }
  }

  lemma DroppedGainsNothing(n: Node, u: User)
    ensures Moved(n, Dropped(n.m, u)) == n.(m := Dropped(n.m, u))
  {
  }

  lemma {:induction false} SameNotices(m: Manager, m': Manager, lost: seq<User>)
    requires m.lists == m'.lists
    ensures NoticesOf(m, lost) == NoticesOf(m', lost)
  {
    if lost != [] { SameNotices(m, m', lost[1..]); }
  }

  lemma NoticesCons(m: Manager, u: User, lost: seq<User>)
    ensures NoticesOf(m, [u] + lost) == NoticesOf(m, [u]) + NoticesOf(m, lost)
  {
    assert ([u] + lost)[1..] == lost && [u][1..] == [];
  }

  /** The first user is passed over, or the send to it succeeds. */
  lemma {:induction false} VisitedInPeace(w: Cluster, i: nat, id: FrameId, order: seq<User>, dead: set<User>)
    requires Between(w, i, id, order) && order != []
    requires var n := w.nodes[i]; var u := order[0];
      n.passes[id].frame.exclude == Some(u) || u !in n.m.active || u !in dead
    ensures var n := w.nodes[i]; var u := order[0]; var p := n.passes[id];
      var w' := Next(Next(w, Visit(i, id, u)), Complete(i, id, u !in dead));
      && Between(w', i, id, order[1..])
      && w' == WithPass(w, i, p.(left := p.left - {u})).(receipts := w'.receipts)
      && w'.receipts == w.receipts +
           if p.frame.exclude == Some(u) || u !in n.m.active then [] else [Receipt(n.m.active[u], id)]
  {
    hide Members, Distinct;
    LeftAfter(w, i, id, order);
    var n := w.nodes[i];
    var p, u := n.passes[id], order[0];
    var open := p.frame.exclude != Some(u) && u in n.m.active;
    var p1 := p.(left := p.left - {u}, sending := if open then Some((u, n.m.active[u])) else None);
    var p2 := p1.(sending := None);
    assert p2 == p.(left := p.left - {u});
    var n1, n2 := n.(passes := n.passes[id := p1]), n.(passes := n.passes[id := p2]);
    assert Next(w, Visit(i, id, u)) == w.(nodes := w.nodes[i := n1]);
    assert n1.passes[id := p2] == n2.passes && w.nodes[i := n1][i := n2] == w.nodes[i := n2];
    hide Resized;
  }

  lemma LeftAfter(w: Cluster, i: nat, id: FrameId, order: seq<User>)
    requires Between(w, i, id, order) && order != []
    ensures var p := w.nodes[i].passes[id];
      && order[0] in p.left && order[0] in Members(w.nodes[i].m, p.frame.chat)
      && Enumerates(order[1..], p.left - {order[0]})
  {
    DistinctTail(order);
    var p := w.nodes[i].passes[id];
    forall v | v in p.left - {order[0]} ensures v in order[1..] { }
  }

  /** The send to the first user fails. */
  lemma {:induction false} VisitedDead(w: Cluster, i: nat, id: FrameId, order: seq<User>, dead: set<User>)
    requires Between(w, i, id, order) && order != []
    requires var n := w.nodes[i]; var u := order[0];
      n.passes[id].frame.exclude != Some(u) && u in n.m.active && u in dead
    ensures var n := w.nodes[i]; var u := order[0]; var p := n.passes[id];
      var w' := Next(Next(w, Visit(i, id, u)), Complete(i, id, u !in dead));
      var p' := p.(left := p.left - {u});
      && Underway(w', i, id) && w'.nodes[i].passes[id] == p'
      && w' == w.(nodes := w.nodes[i := n.(m := Dropped(n.m, u), passes := n.passes[id := p'],
                                           notices := n.notices + NoticesOf(n.m, [u]))])
      && (if Resized(Dropped(n.m, u), p) then
            Resized(Dropped(n.m, u), p')
            && |Members(Dropped(n.m, u), p.frame.chat)| != |Members(n.m, p.frame.chat)|
          else |Members(Dropped(n.m, u), p.frame.chat)| == |Members(n.m, p.frame.chat)|
               && Between(w', i, id, order[1..]))
  {
    LeftAfter(w, i, id, order);
    var n := w.nodes[i];
    var p, u := n.passes[id], order[0];
    var p1 := p.(left := p.left - {u}, sending := Some((u, n.m.active[u])));
    var p2 := p1.(sending := None);
    assert p2 == p.(left := p.left - {u});
    var n1, n2 := n.(passes := n.passes[id := p1]), n.(passes := n.passes[id := p2]);
    assert Next(w, Visit(i, id, u)) == w.(nodes := w.nodes[i := n1]);
    assert n1.passes[id := p2] == n2.passes;
    DroppedGainsNothing(n2, u);
    var n3 := n2.(m := Dropped(n.m, u), notices := n.notices + NoticesOf(n.m, [u]));
    assert Closed(n2, u, None) == n3 && w.nodes[i := n1][i := n3] == w.nodes[i := n3];
    DroppedEntry(n.m, u, p.frame.chat);
    hide Members, Distinct, Dropped, NoticesOf;
  }

  lemma DroppedEntry(m: Manager, u: User, c: ChatId)
    requires u in m.active
    ensures Dropped(m, u) != m
    ensures var few, all := Members(Dropped(m, u), c), Members(m, c);
      (few == all || few == all - {u}) && (|few| == |all| ==> few == all)
  {
    var few, all := Members(Dropped(m, u), c), Members(m, c);
    assert few == all || few == all - {u};
    if u in all { assert all == (all - {u}) + {u}; }
  }

  /** A broadcast whose entry changed size ends at its next step. */
  lemma {:induction false} ResizedEnds(w: Cluster, i: nat, id: FrameId, order: seq<User>, dead: set<User>, bus: bool)
    requires Underway(w, i, id) && w.nodes[i].passes[id].sending.None? && Resized(w.nodes[i].m, w.nodes[i].passes[id])
    ensures Run(w, Visits(i, id, order, dead) + [Finish(i, id, bus)]) == Ended(w, i, id)
  {
    hide Resized, Visits;
    if order == [] {
      assert Visits(i, id, order, dead) == [] by { NoVisits(i, id, dead); }
      assert Visits(i, id, order, dead) + [Finish(i, id, bus)] == [Finish(i, id, bus)];
      RunOne(w, Finish(i, id, bus));
    } else {
      VisitsCons(i, id, order, dead, bus);
      var a, b := Visit(i, id, order[0]), Complete(i, id, order[0] !in dead);
      RunTwo(w, a, b, Visits(i, id, order[1..], dead) + [Finish(i, id, bus)]);
      assert Next(Next(w, a), b) == Ended(w, i, id);
      OverStaysOver(Ended(w, i, id), i, id, order[1..], dead, bus);
    }
  }

  lemma {:induction false} NoVisits(i: nat, id: FrameId, dead: set<User>)
    ensures Visits(i, id, [], dead) == []
  {
  }

  lemma {:induction false} VisitsCons(i: nat, id: FrameId, order: seq<User>, dead: set<User>, bus: bool)
    requires order != []
    ensures Visits(i, id, order, dead) + [Finish(i, id, bus)]
         == [Visit(i, id, order[0]), Complete(i, id, order[0] !in dead)]
            + (Visits(i, id, order[1..], dead) + [Finish(i, id, bus)])
  {
  }

  lemma RunOne(w: Cluster, e: Event)
    ensures Run(w, [e]) == Next(w, e)
  {
    hide Next;
    assert [e][1..] == [];
  }

  lemma {:induction false} WholeOfNone(w: Cluster, i: nat, id: FrameId, dead: set<User>, bus: bool)
    requires Between(w, i, id, [])
    ensures FinishStep(w, i, id, bus) == Whole(w, i, id, [], dead, bus)
  {
    hide Resized;
    var n := w.nodes[i];
    assert n.notices + NoticesOf(n.m, []) == n.notices;
    assert w.receipts + ReceiptsOf(n.m.active, [], id) == w.receipts;
  }

  /** The first user is served or passed over, then the rest. */
  lemma {:induction false} WholeInPeace(
      w: Cluster, w': Cluster, i: nat, id: FrameId, order: seq<User>, dead: set<User>, bus: bool)
    requires Underway(w, i, id) && order != [] && w.nodes[i].passes[id].frame.id == id
    requires var n := w.nodes[i]; var u := order[0]; var p := n.passes[id];
      && (p.frame.exclude == Some(u) || u !in n.m.active || u !in dead)
      && w' == WithPass(w, i, p.(left := p.left - {u})).(receipts := w'.receipts)
      && w'.receipts == w.receipts +
           if p.frame.exclude == Some(u) || u !in n.m.active then [] else [Receipt(n.m.active[u], id)]
    ensures Whole(w', i, id, order[1..], dead, bus) == Whole(w, i, id, order, dead, bus)
  {
    hide Serve, NoticesOf, Publish, ReceiptsOf, Members;
    var n := w.nodes[i];
    var p, u := n.passes[id], order[0];
    var f := p.frame;
    var (m', r) := Serve(n.m, f.chat, f.exclude, dead, order);
    var (m'', r') := Serve(n.m, f.chat, f.exclude, dead, order[1..]);
    ServeInPeace(n.m, f.chat, f.exclude, dead, order);
    ReceiptsCons(n.m.active, u, r'.users, id);
    assert w'.receipts + ReceiptsOf(n.m.active, r'.users, id) == w.receipts + ReceiptsOf(n.m.active, r.users, id);
    assert w'.nodes[i].passes - {id} == n.passes - {id};
    var n' := n.(m := m', notices := n.notices + NoticesOf(n.m, r.lost), passes := n.passes - {id});
    assert w'.nodes[i := n'] == w.nodes[i := n'];
  }

  lemma ReceiptsCons(active: map<User, Socket>, u: User, users: seq<User>, id: FrameId)
    requires forall v <- users :: v in active
    ensures u in active ==>
      ReceiptsOf(active, [u] + users, id) == [Receipt(active[u], id)] + ReceiptsOf(active, users, id)
  {
  }

  /** The first user is lost without a change of size, then the rest. */
  lemma {:induction false} WholeWithLoss(
      w: Cluster, w': Cluster, i: nat, id: FrameId, order: seq<User>, dead: set<User>, bus: bool)
    requires Underway(w, i, id) && order != [] && w.nodes[i].passes[id].frame.id == id
    requires var n := w.nodes[i]; var u := order[0]; var p := n.passes[id]; var m' := Dropped(n.m, u);
      && p.frame.exclude != Some(u) && u in n.m.active && u in dead
      && |Members(m', p.frame.chat)| == |Members(n.m, p.frame.chat)|
      && w' == w.(nodes := w.nodes[i := n.(m := m', passes := n.passes[id := p.(left := p.left - {u})],
                                           notices := n.notices + NoticesOf(n.m, [u]))])
    ensures Whole(w', i, id, order[1..], dead, bus) == Whole(w, i, id, order, dead, bus)
  {
    var n := w.nodes[i];
    var p, u, m1 := n.passes[id], order[0], Dropped(n.m, order[0]);
    var f := p.frame;
    var (m', r) := Serve(n.m, f.chat, f.exclude, dead, order);
    var (m'', r') := Serve(m1, f.chat, f.exclude, dead, order[1..]);
    assert m' == m'' && r == r'.(lost := [u] + r'.lost);
    NoticesCons(n.m, u, r'.lost);
    SameNotices(n.m, m1, r'.lost);
    hide Serve, NoticesOf, Publish, Members;
    assert n.notices + NoticesOf(n.m, [u]) + NoticesOf(m1, r'.lost) == n.notices + NoticesOf(n.m, r.lost);
    assert ReceiptsOf(m1.active, r'.users, id) == ReceiptsOf(n.m.active, r.users, id);
    assert w'.nodes[i].passes - {id} == n.passes - {id};
    var n' := n.(m := m', notices := n.notices + NoticesOf(n.m, r.lost), passes := n.passes - {id});
    assert w'.nodes[i := n'] == w.nodes[i := n'];
  }

  /** The first user is lost and the size changes. */
  lemma {:induction false} WholeRaises(
      w: Cluster, w': Cluster, i: nat, id: FrameId, order: seq<User>, dead: set<User>, bus: bool)
    requires Underway(w, i, id) && order != [] && w.nodes[i].passes[id].frame.id == id
    requires var n := w.nodes[i]; var u := order[0]; var p := n.passes[id]; var m' := Dropped(n.m, u);
      && p.frame.exclude != Some(u) && u in n.m.active && u in dead
      && |Members(m', p.frame.chat)| != |Members(n.m, p.frame.chat)|
      && w' == w.(nodes := w.nodes[i := n.(m := m', passes := n.passes[id := p.(left := p.left - {u})],
                                           notices := n.notices + NoticesOf(n.m, [u]))])
    ensures Ended(w', i, id) == Whole(w, i, id, order, dead, bus)
  {
    var n := w.nodes[i];
    var m' := Dropped(n.m, order[0]);
    var f := n.passes[id].frame;
    assert Serve(n.m, f.chat, f.exclude, dead, order) == (m', Sent([], [order[0]], true));
    hide Serve, NoticesOf, Members, Dropped;
    assert w.receipts + ReceiptsOf(n.m.active, [], id) == w.receipts;
    assert w'.nodes[i].passes - {id} == n.passes - {id};
    var n' := n.(m := m', notices := n.notices + NoticesOf(n.m, [order[0]]), passes := n.passes - {id});
    assert w'.nodes[i := n'] == w.nodes[i := n'];
  }

  /** If nothing happens in between, the steps of a broadcast do what `Serve` computes in one go. */
  lemma {:induction false} UninterruptedIsServe(
      w: Cluster, i: nat, id: FrameId, order: seq<User>, dead: set<User>, bus: bool)
    requires Between(w, i, id, order)
    ensures Run(w, Visits(i, id, order, dead) + [Finish(i, id, bus)]) == Whole(w, i, id, order, dead, bus)
    decreases |order|
  {
    var n := w.nodes[i];
    var p := n.passes[id];
    hide Visits, Whole, Next, Members, Dropped, Resized, Run;
    if order == [] {
      NoVisits(i, id, dead);
      assert Visits(i, id, order, dead) + [Finish(i, id, bus)] == [Finish(i, id, bus)];
      RunOne(w, Finish(i, id, bus));
      FinishIsStep(w, i, id, bus);
      WholeOfNone(w, i, id, dead, bus);
    } else {
      var u := order[0];
      var a, b := Visit(i, id, u), Complete(i, id, u !in dead);
      VisitsCons(i, id, order, dead, bus);
      RunTwo(w, a, b, Visits(i, id, order[1..], dead) + [Finish(i, id, bus)]);
      var w' := Next(Next(w, a), b);
      if p.frame.exclude == Some(u) || u !in n.m.active || u !in dead {
        VisitedInPeace(w, i, id, order, dead);
        UninterruptedIsServe(w', i, id, order[1..], dead, bus);
        WholeInPeace(w, w', i, id, order, dead, bus);
      } else {
        VisitedDead(w, i, id, order, dead);
        if Resized(Dropped(n.m, u), p) {
          ResizedEnds(w', i, id, order[1..], dead, bus);
          WholeRaises(w, w', i, id, order, dead, bus);
        } else {
          UninterruptedIsServe(w', i, id, order[1..], dead, bus);
          WholeWithLoss(w, w', i, id, order, dead, bus);
        }
      }
    }
  }

  lemma FinishIsStep(w: Cluster, i: nat, id: FrameId, bus: bool)
    ensures Next(w, Finish(i, id, bus)) == FinishStep(w, i, id, bus)
  {
  }

  // ---- Every frame is delivered ----

  lemma DeliverBegins(w: Cluster, i: nat, order: seq<User>)
    requires Inv(w) && i < |w.nodes| && w.nodes[i].inbox != [] && w.nodes[i].inbox[0].origin != i
    requires Enumerates(order, Members(w.nodes[i].m, w.nodes[i].inbox[0].chat))
    ensures var n := w.nodes[i]; var f := n.inbox[0]; var users := Members(n.m, f.chat);
      Next(w, Deliver(i))
      == w.(nodes := w.nodes[i := n.(inbox := n.inbox[1..], passes := n.passes[f.id := Pass(f, |users|, users, None)])])
    ensures Between(Next(w, Deliver(i)), i, w.nodes[i].inbox[0].id, order)
  {
    hide Members, Distinct;
    if order != [] { OrderIsNotEmpty(order, Members(w.nodes[i].m, w.nodes[i].inbox[0].chat)); }
  }

  lemma OrderIsNotEmpty(order: seq<User>, users: set<User>)
    requires order != [] && Enumerates(order, users)
    ensures |users| != 0
  {
    assert order[0] in users;
  }

  /** A bus frame of another instance, taken and gone through without
      interruption, does to manager and sockets what `Subscriber.DeliverNext`
      does: it serves the frame over the chat's entry at that moment. */
  lemma {:induction false} DeliveryIsServed(
      n: nat, es: seq<Event>, i: nat, order: seq<User>, dead: set<User>, bus: bool)
    requires var w := Run(Start(n), es);
      && i < |w.nodes| && w.nodes[i].inbox != [] && w.nodes[i].inbox[0].origin != i
      && Enumerates(order, Members(w.nodes[i].m, w.nodes[i].inbox[0].chat))
    ensures var w := Run(Start(n), es); var f := w.nodes[i].inbox[0];
      var (m', r) := Serve(w.nodes[i].m, f.chat, f.exclude, dead, order);
      var w' := Run(w, [Deliver(i)] + (Visits(i, f.id, order, dead) + [Finish(i, f.id, bus)]));
      && |w'.nodes| == |w.nodes| && w'.nodes[i].m == m' && w'.nodes[i].inbox == w.nodes[i].inbox[1..]
      && w'.receipts == w.receipts + ReceiptsOf(w.nodes[i].m.active, r.users, f.id)
  {
    StartIsOk(n);
    RunKeeps(Start(n), es);
    var w := Run(Start(n), es);
    var f := w.nodes[i].inbox[0];
    DeliverBegins(w, i, order);
    var rest := Visits(i, f.id, order, dead) + [Finish(i, f.id, bus)];
    RunFirst(w, Deliver(i), rest);
    UninterruptedIsServe(Next(w, Deliver(i)), i, f.id, order, dead, bus);
    hide Run, Inv, Next, Between, Enumerates, Serve, NoticesOf, ReceiptsOf, Visits, Publish;
  }

  lemma RunFirst(w: Cluster, e: Event, es: seq<Event>)
    ensures Run(w, [e] + es) == Run(Next(w, e), es)
  {
    hide Next;
    assert ([e] + es)[1..] == es;
  }

  /** The receipts of a frame just served to these users. */
  lemma ServedOnce(w: Cluster, i: nat, f: Frame, users: seq<User>, u: User)
    requires SocketsOk(w) && i < |w.nodes| && Distinct(users) && forall v <- users :: v in w.nodes[i].m.active
    requires forall r <- w.receipts :: !IsAt(w, r, i, f.id)
    requires u in w.nodes[i].m.active
    ensures var r := Receipt(w.nodes[i].m.active[u], f.id);
      multiset(w.receipts + ReceiptsOf(w.nodes[i].m.active, users, f.id))[r] == if u in users then 1 else 0
  {
    var active := w.nodes[i].m.active;
    var r, added := Receipt(active[u], f.id), ReceiptsOf(active, users, f.id);
    assert r !in w.receipts by { if r in w.receipts { assert IsAt(w, r, i, f.id); } }
    forall a, b | 0 <= a < b < |added| ensures added[a] != added[b] {
      assert users[a] in active && users[b] in active && users[a] != users[b];
      assert w.sockets[active[users[a]]] == (i, users[a]) && w.sockets[active[users[b]]] == (i, users[b]);
    }
    if u in users {
      var k :| 0 <= k < |users| && users[k] == u;
      assert added[k] == r;
      CountsOne(added, k);
    } else {
      assert r !in added by {
        if k :| 0 <= k < |added| && added[k] == r {
          assert users[k] in users && w.sockets[active[users[k]]] == (i, users[k]);
        }
      }
    }
  }

  lemma {:induction false} CountsOne(rs: seq<Receipt>, k: nat)
    requires k < |rs| && Distinct(rs)
    ensures multiset(rs)[rs[k]] == 1
  {
    var rest := rs[..k] + rs[k + 1..];
    assert rs == rs[..k] + [rs[k]] + rs[k + 1..];
    assert rs[k] !in rest;
  }

  /** In every run that passes rows and removals on, a frame at the head of an
      inbox, delivered without interruption or failed send, reaches each user
      connected to the instance who lists the chat, but the excluded one,
      exactly once, and nobody else there. */
  lemma {:induction false} DeliveryReachesAll(n: nat, es: seq<Event>, i: nat, order: seq<User>, bus: bool, u: User)
    requires RowsInsertedOnce(Start(n), es) && RemovalsPassedOn(Start(n), es)
    requires var w := Run(Start(n), es);
      && i < |w.nodes| && w.nodes[i].inbox != [] && w.nodes[i].inbox[0].origin != i && u in w.nodes[i].m.active
      && Enumerates(order, Members(w.nodes[i].m, w.nodes[i].inbox[0].chat))
    ensures var w := Run(Start(n), es); var m, f := w.nodes[i].m, w.nodes[i].inbox[0];
      var w' := Run(w, [Deliver(i)] + (Visits(i, f.id, order, {}) + [Finish(i, f.id, bus)]));
      multiset(w'.receipts)[Receipt(m.active[u], f.id)]
      == if u in m.lists && f.chat in m.lists[u] && f.exclude != Some(u) then 1 else 0
  {
    StartIsOk(n);
    RunKeeps(Start(n), es);
    var w := Run(Start(n), es);
    var m, f := w.nodes[i].m, w.nodes[i].inbox[0];
    DeliveryIsServed(n, es, i, order, {}, bus);
    BroadcastServesTheScan(n, es, i, f.chat, f.exclude, {}, order);
    var (_, r) := Serve(m, f.chat, f.exclude, {}, order);
    hide Run, RowsInsertedOnce, RemovalsPassedOn, Serve, Visits, Members, Enumerates;
    ServedOnce(w, i, f, r.users, u);
  }

  lemma BroadcastBeginsHere(w: Cluster, f: Frame, order: seq<User>)
    requires Inv(w) && f.origin < |w.nodes| && f.id !in w.frames
    requires Enumerates(order, Members(w.nodes[f.origin].m, f.chat))
    ensures var n := w.nodes[f.origin]; var users := Members(n.m, f.chat);
      Next(w, Broadcast(f.origin, f.id, f.chat, f.exclude))
      == w.(frames := w.frames[f.id := f],
            nodes := w.nodes[f.origin := n.(passes := n.passes[f.id := Pass(f, |users|, users, None)])])
    ensures Between(Next(w, Broadcast(f.origin, f.id, f.chat, f.exclude)), f.origin, f.id, order)
  {
    hide Members, Distinct;
    FrameKeeps(w, f);
    assert f == Frame(f.origin, f.id, f.chat, f.exclude);
    if order != [] { OrderIsNotEmpty(order, Members(w.nodes[f.origin].m, f.chat)); }
  }

  /** A new frame, broadcast without interruption or failed send, reaches each
      user connected to its instance who lists the chat, but the excluded one,
      exactly once; and if the bus is up it is queued behind what every
      instance has yet to read. */
  lemma {:induction false} BroadcastReachesAll(n: nat, es: seq<Event>, f: Frame, order: seq<User>, bus: bool, u: User)
    requires RowsInsertedOnce(Start(n), es) && RemovalsPassedOn(Start(n), es)
    requires var w := Run(Start(n), es);
      && f.origin < |w.nodes| && f.id !in w.frames && u in w.nodes[f.origin].m.active
      && Enumerates(order, Members(w.nodes[f.origin].m, f.chat))
    ensures var w := Run(Start(n), es); var m := w.nodes[f.origin].m;
      var w' := Run(w, [Broadcast(f.origin, f.id, f.chat, f.exclude)]
                       + (Visits(f.origin, f.id, order, {}) + [Finish(f.origin, f.id, bus)]));
      && multiset(w'.receipts)[Receipt(m.active[u], f.id)]
         == (if u in m.lists && f.chat in m.lists[u] && f.exclude != Some(u) then 1 else 0)
      && |w'.nodes| == |w.nodes|
      && forall k | 0 <= k < |w.nodes| :: w'.nodes[k].inbox == w.nodes[k].inbox + if bus then [f] else []
  {
    StartIsOk(n);
    RunKeeps(Start(n), es);
    var w := Run(Start(n), es);
    var i := f.origin;
    var m, e := w.nodes[i].m, Broadcast(i, f.id, f.chat, f.exclude);
    FrameKeeps(w, f);
    BroadcastBeginsHere(w, f, order);
    RunFirst(w, e, Visits(i, f.id, order, {}) + [Finish(i, f.id, bus)]);
    UninterruptedIsServe(Next(w, e), i, f.id, order, {}, bus);
    BroadcastServesTheScan(n, es, i, f.chat, f.exclude, {}, order);
    var (_, r) := Serve(m, f.chat, f.exclude, {}, order);
    hide Run, RowsInsertedOnce, RemovalsPassedOn, Serve, Visits, Members, Enumerates, Next, Between, NoticesOf;
    ServedOnce(w, i, f, r.users, u);
  }

  // ---- A socket that is served twice ----

  const MEET := Frame(0, 7, "c", None)
  const ROW_A := Row("c", "a")
  const ROW_B := Row("c", "b")
  const BOTH := Manager(map["a" := 1, "b" := 2], map["a" := ["c"], "b" := ["c"]], map["c" := {"a", "b"}])

  /** One instance with the sockets of both users. */
  function Lone(db: seq<Row>, m: Manager, passes: map<FrameId, Pass>, disturbed: set<FrameId>,
        receipts: seq<Receipt>): Cluster
  {
    Cluster(db, [Node(m, [], [], passes, disturbed)], map[1 := (0, "a"), 2 := (0, "b")], map[7 := MEET], receipts)
  }

  const ONLY_A := Manager(map["a" := 1], map["a" := ["c"]], map["c" := {"a"}])

  /** One instance before any broadcast. */
  function Waiting(db: seq<Row>, m: Manager, sockets: map<Socket, (nat, User)>): Cluster {
    Cluster(db, [Node(m, [], [], map[], {})], sockets, map[], [])
  }

  lemma RowsInserted()
    ensures Next(Next(Start(1), Insert(ROW_A, {})), Insert(ROW_B, {})) == Waiting([ROW_A, ROW_B], NO_USERS, map[])
  {
  }

  lemma QuietOpen(db: seq<Row>, m: Manager, sockets: map<Socket, (nat, User)>, u: User, s: Socket, m': Manager)
    requires s !in sockets && m' == Connect(m, u, s, ChatsOf(db, u))
    ensures Next(Waiting(db, m, sockets), Open(0, u, s)) == Waiting(db, m', sockets[s := (0, u)])
  {
    MovedInPeace(Waiting(db, m, sockets).nodes[0], m');
    hide Connect, ChatsOf, Moved;
  }

  lemma BothConnect()
    ensures Connect(NO_USERS, "a", 1, ["c"]) == ONLY_A && Connect(ONLY_A, "b", 2, ["c"]) == BOTH
  {
    EnteredAllOfOne(NO_USERS.index, "a", "c");
    EnteredAllOfOne(ONLY_A.index, "b", "c");
    assert {} + {"a"} == {"a"} && {"a"} + {"b"} == {"a", "b"};
    assert Entered(NO_USERS.index, "a", "c") == ONLY_A.index;
    assert Entered(ONLY_A.index, "b", "c") == BOTH.index;
  }

  lemma LoneBegins(db: seq<Row>)
    ensures Next(Waiting(db, BOTH, map[1 := (0, "a"), 2 := (0, "b")]), Broadcast(0, 7, "c", None))
         == Lone(db, BOTH, map[7 := Pass(MEET, 2, {"a", "b"}, None)], {}, [])
  {
    assert |{"a", "b"}| == 2;
  }

  /** Both users connect and a broadcast begins. */
  lemma {:induction false} BroadcastBegins()
    ensures Run(Start(1), [Insert(ROW_A, {}), Insert(ROW_B, {})]
                          + ([Open(0, "a", 1), Open(0, "b", 2)] + [Broadcast(0, 7, "c", None)]))
         == Lone([ROW_A, ROW_B], BOTH, map[7 := Pass(MEET, 2, {"a", "b"}, None)], {}, [])
  {
    hide *;
    var db := [ROW_A, ROW_B];
    var e2, e3, e4 := Open(0, "a", 1), Open(0, "b", 2), Broadcast(0, 7, "c", None);
    RowsInserted();
    ChatsOfBoth();
    BothConnect();
    QuietOpen(db, NO_USERS, map[], "a", 1, ONLY_A);
    QuietOpen(db, ONLY_A, map[1 := (0, "a")], "b", 2, BOTH);
    LoneBegins(db);
    RunTwo(Start(1), Insert(ROW_A, {}), Insert(ROW_B, {}), [e2, e3] + [e4]);
    RunTwo(Waiting(db, NO_USERS, map[]), e2, e3, [e4]);
    RunOne(Waiting(db, BOTH, map[1 := (0, "a"), 2 := (0, "b")]), e4);
    assert map[][1 := (0, "a")] == map[1 := (0, "a")];
    assert map[1 := (0, "a")][2 := (0, "b")] == map[1 := (0, "a"), 2 := (0, "b")];
  }

  lemma LoneVisit(db: seq<Row>, m: Manager, p: Pass, disturbed: set<FrameId>, receipts: seq<Receipt>, u: User)
    requires p.frame == MEET && p.sending.None? && p.size == |Members(m, "c")| && u in Members(m, "c")
    requires u in m.active && (7 in disturbed || u in p.left)
    ensures Next(Lone(db, m, map[7 := p], disturbed, receipts), Visit(0, 7, u))
         == Lone(db, m, map[7 := p.(left := p.left - {u}, sending := Some((u, m.active[u])))], disturbed, receipts)
  {
    hide Members;
    var p' := p.(left := p.left - {u}, sending := Some((u, m.active[u])));
    assert map[7 := p][7 := p'] == map[7 := p'];
  }

  lemma LoneComplete(db: seq<Row>, m: Manager, p: Pass, disturbed: set<FrameId>, receipts: seq<Receipt>)
    requires p.sending.Some?
    ensures Next(Lone(db, m, map[7 := p], disturbed, receipts), Complete(0, 7, true))
         == Lone(db, m, map[7 := p.(sending := None)], disturbed, receipts + [Receipt(p.sending.value.1, 7)])
  {
    assert map[7 := p][7 := p.(sending := None)] == map[7 := p.(sending := None)];
  }

  /** A is taken out of the chat and added again. */
  lemma LoneRejoin(p: Pass, receipts: seq<Receipt>)
    requires p.frame == MEET
    ensures Next(Next(Lone([ROW_A, ROW_B], BOTH, map[7 := p], {}, receipts), Delete(ROW_A, {0})), Insert(ROW_A, {0}))
         == Lone([ROW_B, ROW_A], BOTH, map[7 := p], {7}, receipts)
  {
    var w0 := Lone([ROW_A, ROW_B], BOTH, map[7 := p], {}, receipts);
    var gone := Manager(BOTH.active, map["a" := [], "b" := ["c"]], map["c" := {"b"}]);
    var w1 := Lone([ROW_B], gone, map[7 := p], {}, receipts);
    BothWithoutA(gone);
    assert Moved(w0.nodes[0], gone) == w1.nodes[0];
    assert Moved(w1.nodes[0], BOTH) == w1.nodes[0].(m := BOTH, disturbed := {7});
    hide Remove, Add, Moved;
    assert Next(w0, Delete(ROW_A, {0})) == w1;
  }

  lemma BothWithoutA(gone: Manager)
    requires gone == Manager(BOTH.active, map["a" := [], "b" := ["c"]], map["c" := {"b"}])
    ensures Remove(BOTH, "a", "c") == gone && Add(gone, "a", "c") == BOTH
  {
    assert {"a", "b"} - {"a"} == {"b"} && {"b"} + {"a"} == {"a", "b"};
    assert Entered(gone.index, "a", "c") == BOTH.index;
    assert ListOf(gone, "a") + ["c"] == ["c"] && gone.lists["a" := ["c"]] == BOTH.lists;
  }

  lemma LoneServe(db: seq<Row>, m: Manager, p: Pass, disturbed: set<FrameId>, receipts: seq<Receipt>, u: User)
    requires p.frame == MEET && p.sending.None? && p.size == |Members(m, "c")| && u in Members(m, "c")
    requires u in m.active && (7 in disturbed || u in p.left)
    ensures Next(Next(Lone(db, m, map[7 := p], disturbed, receipts), Visit(0, 7, u)), Complete(0, 7, true))
         == Lone(db, m, map[7 := p.(left := p.left - {u})], disturbed, receipts + [Receipt(m.active[u], 7)])
  {
    LoneVisit(db, m, p, disturbed, receipts, u);
    var p' := p.(left := p.left - {u}, sending := Some((u, m.active[u])));
    LoneComplete(db, m, p', disturbed, receipts);
    assert p'.(sending := None) == p.(left := p.left - {u});
    hide Next, Lone, Members;
  }

  /** While the send to b is awaited, a rejoins. */
  lemma LoneRejoinsAmid(p: Pass, receipts: seq<Receipt>)
    requires p == Pass(MEET, 2, {"b"}, None)
    ensures Next(Next(Next(Next(Lone([ROW_A, ROW_B], BOTH, map[7 := p], {}, receipts), Visit(0, 7, "b")),
                           Delete(ROW_A, {0})), Insert(ROW_A, {0})), Complete(0, 7, true))
         == Lone([ROW_B, ROW_A], BOTH, map[7 := p.(left := {})], {7}, receipts + [Receipt(2, 7)])
  {
    assert |{"a", "b"}| == 2 && {"b"} - {"b"} == {};
    LoneVisit([ROW_A, ROW_B], BOTH, p, {}, receipts, "b");
    var p' := p.(left := {}, sending := Some(("b", 2)));
    LoneRejoin(p', receipts);
    LoneComplete([ROW_B, ROW_A], BOTH, p', {7}, receipts);
    assert p'.(sending := None) == p.(left := {});
    hide Next, Lone, Members;
  }

  lemma FirstServe()
    ensures Next(Next(Lone([ROW_A, ROW_B], BOTH, map[7 := Pass(MEET, 2, {"a", "b"}, None)], {}, []),
                      Visit(0, 7, "a")), Complete(0, 7, true))
         == Lone([ROW_A, ROW_B], BOTH, map[7 := Pass(MEET, 2, {"b"}, None)], {}, [Receipt(1, 7)])
  {
    assert |{"a", "b"}| == 2 && {"a", "b"} - {"a"} == {"b"};
    LoneServe([ROW_A, ROW_B], BOTH, Pass(MEET, 2, {"a", "b"}, None), {}, [], "a");
    hide Next;
  }

  lemma SecondServe()
    ensures var twice := [Receipt(1, 7), Receipt(2, 7)];
      Next(Next(Lone([ROW_B, ROW_A], BOTH, map[7 := Pass(MEET, 2, {}, None)], {7}, twice), Visit(0, 7, "a")),
           Complete(0, 7, true)).receipts
         == [Receipt(1, 7), Receipt(2, 7), Receipt(1, 7)]
  {
    assert |{"a", "b"}| == 2;
    LoneServe([ROW_B, ROW_A], BOTH, Pass(MEET, 2, {}, None), {7}, [Receipt(1, 7), Receipt(2, 7)], "a");
    hide Next;
  }

  lemma RunThese(w: Cluster, a: Event, b: Event, c: Event, d: Event, e: Event, f: Event, g: Event, h: Event)
    ensures Run(w, [a, b] + ([c, d] + ([e, f] + [g, h])))
         == Next(Next(Next(Next(Next(Next(Next(Next(w, a), b), c), d), e), f), g), h)
  {
    hide Next, Run;
    RunTwo(w, a, b, [c, d] + ([e, f] + [g, h]));
    var w' := Next(Next(w, a), b);
    RunTwo(w', c, d, [e, f] + [g, h]);
    var w'' := Next(Next(w', c), d);
    RunTwo(w'', e, f, [g, h]);
    var w3 := Next(Next(w'', e), f);
    RunTwo(w3, g, h, []);
    assert [g, h] + [] == [g, h];
    RunNothing(Next(Next(w3, g), h));
  }

  /** Serving a and, while the send to b is awaited, letting a rejoin: the
      entry has its size back, and a comes up once more. */
  lemma {:induction false} OneRejoins()
    ensures var a, b, done := Visit(0, 7, "a"), Visit(0, 7, "b"), Complete(0, 7, true);
      Run(Lone([ROW_A, ROW_B], BOTH, map[7 := Pass(MEET, 2, {"a", "b"}, None)], {}, []),
          [a, done] + ([b, Delete(ROW_A, {0})] + ([Insert(ROW_A, {0}), done] + [a, done]))).receipts
      == [Receipt(1, 7), Receipt(2, 7), Receipt(1, 7)]
  {
    hide *;
    var a, b, done := Visit(0, 7, "a"), Visit(0, 7, "b"), Complete(0, 7, true);
    RunThese(Lone([ROW_A, ROW_B], BOTH, map[7 := Pass(MEET, 2, {"a", "b"}, None)], {}, []),
             a, done, b, Delete(ROW_A, {0}), Insert(ROW_A, {0}), done, a, done);
    FirstServe();
    LoneRejoinsAmid(Pass(MEET, 2, {"b"}, None), [Receipt(1, 7)]);
    assert [Receipt(1, 7)] + [Receipt(2, 7)] == [Receipt(1, 7), Receipt(2, 7)];
    SecondServe();
  }

  lemma RunNothing(w: Cluster)
    ensures Run(w, []) == w
  {
  }

  lemma {:induction false} RunAppend(w: Cluster, es: seq<Event>, fs: seq<Event>)
    ensures Run(w, es + fs) == Run(Run(w, es), fs)
    decreases |es|
  {
    hide Next;
    if es == [] {
      assert es + fs == fs;
    } else {
      assert (es + fs)[1..] == es[1..] + fs;
      RunAppend(Next(w, es[0]), es[1..], fs);
    }
  }

  /** A run in which a socket receives a frame twice. */
  lemma {:induction false} SocketIsServedTwice()
    ensures exists es :: Run(Start(1), es).receipts == [Receipt(1, 7), Receipt(2, 7), Receipt(1, 7)]
  {
    var begin := [Insert(ROW_A, {}), Insert(ROW_B, {})]
                 + ([Open(0, "a", 1), Open(0, "b", 2)] + [Broadcast(0, 7, "c", None)]);
    var a, b, done := Visit(0, 7, "a"), Visit(0, 7, "b"), Complete(0, 7, true);
    var rest := [a, done] + ([b, Delete(ROW_A, {0})] + ([Insert(ROW_A, {0}), done] + [a, done]));
    BroadcastBegins();
    OneRejoins();
    hide Run, Lone;
    RunAppend(Start(1), begin, rest);
    assert Run(Start(1), begin + rest).receipts == [Receipt(1, 7), Receipt(2, 7), Receipt(1, 7)];
  }

  lemma EnteredAllOfOne(index: map<ChatId, set<User>>, u: User, c: ChatId)
    ensures EnteredAll(index, u, [c]) == Entered(index, u, c)
  {
    assert [c][..0] == [];
  }

  lemma MovedInPeace(n: Node, m': Manager)
    requires n.passes == map[]
    ensures Moved(n, m') == n.(m := m')
  {
  }

  lemma ChatsOfBoth()
    ensures ChatsOf([ROW_A, ROW_B], "a") == ["c"] && ChatsOf([ROW_A, ROW_B], "b") == ["c"]
  {
    assert [ROW_A, ROW_B][..1] == [ROW_A] && [ROW_A][..0] == [];
    assert ChatsOf([ROW_A], "a") == ["c"] && ChatsOf([ROW_A], "b") == [];
  }
}
