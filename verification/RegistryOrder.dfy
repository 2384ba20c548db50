/**
  The order in which watchers are called back, at every moment of every history and at any depth of re-entry.

  A moment is a book and the agenda still to be played; it is outside all operations when the agenda is empty.
  The line of a moment is everybody who ever subscribed: those called back, those whose callback is due, those who wait.
 */
module RegistryOrder {
  import opened Wrappers
  import opened Registry
  import opened RegistryCalls

  datatype Moment = Moment(book: Book, agenda: seq<Item>)

  /** The next item of the agenda is played, or a user begins an operation when none is under way. */
  datatype Event = Proceed | Begin(user: UserOp)

  function After(m: Moment, event: Event): Option<Moment> {
    match event
    case Proceed =>
      if m.agenda == [] || Advance(m.book, m.agenda[0]).None? then None
      else
        var (book, more) := Advance(m.book, m.agenda[0]).value;
        Some(Moment(book, more + m.agenda[1..]))
    case Begin(user) =>
      if m.agenda != [] then None
      else
        match user
        case Perform(op) => Some(Moment(m.book, [Do(op)]))
        case Unregister(id) => Some(Moment(m.book.(actions := m.book.actions - {id}), []))
  }

  ghost predicate Leads(m: Moment, events: seq<Event>, n: Moment)
    decreases |events|
  {
    if events == [] then m == n
    else After(m, events[0]).Some? && Leads(After(m, events[0]).value, events[1..], n)
  }

  ghost predicate Reachable(m: Moment) {
    exists events: seq<Event> :: Leads(Moment(EMPTY, []), events, m)
  }

  function Line(m: Moment): seq<Watcher> {
    m.book.fired + FiredBy(m.agenda) + m.book.pending
  }

  // ----- histories of whole operations are histories of moments

  lemma {:induction false} LeadsJoin(m: Moment, first: seq<Event>, n: Moment, second: seq<Event>, o: Moment)
    requires Leads(m, first, n) && Leads(n, second, o)
    ensures Leads(m, first + second, o)
    decreases |first|
  {
    if first == [] {
      assert first + second == second;
    } else {
      LeadsJoin(After(m, first[0]).value, first[1..], n, second, o);
      assert (first + second)[0] == first[0] && (first + second)[1..] == first[1..] + second;
    }
  }

  lemma {:induction false} PlayLeads(book: Book, agenda: seq<Item>) returns (events: seq<Event>)
    requires Play(book, agenda).Done?
    ensures Leads(Moment(book, agenda), events, Moment(Play(book, agenda).book, []))
    decreases WatchersSize(book.pending) + AgendaSize(agenda)
  {
    if agenda == [] {
      events := [];
    } else {
      var (book', more) := Advance(book, agenda[0]).value;
      AdvanceShrinks(book, agenda[0], agenda[1..]);
      var rest := PlayLeads(book', more + agenda[1..]);
      events := [Proceed] + rest;
      assert events[1..] == rest;
    }
  }

  lemma {:induction false} UserRunLeads(book: Book, ops: seq<UserOp>, final: Book) returns (events: seq<Event>)
    requires UserRun(book, ops, final)
    ensures Leads(Moment(book, []), events, Moment(final, []))
    decreases |ops|
  {
    if ops == [] {
      events := [];
    } else {
      var next := UserNext(book, ops[0]).book;
      var rest := UserRunLeads(next, ops[1..], final);
      var first := [Begin(ops[0])];
      var begun := After(Moment(book, []), first[0]).value;
      if ops[0].Perform? {
        var inner := PlayLeads(book, [Do(ops[0].op)]);
        first := first + inner;
        assert first[1..] == inner;
      } else {
        assert Leads(begun, [], begun);
      }
      events := first + rest;
      LeadsJoin(Moment(book, []), first, Moment(next, []), rest, Moment(final, []));
    }
  }

  // ----- what holds at every moment

  ghost predicate Ascending(watchers: seq<Watcher>) {
    forall i, j :: 0 <= i < j < |watchers| ==> watchers[i].ticket < watchers[j].ticket
  }

  ghost predicate MomentInv(m: Moment) {
    && Settled(m.book) && Ascending(m.book.pending)
    && (forall w :: w in m.book.pending ==> w.ticket < m.book.next)
    && (forall w :: w in FiredBy(m.agenda) ==> w.id in m.book.actions)
    && (forall ticket: nat :: Accounted(m.book, m.agenda, ticket))
  }

  lemma {:induction false} OthersAscend(watchers: seq<Watcher>, id: string)
    requires Ascending(watchers)
    ensures Ascending(Others(watchers, id)) && Ascending(Of(watchers, id))
  {
    if watchers != [] {
      var head, tail := watchers[0], watchers[1..];
      OthersAscend(tail, id);
      OthersWithin(tail, id);
      assert forall w :: w in tail ==> head.ticket < w.ticket;
      AscendFront(head, if head.id == id then Of(tail, id) else Others(tail, id));
    }
  }

  lemma AscendFront(head: Watcher, tail: seq<Watcher>)
    requires Ascending(tail) && forall w :: w in tail ==> head.ticket < w.ticket
    ensures Ascending([head] + tail)
  {
  }

  lemma MomentInvKept(m: Moment, event: Event)
    requires MomentInv(m) && After(m, event).Some?
    ensures MomentInv(After(m, event).value)
  {
    var n := After(m, event).value;
    forall ticket: nat ensures Accounted(n.book, n.agenda, ticket) {
      assert Accounted(m.book, m.agenda, ticket);
      if event.Proceed? {
        assert m.agenda == [m.agenda[0]] + m.agenda[1..];
        AdvanceAccounts(m.book, m.agenda[0], m.agenda[1..], ticket);
      } else if event.user.Perform? {
        assert CountFires([Do(event.user.op)], ticket) == 0;
      }
    }
    if event.Proceed? {
      AdvanceGrows(m.book, m.agenda[0]);
      PendingKept(m.book, m.agenda[0]);
      DueKept(m, n);
    } else {
      assert FiredBy(n.agenda) == [];
    }
  }

  lemma PendingKept(book: Book, item: Item)
    requires Ascending(book.pending) && (forall w :: w in book.pending ==> w.ticket < book.next)
    requires Advance(book, item).Some?
    ensures var after := Advance(book, item).value.0;
      Ascending(after.pending) && forall w :: w in after.pending ==> w.ticket < after.next
  {
    if item.Do? && item.op.Register? {
      OthersAscend(book.pending, item.op.id);
      OthersWithin(book.pending, item.op.id);
    }
  }

  lemma DueKept(m: Moment, n: Moment)
    requires After(m, Proceed) == Some(n) && forall w :: w in FiredBy(m.agenda) ==> w.id in m.book.actions
    ensures forall w :: w in FiredBy(n.agenda) ==> w.id in n.book.actions
  {
    var (book, more) := Advance(m.book, m.agenda[0]).value;
    FiredByJoin(more, m.agenda[1..]);
    match m.agenda[0]
    case Do(Subscribe(_, _)) =>
    case Do(Register(id, _, _)) =>
      FiredByFires(Of(m.book.pending, id));
      OthersWithin(m.book.pending, id);
    case Fire(watcher) => FiredByDos(watcher.cb.ops);
  }

  lemma {:induction false} LeadsKeepsInv(m: Moment, events: seq<Event>, n: Moment)
    requires MomentInv(m) && Leads(m, events, n)
    ensures MomentInv(n) && m.book.next <= n.book.next
    decreases |events|
  {
    if events != [] {
      MomentInvKept(m, events[0]);
      LeadsKeepsInv(After(m, events[0]).value, events[1..], n);
    }
  }

  lemma ReachableInv(m: Moment)
    requires Reachable(m)
    ensures MomentInv(m)
  {
    var events: seq<Event> :| Leads(Moment(EMPTY, []), events, m);
    LeadsKeepsInv(Moment(EMPTY, []), events, m);
  }

  // ----- the order in the line never changes

  /** All watchers in line that hold one of the tickets watch the same id. */
  ghost predicate OneId(m: Moment, tickets: set<nat>, id: string) {
    forall w :: w in Line(m) && w.ticket in tickets ==> w.id == id
  }

  lemma SplitHead(watchers: seq<Watcher>, id: string, tickets: set<nat>)
    requires watchers != []
    ensures var head, tail := Among(watchers[..1], tickets), watchers[1..];
      && Among(watchers, tickets) == head + Among(tail, tickets)
      && Among(Of(watchers, id), tickets) == (if watchers[0].id == id then head else []) + Among(Of(tail, id), tickets)
      && Among(Others(watchers, id), tickets)
           == (if watchers[0].id == id then [] else head) + Among(Others(tail, id), tickets)
  {
    var tail := watchers[1..];
    assert watchers == watchers[..1] + tail && watchers[..1] == [watchers[0]];
    AmongJoin([watchers[0]], tail, tickets);
    if watchers[0].id == id {
      AmongJoin([watchers[0]], Of(tail, id), tickets);
      assert Others(watchers, id) == Others(tail, id);
    } else {
      AmongJoin([watchers[0]], Others(tail, id), tickets);
      assert Of(watchers, id) == Of(tail, id);
    }
  }

  lemma {:induction false} AmongOf(watchers: seq<Watcher>, id: string, tickets: set<nat>)
    requires forall w :: w in watchers && w.ticket in tickets ==> w.id == id
    ensures Among(Of(watchers, id), tickets) == Among(watchers, tickets) && Among(Others(watchers, id), tickets) == []
  {
    if watchers != [] {
      AmongOf(watchers[1..], id, tickets);
      SplitHead(watchers, id, tickets);
    }
  }

  lemma {:induction false} AmongOthers(watchers: seq<Watcher>, id: string, tickets: set<nat>)
    requires forall w :: w in watchers && w.ticket in tickets ==> w.id != id
    ensures Among(Others(watchers, id), tickets) == Among(watchers, tickets) && Among(Of(watchers, id), tickets) == []
  {
    if watchers != [] {
      AmongOthers(watchers[1..], id, tickets);
      SplitHead(watchers, id, tickets);
    }
  }

  lemma AmongLine(m: Moment, tickets: set<nat>)
    ensures Among(Line(m), tickets)
         == Among(m.book.fired, tickets) + Among(FiredBy(m.agenda), tickets) + Among(m.book.pending, tickets)
  {
    AmongJoin(m.book.fired + FiredBy(m.agenda), m.book.pending, tickets);
    AmongJoin(m.book.fired, FiredBy(m.agenda), tickets);
  }

  /** The line after playing one item: only a subscription changes who is in it. */
  lemma LineSteps(m: Moment, n: Moment)
    requires After(m, Proceed) == Some(n)
    ensures m.agenda[0].Fire? ==> Line(n) == Line(m)
    ensures var fired, due, pending := m.book.fired, FiredBy(m.agenda), m.book.pending;
      match m.agenda[0]
      case Fire(_) => true
      case Do(Subscribe(id, cb)) =>
        var w := Watcher(m.book.next, id, cb);
        Line(n) == if id in m.book.actions then fired + ([w] + due) + pending else Line(m) + [w]
      case Do(Register(id, _, _)) => Line(n) == fired + (Of(pending, id) + due) + Others(pending, id)
  {
    var rest := m.agenda[1..];
    var more := Advance(m.book, m.agenda[0]).value.1;
    FiredByJoin(more, rest);
    match m.agenda[0]
    case Fire(watcher) =>
      FiredByDos(watcher.cb.ops);
      Regrouped(m.book.fired, watcher, FiredBy(rest));
    case Do(Subscribe(id, cb)) => Appended(m.book.fired, FiredBy(rest), m.book.pending, Watcher(m.book.next, id, cb));
    case Do(Register(id, _, _)) => FiredByFires(Of(m.book.pending, id));
  }

  lemma Regrouped(a: seq<Watcher>, w: Watcher, b: seq<Watcher>)
    ensures a + [w] + ([] + b) == a + ([w] + b)
  {
  }

  lemma Appended(a: seq<Watcher>, b: seq<Watcher>, c: seq<Watcher>, w: Watcher)
    ensures a + ([] + b) + (c + [w]) == a + b + c + [w]
  {
  }

  lemma LineKeptByRegister(m: Moment, n: Moment, tickets: set<nat>, id: string)
    requires MomentInv(m) && After(m, Proceed) == Some(n) && m.agenda[0].Do? && m.agenda[0].op.Register?
    requires OneId(m, tickets, id)
    ensures Among(Line(n), tickets) == Among(Line(m), tickets)
  {
    var id' := m.agenda[0].op.id;
    LineSteps(m, n);
    AmongLine(m, tickets);
    assert forall w :: w in m.book.pending || w in FiredBy(m.agenda) ==> w in Line(m);
    if id' == id {
      AmongNone(FiredBy(m.agenda), tickets);
    }
    PartsMoved(m.book.fired, FiredBy(m.agenda), m.book.pending, tickets, id', id' == id);
  }

  /** The waiting watchers of `id` come before those due: which matters to nobody if they all are, or none is, of
      that id. */
  lemma PartsMoved(fired: seq<Watcher>, due: seq<Watcher>, pending: seq<Watcher>, tickets: set<nat>, id: string,
                   mine: bool)
    requires forall w :: w in pending && w.ticket in tickets ==> (w.id == id <==> mine)
    requires mine ==> Among(due, tickets) == []
    ensures Among(fired + (Of(pending, id) + due) + Others(pending, id), tickets)
         == Among(fired, tickets) + Among(due, tickets) + Among(pending, tickets)
  {
    AmongJoin(fired + (Of(pending, id) + due), Others(pending, id), tickets);
    AmongJoin(fired, Of(pending, id) + due, tickets);
    AmongJoin(Of(pending, id), due, tickets);
    if mine {
      AmongOf(pending, id, tickets);
    } else {
      AmongOthers(pending, id, tickets);
    }
    Reordered(Among(fired, tickets), Among(Of(pending, id), tickets), Among(due, tickets),
              Among(Others(pending, id), tickets), Among(pending, tickets));
  }

  lemma Reordered(a: seq<Watcher>, b: seq<Watcher>, c: seq<Watcher>, d: seq<Watcher>, p: seq<Watcher>)
    requires (c == d == [] && b == p) || (b == [] && d == p)
    ensures a + (b + c) + d == a + c + p
  {
  }

  lemma LineKeptBySubscribe(m: Moment, n: Moment, tickets: set<nat>)
    requires After(m, Proceed) == Some(n) && m.agenda[0].Do? && m.agenda[0].op.Subscribe? && m.book.next !in tickets
    ensures Among(Line(n), tickets) == Among(Line(m), tickets)
  {
    var fired, due, pending := m.book.fired, FiredBy(m.agenda), m.book.pending;
    var w := Watcher(m.book.next, m.agenda[0].op.id, m.agenda[0].op.cb);
    LineSteps(m, n);
    AmongLine(m, tickets);
    if w.id in m.book.actions {
      AmongUnaffected(fired, due, pending, w, tickets);
    } else {
      AmongJoin(Line(m), [w], tickets);
      AmongNone([w], tickets);
    }
  }

  lemma AmongUnaffected(a: seq<Watcher>, b: seq<Watcher>, c: seq<Watcher>, w: Watcher, tickets: set<nat>)
    requires w.ticket !in tickets
    ensures Among(a + ([w] + b) + c, tickets) == Among(a, tickets) + Among(b, tickets) + Among(c, tickets)
  {
    assert ([w] + b)[1..] == b;
    assert Among([w] + b, tickets) == Among(b, tickets);
    AmongJoin(a + ([w] + b), c, tickets);
    AmongJoin(a, [w] + b, tickets);
  }

  lemma OneIdKept(m: Moment, event: Event, tickets: set<nat>, id: string)
    requires After(m, event).Some? && OneId(m, tickets, id) && m.book.next !in tickets
    ensures OneId(After(m, event).value, tickets, id)
  {
    var n := After(m, event).value;
    if event.Proceed? {
      LineSteps(m, n);
      if m.agenda[0].Do? && m.agenda[0].op.Register? {
        OthersWithin(m.book.pending, m.agenda[0].op.id);
        assert forall w :: w in m.book.pending ==> w in Line(m);
      }
    } else {
      assert FiredBy(m.agenda) == FiredBy(n.agenda) == [];
    }
  }

  lemma LineKept(m: Moment, event: Event, tickets: set<nat>, id: string)
    requires MomentInv(m) && After(m, event).Some? && OneId(m, tickets, id) && m.book.next !in tickets
    ensures Among(Line(After(m, event).value), tickets) == Among(Line(m), tickets)
  {
    var n := After(m, event).value;
    if event.Begin? {
      assert FiredBy(m.agenda) == FiredBy(n.agenda) == [];
    } else if m.agenda[0].Fire? {
      LineSteps(m, n);
    } else if m.agenda[0].op.Subscribe? {
      LineKeptBySubscribe(m, n, tickets);
    } else {
      LineKeptByRegister(m, n, tickets, id);
    }
  }

  /** Once in line, the watchers of one id keep their order for ever. */
  lemma {:induction false} OrderIsFixed(m: Moment, events: seq<Event>, n: Moment, tickets: set<nat>, id: string)
    requires MomentInv(m) && Leads(m, events, n) && OneId(m, tickets, id) && forall t :: t in tickets ==>
      t < m.book.next
    ensures Among(Line(n), tickets) == Among(Line(m), tickets)
    decreases |events|
  {
    if events != [] {
      MomentInvKept(m, events[0]);
      OneIdKept(m, events[0], tickets, id);
      LineKept(m, events[0], tickets, id);
      OrderIsFixed(After(m, events[0]).value, events[1..], n, tickets, id);
    }
  }

  // ----- waiting watchers are called back in the order of their tickets

  lemma {:induction false} AmongSole(watchers: seq<Watcher>, j: nat, tickets: set<nat>)
    requires j < |watchers| && watchers[j].ticket in tickets
    requires forall k :: 0 <= k < |watchers| && k != j ==> watchers[k].ticket !in tickets
    ensures Among(watchers, tickets) == [watchers[j]]
  {
    if j == 0 {
      AmongNone(watchers[1..], tickets);
    } else {
      AmongSole(watchers[1..], j - 1, tickets);
    }
  }

  lemma {:induction false} AmongPair(watchers: seq<Watcher>, i: nat, j: nat)
    requires i < j < |watchers| && Ascending(watchers)
    ensures Among(watchers, {watchers[i].ticket, watchers[j].ticket}) == [watchers[i], watchers[j]]
  {
    if i == 0 {
      AmongSole(watchers[1..], j - 1, {watchers[i].ticket, watchers[j].ticket});
    } else {
      AmongPair(watchers[1..], i - 1, j - 1);
    }
  }

  /** Who waits has not been called back and is not due, so their tickets are found among the waiting alone. */
  lemma WaitingAlone(m: Moment, k: nat)
    requires MomentInv(m) && k < |m.book.pending|
    ensures forall w :: w in m.book.fired || w in FiredBy(m.agenda) ==> w.ticket != m.book.pending[k].ticket
  {
    var ticket := m.book.pending[k].ticket;
    assert Accounted(m.book, m.agenda, ticket);
    CountsPresent(m.book.pending, k);
    CountFiredBy(m.agenda, ticket);
    forall w | w in m.book.fired ensures w.ticket != ticket {
      var p :| 0 <= p < |m.book.fired| && m.book.fired[p] == w;
      CountsPresent(m.book.fired, p);
    }
    forall w | w in FiredBy(m.agenda) ensures w.ticket != ticket {
      var p :| 0 <= p < |FiredBy(m.agenda)| && FiredBy(m.agenda)[p] == w;
      CountsPresent(FiredBy(m.agenda), p);
    }
  }

  lemma {:induction false} CountFiredBy(agenda: seq<Item>, ticket: nat)
    ensures CountFires(agenda, ticket) == Count(FiredBy(agenda), ticket)
  {
    if agenda != [] {
      CountFiredBy(agenda[1..], ticket);
      CountJoin(if agenda[0].Fire? then [agenda[0].watcher] else [], FiredBy(agenda[1..]), ticket);
    }
  }

  /** Of two that wait for one id at any moment of a history, the earlier subscriber stays ahead ever after: whatever
      callbacks do and however deep, it is called back first. */
  lemma WaitersCalledInOrder(m: Moment, events: seq<Event>, n: Moment, i: nat, j: nat)
    requires Reachable(m) && Leads(m, events, n)
    requires i < j < |m.book.pending| && m.book.pending[i].id == m.book.pending[j].id
    ensures m.book.pending[i].ticket < m.book.pending[j].ticket
    ensures var tickets := {m.book.pending[i].ticket, m.book.pending[j].ticket};
      Among(n.book.fired, tickets) + Among(FiredBy(n.agenda), tickets) + Among(n.book.pending, tickets)
        == [m.book.pending[i], m.book.pending[j]]
  {
    var tickets := {m.book.pending[i].ticket, m.book.pending[j].ticket};
    ReachableInv(m);
    PairWaits(m, i, j);
    OrderIsFixed(m, events, n, tickets, m.book.pending[i].id);
    AmongLine(n, tickets);
  }

  lemma PairWaits(m: Moment, i: nat, j: nat)
    requires MomentInv(m) && i < j < |m.book.pending| && m.book.pending[i].id == m.book.pending[j].id
    ensures var tickets := {m.book.pending[i].ticket, m.book.pending[j].ticket};
      Among(Line(m), tickets) == [m.book.pending[i], m.book.pending[j]] && OneId(m, tickets, m.book.pending[i].id)
  {
    var pending := m.book.pending;
    var tickets := {pending[i].ticket, pending[j].ticket};
    WaitingAlone(m, i);
    WaitingAlone(m, j);
    AmongPair(pending, i, j);
    AmongNone(m.book.fired, tickets);
    AmongNone(FiredBy(m.agenda), tickets);
    AmongLine(m, tickets);
    forall w | w in Line(m) && w.ticket in tickets ensures w.id == pending[i].id {
      assert w in pending;
    }
  }

  /** The same for whole operations of the users. */
  lemma HistoriesCallInOrder(before: seq<UserOp>, mid: Book, after: seq<UserOp>, final: Book, i: nat, j: nat)
    requires UserRun(EMPTY, before, mid) && UserRun(mid, after, final)
    requires i < j < |mid.pending| && mid.pending[i].id == mid.pending[j].id
    ensures mid.pending[i].ticket < mid.pending[j].ticket
    ensures var tickets := {mid.pending[i].ticket, mid.pending[j].ticket};
      Among(final.fired, tickets) + Among(final.pending, tickets) == [mid.pending[i], mid.pending[j]]
  {
    var first := UserRunLeads(EMPTY, before, mid);
    var second := UserRunLeads(mid, after, final);
    assert Reachable(Moment(mid, []));
    WaitersCalledInOrder(Moment(mid, []), second, Moment(final, []), i, j);
  }

  // ----- a registration at any depth

  function TicketsOf(watchers: seq<Watcher>): set<nat> {
    set w | w in watchers :: w.ticket
  }

  /** A registration, in a callback or not, has called back everybody who waited for it, in the order of their
      subscriptions, when the operation it belongs to is over. */
  lemma RegistrationNotifiesInOrder(m: Moment, id: string, action: nat, typeName: string)
    requires Reachable(m) && m.agenda != [] && m.agenda[0] == Do(Register(id, Some(action), typeName))
    requires Play(m.book, m.agenda).Done?
    ensures var final, waiting := Play(m.book, m.agenda).book, Of(m.book.pending, id);
      id in final.actions && Ascending(waiting) && Among(final.fired, TicketsOf(waiting)) == waiting
  {
    var n, waiting := Moment(Play(m.book, m.agenda).book, []), Of(m.book.pending, id);
    var tickets := TicketsOf(waiting);
    ReachableInv(m);
    OthersAscend(m.book.pending, id);
    var events := PlayLeads(m.book, m.agenda);
    WaitersOnly(m, id);
    OrderIsFixed(m, events, n, tickets, id);
    AmongLine(n, tickets);
    LeadsKeepsInv(m, events, n);
    OneIdLeads(m, events, n, tickets, id);
    RegisteredStays(m);
    forall w | w in n.book.pending ensures w.ticket !in tickets {
      assert w in Line(n);
    }
    AmongNone(n.book.pending, tickets);
  }

  /** The watchers waiting for an id, found in the line by their tickets. */
  lemma WaitersOnly(m: Moment, id: string)
    requires MomentInv(m)
    ensures var waiting := Of(m.book.pending, id);
      Among(Line(m), TicketsOf(waiting)) == waiting && OneId(m, TicketsOf(waiting), id)
      && forall t :: t in TicketsOf(waiting) ==> t < m.book.next
  {
    var pending, waiting := m.book.pending, Of(m.book.pending, id);
    var tickets := TicketsOf(waiting);
    OthersWithin(pending, id);
    TicketsApart(m, id);
    AmongNone(m.book.fired, tickets);
    AmongNone(FiredBy(m.agenda), tickets);
    AmongLine(m, tickets);
    AmongOf(pending, id, tickets);
    AmongAll(waiting, tickets);
  }

  lemma TicketsApart(m: Moment, id: string)
    requires MomentInv(m)
    ensures var tickets := TicketsOf(Of(m.book.pending, id));
      && (forall w :: w in m.book.fired || w in FiredBy(m.agenda) ==> w.ticket !in tickets)
      && (forall w :: w in m.book.pending && w.ticket in tickets ==> w.id == id)
      && forall t :: t in tickets ==> t < m.book.next
  {
    var pending, waiting := m.book.pending, Of(m.book.pending, id);
    OthersWithin(pending, id);
    forall v | v in waiting
      ensures v.ticket < m.book.next
      ensures forall w :: w in m.book.fired || w in FiredBy(m.agenda) ==> w.ticket != v.ticket
      ensures forall w :: w in pending && w.ticket == v.ticket ==> w.id == id
    {
      var k :| 0 <= k < |pending| && pending[k] == v;
      WaitingAlone(m, k);
    }
  }

  lemma {:induction false} OneIdLeads(m: Moment, events: seq<Event>, n: Moment, tickets: set<nat>, id: string)
    requires MomentInv(m) && Leads(m, events, n) && OneId(m, tickets, id) && forall t :: t in tickets ==>
      t < m.book.next
    ensures OneId(n, tickets, id)
    decreases |events|
  {
    if events != [] {
      MomentInvKept(m, events[0]);
      OneIdKept(m, events[0], tickets, id);
      OneIdLeads(After(m, events[0]).value, events[1..], n, tickets, id);
    }
  }

  /** The id that is being registered stays registered to the end of the operation. */
  lemma RegisteredStays(m: Moment)
    requires MomentInv(m) && m.agenda != [] && m.agenda[0].Do? && m.agenda[0].op.Register?
    requires Play(m.book, m.agenda).Done?
    ensures m.agenda[0].op.id in Play(m.book, m.agenda).book.actions
  {
    var (book, more) := Advance(m.book, m.agenda[0]).value;
    AdvanceGrows(m.book, m.agenda[0]);
    PlayGrows(book, more + m.agenda[1..]);
  }

  // ----- where a new subscriber comes

  /** A new subscriber comes behind an earlier subscriber of the same id, for ever, if and only if the callback of the
      earlier one is not due at that moment: it overtakes those whom a notification under way has still to reach. */
  lemma SubscriberComesLast(m: Moment, id: string, cb: Callback, v: Watcher, events: seq<Event>, n: Moment)
    requires Reachable(m) && m.agenda != [] && m.agenda[0] == Do(Subscribe(id, cb))
    requires v in Line(m) && v.id == id
    requires Leads(After(m, Proceed).value, events, n)
    ensures var w := Watcher(m.book.next, id, cb);
      Among(Line(n), {v.ticket, w.ticket}) == if v in FiredBy(m.agenda) then [w, v] else [v, w]
  {
    var w, next := Watcher(m.book.next, id, cb), After(m, Proceed).value;
    ReachableInv(m);
    MomentInvKept(m, Proceed);
    Enters(m, next, v, w);
    PairOfOneId(m, next, v, w);
    OrderIsFixed(next, events, n, {v.ticket, w.ticket}, id);
  }

  lemma {:induction false} AmongCounted(watchers: seq<Watcher>, v: Watcher, other: nat)
    requires other != v.ticket && Count(watchers, other) == 0 && Count(watchers, v.ticket) <= 1
    ensures v in watchers ==> Count(watchers, v.ticket) == 1 && Among(watchers, {v.ticket, other}) == [v]
    ensures Count(watchers, v.ticket) == 0 ==> Among(watchers, {v.ticket, other}) == []
  {
    if watchers != [] {
      AmongCounted(watchers[1..], v, other);
    }
  }

  /** A watcher in line is at one place of one part of it, and its ticket is lower than the next. */
  lemma OnePlace(m: Moment, v: Watcher)
    requires MomentInv(m) && v in Line(m)
    ensures v.ticket < m.book.next
    ensures var tickets, fired := {v.ticket, m.book.next}, m.book.fired;
      var due, pending := FiredBy(m.agenda), m.book.pending;
      || (v in fired && v !in due && v !in pending
          && Among(fired, tickets) == [v] && Among(due, tickets) == Among(pending, tickets) == [])
      || (v in due && v !in fired && v !in pending
          && Among(due, tickets) == [v] && Among(fired, tickets) == Among(pending, tickets) == [])
      || (v in pending && v !in due && v !in fired
          && Among(pending, tickets) == [v] && Among(fired, tickets) == Among(due, tickets) == [])
  {
    var fired, due, pending := m.book.fired, FiredBy(m.agenda), m.book.pending;
    assert Accounted(m.book, m.agenda, v.ticket) && Accounted(m.book, m.agenda, m.book.next);
    CountFiredBy(m.agenda, v.ticket);
    CountFiredBy(m.agenda, m.book.next);
    Counted(fired, v);
    Counted(due, v);
    Counted(pending, v);
    AmongCounted(fired, v, m.book.next);
    AmongCounted(due, v, m.book.next);
    AmongCounted(pending, v, m.book.next);
  }

  lemma Counted(watchers: seq<Watcher>, v: Watcher)
    ensures v in watchers ==> Count(watchers, v.ticket) >= 1
  {
    if k :| 0 <= k < |watchers| && watchers[k] == v {
      CountsPresent(watchers, k);
    }
  }

  /** The two in the line after the subscription. */
  lemma Enters(m: Moment, n: Moment, v: Watcher, w: Watcher)
    requires MomentInv(m) && After(m, Proceed) == Some(n) && v in Line(m) && v.id == w.id
    requires m.agenda[0] == Do(Subscribe(w.id, w.cb)) && w.ticket == m.book.next
    ensures v.ticket < w.ticket
    ensures Among(Line(n), {v.ticket, w.ticket}) == if v in FiredBy(m.agenda) then [w, v] else [v, w]
  {
    var tickets := {v.ticket, w.ticket};
    OnePlace(m, v);
    LineSteps(m, n);
    if w.id in m.book.actions {
      assert v !in m.book.pending;
      AmongInserted(m.book.fired, FiredBy(m.agenda), m.book.pending, w, tickets);
      Around(Among(m.book.fired, tickets), Among(FiredBy(m.agenda), tickets), [], v, w);
    } else {
      assert v !in FiredBy(m.agenda);
      EntersAtTheEnd(m, v, w);
    }
  }

  lemma EntersAtTheEnd(m: Moment, v: Watcher, w: Watcher)
    requires MomentInv(m) && v in Line(m) && w.ticket == m.book.next
    ensures Among(Line(m) + [w], {v.ticket, w.ticket}) == [v, w]
  {
    var tickets := {v.ticket, w.ticket};
    OnePlace(m, v);
    AmongLine(m, tickets);
    AmongJoin(Line(m), [w], tickets);
    assert Among([w], tickets) == [w];
    Alone(Among(m.book.fired, tickets), Among(FiredBy(m.agenda), tickets), Among(m.book.pending, tickets), v);
  }

  lemma Alone(a: seq<Watcher>, b: seq<Watcher>, c: seq<Watcher>, v: Watcher)
    requires (a == [v] && b == c == []) || (b == [v] && a == c == []) || (c == [v] && a == b == [])
    ensures a + b + c == [v]
  {
  }

  lemma Around(a: seq<Watcher>, b: seq<Watcher>, c: seq<Watcher>, v: Watcher, w: Watcher)
    ensures a == [v] && b == c == [] ==> a + ([w] + b) + c == [v, w]
    ensures b == [v] && a == c == [] ==> a + ([w] + b) + c == [w, v]
  {
  }

  lemma AmongInserted(a: seq<Watcher>, b: seq<Watcher>, c: seq<Watcher>, w: Watcher, tickets: set<nat>)
    requires w.ticket in tickets
    ensures Among(a + ([w] + b) + c, tickets) == Among(a, tickets) + ([w] + Among(b, tickets)) + Among(c, tickets)
  {
    AmongJoin(a + ([w] + b), c, tickets);
    AmongJoin(a, [w] + b, tickets);
    AmongJoin([w], b, tickets);
    assert Among([w], tickets) == [w];
  }

  lemma PairOfOneId(m: Moment, n: Moment, v: Watcher, w: Watcher)
    requires MomentInv(m) && After(m, Proceed) == Some(n) && v in Line(m) && v.id == w.id
    requires m.agenda[0] == Do(Subscribe(w.id, w.cb)) && w.ticket == m.book.next
    ensures OneId(n, {v.ticket, w.ticket}, w.id)
  {
    LineSteps(m, n);
    forall u | u in Line(n) && u.ticket in {v.ticket, w.ticket} ensures u.id == w.id {
      if u != w {
        assert u in Line(m);
        OnePlace(m, u);
        OnePlace(m, v);
        SameTicket(m, u, v);
      }
    }
  }

  lemma SameTicket(m: Moment, u: Watcher, v: Watcher)
    requires MomentInv(m) && u in Line(m) && v in Line(m) && u.ticket == v.ticket
    ensures u == v
  {
    OnePlace(m, u);
    OnePlace(m, v);
    assert [u][0] == u && [v][0] == v;
  }

  /** Callers outside callbacks never overtake: nothing is due when their subscription comes. */
  lemma OutsideSubscriberComesLast(m: Moment, id: string, cb: Callback, v: Watcher, events: seq<Event>, n: Moment)
    requires Reachable(m) && m.agenda == [] && v in Line(m) && v.id == id
    requires Leads(Moment(m.book, [Do(Subscribe(id, cb))]), [Proceed] + events, n)
    ensures Among(Line(n), {v.ticket, m.book.next}) == [v, Watcher(m.book.next, id, cb)]
  {
    var begun := Moment(m.book, [Do(Subscribe(id, cb))]);
    ReachableNext(m, Begin(Perform(Subscribe(id, cb))), begun);
    assert ([Proceed] + events)[1..] == events;
    assert FiredBy(m.agenda) == FiredBy(begun.agenda) == [];
    SubscriberComesLast(begun, id, cb, v, events, n);
  }

  lemma ReachableNext(m: Moment, event: Event, n: Moment)
    requires Reachable(m) && After(m, event) == Some(n)
    ensures Reachable(n)
  {
    var before: seq<Event> :| Leads(Moment(EMPTY, []), before, m);
    assert Leads(n, [], n);
    assert Leads(m, [event], n);
    LeadsJoin(Moment(EMPTY, []), before, m, [event], n);
  }

  ghost predicate OutOfOrder(m: Moment, id: string) {
    && m.agenda == [] && |m.book.fired| == 3 && (forall w :: w in m.book.fired ==> w.id == id)
    && m.book.fired[0].ticket == 0 && m.book.fired[1].ticket == 2 && m.book.fired[2].ticket == 1
  }

  /** Overtaking happens: a watcher of "a" that subscribes to "a" when called back has its own watcher called back
      before one that subscribed earlier. */
  lemma LateSubscriberOvertakes()
    ensures exists m :: Reachable(m) && OutOfOrder(m, "a")
  {
    var idle, eager := Callback([]), Callback([Subscribe("a", Callback([]))]);
    var first, second := Watcher(0, "a", eager), Watcher(1, "a", idle);
    var start, waiting := Moment(EMPTY, []), Moment(Book(map[], [first, second], [], 2), []);
    assert Leads(start, [], start);
    ReachableSubscribe(EMPTY, "a", eager, [first]);
    ReachableSubscribe(Book(map[], [first], [], 1), "a", idle, [first, second]);
    var op := Register("a", Some(7), "t");
    ReachableNext(waiting, Begin(Perform(op)), Moment(waiting.book, [Do(op)]));
    NotifyingTwo(waiting.book, first, second);
    assert [Fire(first)] + [Fire(second)] == [Fire(first), Fire(second)];
    Overtaken(Book(map["a" := Action(7, "t")], [], [], 2), first, second);
  }

  lemma ReachableSubscribe(book: Book, id: string, cb: Callback, pending: seq<Watcher>)
    requires Reachable(Moment(book, [])) && id !in book.actions
    requires pending == book.pending + [Watcher(book.next, id, cb)]
    ensures Reachable(Moment(Book(book.actions, pending, book.fired, book.next + 1), []))
  {
    var begun, rest := Moment(book, [Do(Subscribe(id, cb))]), [Do(Subscribe(id, cb))][1..];
    ReachableNext(Moment(book, []), Begin(Perform(Subscribe(id, cb))), begun);
    assert [] + rest == [];
    ReachableNext(begun, Proceed, Moment(Book(book.actions, pending, book.fired, book.next + 1), []));
  }

  lemma HeadOf(head: Watcher, tail: seq<Watcher>, id: string)
    requires head.id == id
    ensures Of([head] + tail, id) == [head] + Of(tail, id) && Others([head] + tail, id) == Others(tail, id)
    ensures Fires([head] + tail) == [Fire(head)] + Fires(tail)
  {
    assert ([head] + tail)[1..] == tail;
  }

  lemma NotifyingTwo(book: Book, first: Watcher, second: Watcher)
    requires book == Book(map[], [first, second], [], 2) && first.id == second.id == "a"
    requires Reachable(Moment(book, [Do(Register("a", Some(7), "t"))]))
    ensures Reachable(Moment(Book(map["a" := Action(7, "t")], [], [], 2), [Fire(first), Fire(second)]))
  {
    WaitingTwo(first, second);
    RegisterNext(book, Register("a", Some(7), "t"), [first, second], []);
    assert map[]["a" := Action(7, "t")] == map["a" := Action(7, "t")];
  }

  lemma WaitingTwo(first: Watcher, second: Watcher)
    requires first.id == second.id
    ensures Of([first, second], first.id) == [first, second] && Others([first, second], first.id) == []
    ensures Fires([first, second]) == [Fire(first), Fire(second)]
  {
    HeadOf(first, [second], first.id);
    HeadOf(second, [], first.id);
    assert [first] + [second] == [first, second] && [second] + [] == [second];
  }

  lemma RegisterNext(book: Book, op: Op, waiting: seq<Watcher>, others: seq<Watcher>)
    requires Reachable(Moment(book, [Do(op)])) && op.Register? && op.action.Some? && op.id !in book.actions
    requires waiting == Of(book.pending, op.id) && others == Others(book.pending, op.id)
    ensures Reachable(Moment(book.(actions := book.actions[op.id := Action(op.action.value, op.typeName)],
                                   pending := others),
                             Fires(waiting)))
  {
    assert Fires(waiting) + [Do(op)][1..] == Fires(waiting);
    ReachableNext(Moment(book, [Do(op)]), Proceed,
                  Moment(book.(actions := book.actions[op.id := Action(op.action.value, op.typeName)],
                               pending := others),
                         Fires(waiting)));
  }

  /** The first watcher's callback subscribes anew, and the new watcher is called back at once, before the second. */
  lemma Overtaken(book: Book, first: Watcher, second: Watcher)
    requires "a" in book.actions && book.fired == [] && book.next == 2
    requires first == Watcher(0, "a", Callback([Subscribe("a", Callback([]))]))
    requires second == Watcher(1, "a", Callback([]))
    requires Reachable(Moment(book, [Fire(first)] + [Fire(second)]))
    ensures exists m :: Reachable(m) && OutOfOrder(m, "a")
  {
    var op, third := Subscribe("a", Callback([])), Watcher(2, "a", Callback([]));
    assert [op][1..] == [] && Dos([op]) == [Do(op)];
    FireNext(book, first, [Fire(second)], [Do(op)], [first]);
    SubscribeNext(book.(fired := [first]), op, [Fire(second)], third);
    FireNext(book.(fired := [first], next := 3), third, [Fire(second)], [], [first, third]);
    assert [] + [Fire(second)] == [Fire(second)] + [];
    FireNext(book.(fired := [first, third], next := 3), second, [], [], [first, third, second]);
    assert OutOfOrder(Moment(book.(fired := [first, third, second], next := 3), []), "a");
  }

  lemma FireNext(book: Book, watcher: Watcher, rest: seq<Item>, more: seq<Item>, fired: seq<Watcher>)
    requires Reachable(Moment(book, [Fire(watcher)] + rest))
    requires more == Dos(watcher.cb.ops) && fired == book.fired + [watcher]
    ensures Reachable(Moment(book.(fired := fired), more + rest))
  {
    assert ([Fire(watcher)] + rest)[1..] == rest;
    ReachableNext(Moment(book, [Fire(watcher)] + rest), Proceed, Moment(book.(fired := fired), more + rest));
  }

  lemma SubscribeNext(book: Book, op: Op, rest: seq<Item>, watcher: Watcher)
    requires Reachable(Moment(book, [Do(op)] + rest))
    requires op.Subscribe? && op.id in book.actions && watcher == Watcher(book.next, op.id, op.cb)
    ensures Reachable(Moment(book.(next := book.next + 1), [Fire(watcher)] + rest))
  {
    assert ([Do(op)] + rest)[1..] == rest;
    ReachableNext(Moment(book, [Do(op)] + rest), Proceed, Moment(book.(next := book.next + 1), [Fire(watcher)] + rest));
  }
}
