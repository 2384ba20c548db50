/**
  The registry of typed actions and of the watchers waiting for registrations. Every operation runs under one
  recursive lock, so threads are serialised, but a watcher's callback may come back into the registry.

  `Play` says what an agenda of operations and callbacks does to an abstract book; the class of the
  registry does it with the source's two maps, iterating over a list of watchers that lives in one of them.
 */
module Registry {
  import opened Wrappers

  /** What a watcher does when it is called back: a finite tree of further operations. */
  datatype Callback = Callback(ops: seq<Op>)

  /** An operation; `action` is `None` for an empty function object. */
  datatype Op = Subscribe(id: string, cb: Callback) | Register(id: string, action: Option<nat>, typeName: string)

  /** One subscription; `ticket` is its position in the order of subscriptions. */
  datatype Watcher = Watcher(ticket: nat, id: string, cb: Callback)

  datatype Action = Action(code: nat, typeName: string)

  /** What is registered, who waits, who has been called back, and the next ticket. */
  datatype Book = Book(actions: map<string, Action>, pending: seq<Watcher>, fired: seq<Watcher>, next: nat)

  const EMPTY: Book := Book(map[], [], [], 0)

  datatype Item = Do(op: Op) | Fire(watcher: Watcher)

  /** A registration may throw; the exception then leaves every operation under way, and the book as it is. */
  datatype Outcome = Done(book: Book) | Threw(book: Book)

  // ----- sizes

  function OpSize(op: Op): nat {
    match op
    case Subscribe(_, cb) => 1 + CallbackSize(cb)
    case Register(_, _, _) => 1
  }

  function OpsSize(ops: seq<Op>): nat {
    if ops == [] then 0 else OpSize(ops[0]) + OpsSize(ops[1..])
  }

  function CallbackSize(cb: Callback): nat {
    1 + OpsSize(cb.ops)
  }

  function WatchersSize(watchers: seq<Watcher>): nat {
    if watchers == [] then 0 else CallbackSize(watchers[0].cb) + WatchersSize(watchers[1..])
  }

  function ItemSize(item: Item): nat {
    match item
    case Do(op) => OpSize(op)
    case Fire(watcher) => CallbackSize(watcher.cb)
  }

  function AgendaSize(agenda: seq<Item>): nat {
    if agenda == [] then 0 else ItemSize(agenda[0]) + AgendaSize(agenda[1..])
  }

  // ----- what an agenda does

  /** The watchers of `id`, in the order of subscription. */
  function Of(watchers: seq<Watcher>, id: string): seq<Watcher> {
    if watchers == [] then []
    else (if watchers[0].id == id then [watchers[0]] else []) + Of(watchers[1..], id)
  }

  function Others(watchers: seq<Watcher>, id: string): seq<Watcher> {
    if watchers == [] then []
    else (if watchers[0].id == id then [] else [watchers[0]]) + Others(watchers[1..], id)
  }

  function Fires(watchers: seq<Watcher>): seq<Item> {
    if watchers == [] then [] else [Fire(watchers[0])] + Fires(watchers[1..])
  }

  function Dos(ops: seq<Op>): seq<Item> {
    if ops == [] then [] else [Do(ops[0])] + Dos(ops[1..])
  }

  /** One item: the book after it, and what has to be played before the rest of the agenda. */
  function Advance(book: Book, item: Item): Option<(Book, seq<Item>)> {
    match item
    case Do(Subscribe(id, cb)) =>
      var watcher, book' := Watcher(book.next, id, cb), book.(next := book.next + 1);
      if id in book.actions then Some((book', [Fire(watcher)]))
      else Some((book'.(pending := book.pending + [watcher]), []))
    case Do(Register(id, action, typeName)) =>
      if action.None? || id in book.actions then None
      else Some((book.(actions := book.actions[id := Action(action.value, typeName)],
                       pending := Others(book.pending, id)),
                 Fires(Of(book.pending, id))))
    case Fire(watcher) => Some((book.(fired := book.fired + [watcher]), Dos(watcher.cb.ops)))
  }

  function Play(book: Book, agenda: seq<Item>): Outcome
    decreases WatchersSize(book.pending) + AgendaSize(agenda)
  {
    if agenda == [] then Done(book)
    else
      match Advance(book, agenda[0])
      case None => Threw(book)
      case Some((book', first)) =>
        AdvanceShrinks(book, agenda[0], agenda[1..]);
        Play(book', first + agenda[1..])
  }

  lemma PlayOne(book: Book, item: Item)
    ensures Play(book, [item]) ==
      match Advance(book, item) case None => Threw(book) case Some((book', first)) => Play(book', first)
  {
    if Advance(book, item).Some? {
      var first := Advance(book, item).value.1;
      assert first + [item][1..] == first;
    }
  }

  lemma AdvanceShrinks(book: Book, item: Item, rest: seq<Item>)
    requires Advance(book, item).Some?
    ensures WatchersSize(Advance(book, item).value.0.pending) + AgendaSize(Advance(book, item).value.1 + rest)
         == WatchersSize(book.pending) + ItemSize(item) + AgendaSize(rest) - 1
  {
    match item
    case Do(Subscribe(id, cb)) =>
      var watcher := Watcher(book.next, id, cb);
      AgendaJoin([Fire(watcher)], rest);
      WatchersJoin(book.pending, [watcher]);
      assert [] + rest == rest;
    case Do(Register(id, _, _)) =>
      PartitionSize(book.pending, id);
      FiresSize(Of(book.pending, id));
      AgendaJoin(Fires(Of(book.pending, id)), rest);
    case Fire(watcher) =>
      DosSize(watcher.cb.ops);
      AgendaJoin(Dos(watcher.cb.ops), rest);
  }

  lemma {:induction false} AgendaJoin(a: seq<Item>, b: seq<Item>)
    ensures AgendaSize(a + b) == AgendaSize(a) + AgendaSize(b)
  {
    if a == [] {
      assert a + b == b;
    } else {
      AgendaJoin(a[1..], b);
      assert (a + b)[0] == a[0] && (a + b)[1..] == a[1..] + b;
    }
  }

  lemma {:induction false} WatchersJoin(a: seq<Watcher>, b: seq<Watcher>)
    ensures WatchersSize(a + b) == WatchersSize(a) + WatchersSize(b)
  {
    if a == [] {
      assert a + b == b;
    } else {
      WatchersJoin(a[1..], b);
      assert (a + b)[0] == a[0] && (a + b)[1..] == a[1..] + b;
    }
  }

  lemma {:induction false} DosSize(ops: seq<Op>)
    ensures AgendaSize(Dos(ops)) == OpsSize(ops)
  {
    if ops != [] {
      DosSize(ops[1..]);
    }
  }

  lemma {:induction false} FiresSize(watchers: seq<Watcher>)
    ensures AgendaSize(Fires(watchers)) == WatchersSize(watchers)
  {
    if watchers != [] {
      FiresSize(watchers[1..]);
    }
  }

  lemma {:induction false} PartitionSize(watchers: seq<Watcher>, id: string)
    ensures WatchersSize(Of(watchers, id)) + WatchersSize(Others(watchers, id)) == WatchersSize(watchers)
  {
    if watchers != [] {
      var head, tail := watchers[0], watchers[1..];
      PartitionSize(tail, id);
      if head.id == id {
        assert Others(watchers, id) == Others(tail, id);
        WatchersJoin([head], Of(tail, id));
      } else {
        assert Of(watchers, id) == Of(tail, id);
        WatchersJoin([head], Others(tail, id));
      }
    }
  }

  // ----- laws of agendas

  /** Operations are done in the order in which they are listed. */
  lemma {:induction false} DoneInOrder(ops: seq<Op>)
    ensures |Dos(ops)| == |ops| && forall k :: 0 <= k < |ops| ==> Dos(ops)[k] == Do(ops[k])
  {
    if ops != [] {
      DoneInOrder(ops[1..]);
    }
  }

  /** So are callbacks. */
  lemma {:induction false} FiredInOrder(watchers: seq<Watcher>)
    ensures |Fires(watchers)| == |watchers|
    ensures forall k :: 0 <= k < |watchers| ==> Fires(watchers)[k] == Fire(watchers[k])
  {
    if watchers != [] {
      FiredInOrder(watchers[1..]);
    }
  }

  /** Playing an agenda in two parts. */
  lemma {:induction false} PlayJoin(book: Book, first: seq<Item>, second: seq<Item>)
    ensures Play(book, first + second) ==
      match Play(book, first) case Threw(book') => Threw(book') case Done(book') => Play(book', second)
    decreases WatchersSize(book.pending) + AgendaSize(first)
  {
    if first == [] {
      assert first + second == second;
    } else {
      TailOfJoin(first, second);
      match Advance(book, first[0])
      case None =>
      case Some((book', more)) =>
        AdvanceShrinks(book, first[0], first[1..]);
        PlayJoin(book', more + first[1..], second);
        Regroup(more, first[1..], second);
    }
  }

  lemma TailOfJoin(first: seq<Item>, second: seq<Item>)
    requires first != []
    ensures (first + second)[0] == first[0] && (first + second)[1..] == first[1..] + second
  {
  }

  lemma Regroup(a: seq<Item>, b: seq<Item>, c: seq<Item>)
    ensures a + (b + c) == a + b + c
  {
  }

  ghost predicate Grows(book: Book, book': Book) {
    && book.fired <= book'.fired && book.next <= book'.next
    && (forall id :: id in book.actions ==> id in book'.actions && book'.actions[id] == book.actions[id])
  }

  /** No id is both registered and awaited. */
  ghost predicate Settled(book: Book) {
    forall k :: 0 <= k < |book.pending| ==> book.pending[k].id !in book.actions
  }

  /** Nothing is forgotten, settled books stay settled, and what waits is bounded by what there was to do. */
  lemma {:induction false} PlayGrows(book: Book, agenda: seq<Item>)
    requires Settled(book)
    ensures Grows(book, Play(book, agenda).book) && Settled(Play(book, agenda).book)
    ensures WatchersSize(Play(book, agenda).book.pending) <= WatchersSize(book.pending) + AgendaSize(agenda)
    decreases WatchersSize(book.pending) + AgendaSize(agenda)
  {
    if agenda != [] && Advance(book, agenda[0]).Some? {
      var (book', more) := Advance(book, agenda[0]).value;
      AdvanceShrinks(book, agenda[0], agenda[1..]);
      AdvanceGrows(book, agenda[0]);
      PlayGrows(book', more + agenda[1..]);
    }
  }

  lemma AdvanceGrows(book: Book, item: Item)
    requires Settled(book) && Advance(book, item).Some?
    ensures Grows(book, Advance(book, item).value.0) && Settled(Advance(book, item).value.0)
  {
    if item.Do? && item.op.Register? {
      OthersWithin(book.pending, item.op.id);
    }
  }

  lemma {:induction false} OthersWithin(watchers: seq<Watcher>, id: string)
    ensures forall w :: w in Others(watchers, id) <==> w in watchers && w.id != id
    ensures forall w :: w in Of(watchers, id) <==> w in watchers && w.id == id
  {
    if watchers != [] {
      OthersWithin(watchers[1..], id);
    }
  }
}
