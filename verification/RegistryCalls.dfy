/**
  What re-entrant registrations do to the watchers: each is called back at most once, those due in the order in which
  they are due, and over whole histories of users' operations none is forgotten.
 */
module RegistryCalls {
  import opened Wrappers
  import opened Registry

  // ----- each watcher is called back at most once

  function Count(watchers: seq<Watcher>, ticket: nat): nat {
    if watchers == [] then 0 else (if watchers[0].ticket == ticket then 1 else 0) + Count(watchers[1..], ticket)
  }

  function CountFires(agenda: seq<Item>, ticket: nat): nat {
    if agenda == [] then 0
    else (if agenda[0].Fire? && agenda[0].watcher.ticket == ticket then 1 else 0) + CountFires(agenda[1..], ticket)
  }

  /** A ticket that was handed out has been called back, waits, or is about to be called back: one of them, once. */
  ghost predicate Accounted(book: Book, agenda: seq<Item>, ticket: nat) {
    Count(book.fired, ticket) + Count(book.pending, ticket) + CountFires(agenda, ticket)
      == if ticket < book.next then 1 else 0
  }

  lemma {:induction false} CountJoin(a: seq<Watcher>, b: seq<Watcher>, ticket: nat)
    ensures Count(a + b, ticket) == Count(a, ticket) + Count(b, ticket)
  {
    if a == [] {
      assert a + b == b;
    } else {
      CountJoin(a[1..], b, ticket);
      assert (a + b)[0] == a[0] && (a + b)[1..] == a[1..] + b;
    }
  }

  lemma {:induction false} CountFiresJoin(a: seq<Item>, b: seq<Item>, ticket: nat)
    ensures CountFires(a + b, ticket) == CountFires(a, ticket) + CountFires(b, ticket)
  {
    if a == [] {
      assert a + b == b;
    } else {
      CountFiresJoin(a[1..], b, ticket);
      assert (a + b)[0] == a[0] && (a + b)[1..] == a[1..] + b;
    }
  }

  lemma {:induction false} CountPartition(watchers: seq<Watcher>, id: string, ticket: nat)
    ensures Count(Of(watchers, id), ticket) + Count(Others(watchers, id), ticket) == Count(watchers, ticket)
  {
    if watchers != [] {
      var head, tail := watchers[0], watchers[1..];
      CountPartition(tail, id, ticket);
      if head.id == id {
        assert Others(watchers, id) == Others(tail, id);
        CountJoin([head], Of(tail, id), ticket);
      } else {
        assert Of(watchers, id) == Of(tail, id);
        CountJoin([head], Others(tail, id), ticket);
      }
    }
  }

  lemma {:induction false} CountFired(watchers: seq<Watcher>, ticket: nat)
    ensures CountFires(Fires(watchers), ticket) == Count(watchers, ticket)
  {
    if watchers != [] {
      CountFired(watchers[1..], ticket);
    }
  }

  lemma {:induction false} CountsPresent(watchers: seq<Watcher>, k: nat)
    requires k < |watchers|
    ensures Count(watchers, watchers[k].ticket) >= 1
  {
    if k > 0 {
      CountsPresent(watchers[1..], k - 1);
    }
  }

  lemma {:induction false} DosFireNothing(ops: seq<Op>, ticket: nat)
    ensures CountFires(Dos(ops), ticket) == 0
  {
    if ops != [] {
      DosFireNothing(ops[1..], ticket);
    }
  }

  lemma AdvanceAccounts(book: Book, item: Item, rest: seq<Item>, ticket: nat)
    requires Advance(book, item).Some? && Accounted(book, [item] + rest, ticket)
    ensures Accounted(Advance(book, item).value.0, Advance(book, item).value.1 + rest, ticket)
  {
    var (book', more) := Advance(book, item).value;
    CountFiresJoin([item], rest, ticket);
    CountFiresJoin(more, rest, ticket);
    match item
    case Do(Subscribe(id, cb)) => CountJoin(book.pending, [Watcher(book.next, id, cb)], ticket);
    case Do(Register(id, _, _)) =>
      CountPartition(book.pending, id, ticket);
      CountFired(Of(book.pending, id), ticket);
    case Fire(watcher) =>
      CountJoin(book.fired, [watcher], ticket);
      DosFireNothing(watcher.cb.ops, ticket);
  }

  /** However deep callbacks come back into the registry, every subscription is called back exactly once or still
      waits. */
  lemma {:induction false} CalledBackAtMostOnce(book: Book, agenda: seq<Item>, ticket: nat)
    requires Accounted(book, agenda, ticket) && Play(book, agenda).Done?
    ensures Accounted(Play(book, agenda).book, [], ticket)
    decreases WatchersSize(book.pending) + AgendaSize(agenda)
  {
    if agenda != [] {
      var (book', more) := Advance(book, agenda[0]).value;
      AdvanceShrinks(book, agenda[0], agenda[1..]);
      assert agenda == [agenda[0]] + agenda[1..];
      AdvanceAccounts(book, agenda[0], agenda[1..], ticket);
      CalledBackAtMostOnce(book', more + agenda[1..], ticket);
    }
  }

  // ----- callbacks come in the order of subscription

  /** The watchers whose tickets are in `tickets`, in the order they come. */
  function Among(watchers: seq<Watcher>, tickets: set<nat>): seq<Watcher> {
    if watchers == [] then []
    else (if watchers[0].ticket in tickets then [watchers[0]] else []) + Among(watchers[1..], tickets)
  }

  function FiredBy(agenda: seq<Item>): seq<Watcher> {
    if agenda == [] then [] else (if agenda[0].Fire? then [agenda[0].watcher] else []) + FiredBy(agenda[1..])
  }

  lemma {:induction false} AmongJoin(a: seq<Watcher>, b: seq<Watcher>, tickets: set<nat>)
    ensures Among(a + b, tickets) == Among(a, tickets) + Among(b, tickets)
  {
    if a == [] {
      assert a + b == b;
    } else {
      AmongJoin(a[1..], b, tickets);
      assert (a + b)[0] == a[0] && (a + b)[1..] == a[1..] + b;
      var first := if a[0].ticket in tickets then [a[0]] else [];
      assert first + (Among(a[1..], tickets) + Among(b, tickets))
          == (first + Among(a[1..], tickets)) + Among(b, tickets);
    }
  }

  lemma {:induction false} FiredByJoin(a: seq<Item>, b: seq<Item>)
    ensures FiredBy(a + b) == FiredBy(a) + FiredBy(b)
  {
    if a == [] {
      assert a + b == b;
    } else {
      FiredByJoin(a[1..], b);
      assert (a + b)[0] == a[0] && (a + b)[1..] == a[1..] + b;
      var first := if a[0].Fire? then [a[0].watcher] else [];
      assert first + (FiredBy(a[1..]) + FiredBy(b)) == (first + FiredBy(a[1..])) + FiredBy(b);
    }
  }

  lemma {:induction false} FiredByFires(watchers: seq<Watcher>)
    ensures FiredBy(Fires(watchers)) == watchers
  {
    if watchers != [] {
      FiredByFires(watchers[1..]);
    }
  }

  lemma {:induction false} FiredByDos(ops: seq<Op>)
    ensures FiredBy(Dos(ops)) == []
  {
    if ops != [] {
      FiredByDos(ops[1..]);
    }
  }

  lemma {:induction false} AmongNone(watchers: seq<Watcher>, tickets: set<nat>)
    requires forall k :: 0 <= k < |watchers| ==> watchers[k].ticket !in tickets
    ensures Among(watchers, tickets) == []
  {
    if watchers != [] {
      AmongNone(watchers[1..], tickets);
    }
  }

  lemma {:induction false} AmongAll(watchers: seq<Watcher>, tickets: set<nat>)
    requires forall k :: 0 <= k < |watchers| ==> watchers[k].ticket in tickets
    ensures Among(watchers, tickets) == watchers
  {
    if watchers != [] {
      AmongAll(watchers[1..], tickets);
    }
  }

  /** None of `tickets` waits in the book or has still to be handed out. */
  ghost predicate Dispatched(book: Book, tickets: set<nat>) {
    && (forall k :: 0 <= k < |book.pending| ==> book.pending[k].ticket !in tickets)
    && (forall t :: t in tickets ==> t < book.next)
  }

  lemma AdvanceInOrder(book: Book, item: Item, rest: seq<Item>, tickets: set<nat>)
    requires Dispatched(book, tickets) && Advance(book, item).Some?
    ensures Dispatched(Advance(book, item).value.0, tickets)
    ensures Among(Advance(book, item).value.0.fired, tickets)
          + Among(FiredBy(Advance(book, item).value.1 + rest), tickets)
         == Among(book.fired, tickets) + Among(FiredBy([item] + rest), tickets)
  {
    var (book', more) := Advance(book, item).value;
    FiredByJoin([item], rest);
    AmongJoin(FiredBy([item]), FiredBy(rest), tickets);
    FiredByJoin(more, rest);
    AmongJoin(FiredBy(more), FiredBy(rest), tickets);
    AdvanceAlone(book, item, tickets);
    SameEnd(Among(book'.fired, tickets), Among(FiredBy(more), tickets),
            Among(book.fired, tickets), Among(FiredBy([item]), tickets), Among(FiredBy(rest), tickets));
  }

  lemma SameEnd(a: seq<Watcher>, b: seq<Watcher>, c: seq<Watcher>, d: seq<Watcher>, end: seq<Watcher>)
    requires a + b == c + d
    ensures a + (b + end) == c + (d + end)
  {
    assert a + (b + end) == (a + b) + end;
    assert c + (d + end) == (c + d) + end;
  }

  lemma AdvanceAlone(book: Book, item: Item, tickets: set<nat>)
    requires Dispatched(book, tickets) && Advance(book, item).Some?
    ensures Dispatched(Advance(book, item).value.0, tickets)
    ensures Among(Advance(book, item).value.0.fired, tickets) + Among(FiredBy(Advance(book, item).value.1), tickets)
         == Among(book.fired, tickets) + Among(FiredBy([item]), tickets)
  {
    match item
    case Do(Subscribe(id, cb)) =>
    case Do(Register(id, _, _)) =>
      OthersWithin(book.pending, id);
      FiredByFires(Of(book.pending, id));
      AmongNone(Of(book.pending, id), tickets);
    case Fire(watcher) =>
      FiredByDos(watcher.cb.ops);
      AmongJoin(book.fired, [watcher], tickets);
  }

  /** Callbacks already on the agenda are made in the order in which they stand there. */
  lemma {:induction false} CalledBackInOrder(book: Book, agenda: seq<Item>, tickets: set<nat>)
    requires Dispatched(book, tickets) && Play(book, agenda).Done?
    ensures Among(Play(book, agenda).book.fired, tickets)
         == Among(book.fired, tickets) + Among(FiredBy(agenda), tickets)
    decreases WatchersSize(book.pending) + AgendaSize(agenda)
  {
    if agenda != [] {
      var (book', more) := Advance(book, agenda[0]).value;
      AdvanceShrinks(book, agenda[0], agenda[1..]);
      assert agenda == [agenda[0]] + agenda[1..];
      AdvanceInOrder(book, agenda[0], agenda[1..], tickets);
      CalledBackInOrder(book', more + agenda[1..], tickets);
    }
  }

  // ----- the theorems about whole operations

  /** Every ticket handed out has been called back once or waits once. */
  ghost predicate AllAccounted(book: Book) {
    forall ticket: nat :: Accounted(book, [], ticket)
  }

  ghost predicate Consistent(book: Book) {
    Settled(book) && AllAccounted(book)
  }

  /** An operation of the scheduler's users: any operation of a callback, or removing a registration. */
  datatype UserOp = Perform(op: Op) | Unregister(id: string)

  function UserNext(book: Book, user: UserOp): Outcome {
    match user
    case Perform(op) => Play(book, [Do(op)])
    case Unregister(id) => Done(book.(actions := book.actions - {id}))
  }

  lemma PlayConsistent(book: Book, op: Op)
    requires Consistent(book) && Play(book, [Do(op)]).Done?
    ensures Consistent(Play(book, [Do(op)]).book) && Grows(book, Play(book, [Do(op)]).book)
  {
    PlayGrows(book, [Do(op)]);
    forall ticket: nat ensures Accounted(Play(book, [Do(op)]).book, [], ticket) {
      assert Accounted(book, [], ticket) && CountFires([Do(op)], ticket) == 0;
      CalledBackAtMostOnce(book, [Do(op)], ticket);
    }
  }

  ghost predicate UserRun(book: Book, ops: seq<UserOp>, final: Book)
    decreases |ops|
  {
    if ops == [] then book == final
    else UserNext(book, ops[0]).Done? && UserRun(UserNext(book, ops[0]).book, ops[1..], final)
  }

  lemma {:induction false} UserRunConsistent(book: Book, ops: seq<UserOp>, final: Book)
    requires Consistent(book) && UserRun(book, ops, final)
    ensures Consistent(final) && book.fired <= final.fired
    decreases |ops|
  {
    if ops != [] {
      var book' := UserNext(book, ops[0]).book;
      match ops[0] {
        case Perform(op) => PlayConsistent(book, op);
        case Unregister(id) =>
          forall ticket: nat ensures Accounted(book', [], ticket) {
            assert Accounted(book, [], ticket);
          }
      }
      UserRunConsistent(book', ops[1..], final);
    }
  }

  /** Over every history of operations without exceptions, with callbacks that re-enter as they like: no id is both
      registered and awaited, and a subscription has been called back exactly once, or never and its id is not
      registered. */
  lemma WatcherCalledOnce(ops: seq<UserOp>, final: Book, ticket: nat)
    requires UserRun(EMPTY, ops, final) && ticket < final.next
    ensures Settled(final) && Count(final.fired, ticket) <= 1
    ensures Count(final.fired, ticket) == 0 <==>
      exists k :: 0 <= k < |final.pending| && final.pending[k].ticket == ticket && final.pending[k].id !in final.actions
  {
    UserRunConsistent(EMPTY, ops, final);
    assert Accounted(final, [], ticket);
    if k :| 0 <= k < |final.pending| && final.pending[k].ticket == ticket {
      CountsPresent(final.pending, k);
    } else {
      CountsNone(final.pending, ticket);
    }
  }

  lemma {:induction false} CountsNone(watchers: seq<Watcher>, ticket: nat)
    requires forall k :: 0 <= k < |watchers| ==> watchers[k].ticket != ticket
    ensures Count(watchers, ticket) == 0
  {
    if watchers != [] {
      CountsNone(watchers[1..], ticket);
    }
  }
}
