/** The registry as an object: the source's two maps, with callbacks that may come back in while a list is iterated. */
module InterfaceSchedulers {
  import opened Wrappers
  import opened Registry

  datatype Error = EmptyAction | Duplicate | FromCallback | WrongType(expected: string, actual: string)

  lemma {:induction false} OfJoin(a: seq<Watcher>, b: seq<Watcher>, id: string)
    ensures Of(a + b, id) == Of(a, id) + Of(b, id)
  {
    if a == [] {
      assert a + b == b;
    } else {
      OfJoin(a[1..], b, id);
      assert (a + b)[0] == a[0] && (a + b)[1..] == a[1..] + b;
      var first := if a[0].id == id then [a[0]] else [];
      assert first + (Of(a[1..], id) + Of(b, id)) == (first + Of(a[1..], id)) + Of(b, id);
    }
  }

  lemma {:induction false} OfOthers(watchers: seq<Watcher>, id: string, other: string)
    ensures Of(Others(watchers, id), other) == if other == id then [] else Of(watchers, other)
  {
    if watchers != [] {
      var head, tail := watchers[0], watchers[1..];
      OfOthers(tail, id, other);
      if head.id == id {
        assert Others(watchers, id) == Others(tail, id);
      } else {
        OfJoin([head], Others(tail, id), other);
      }
    }
  }

  lemma {:induction false} OfTwice(watchers: seq<Watcher>, id: string)
    ensures Of(Of(watchers, id), id) == Of(watchers, id)
  {
    if watchers != [] {
      OfTwice(watchers[1..], id);
      OfJoin(if watchers[0].id == id then [watchers[0]] else [], Of(watchers[1..], id), id);
    }
  }

  /** A list belongs to an id that nobody has registered, or to one whose watchers are being notified, or were until an
      exception cut it short. */
  ghost predicate ListInv(actions: map<string, Action>, lists: map<string, seq<Watcher>>, pending: seq<Watcher>,
                          notifying: set<string>, id: string)
  {
    if id in actions then id in lists ==> id in notifying && lists[id] != [] && Of(lists[id], id) == lists[id]
    else (id in lists <==> Of(pending, id) != []) && (id in lists ==> lists[id] == Of(pending, id))
  }

  ghost predicate ListsInv(actions: map<string, Action>, lists: map<string, seq<Watcher>>, pending: seq<Watcher>,
                           notifying: set<string>)
  {
    forall id :: ListInv(actions, lists, pending, notifying, id)
  }

  lemma ListPushed(actions: map<string, Action>, lists: map<string, seq<Watcher>>, pending: seq<Watcher>,
                   notifying: set<string>, watcher: Watcher)
    requires ListsInv(actions, lists, pending, notifying) && watcher.id !in actions
    ensures ListsInv(actions,
                     lists[watcher.id := (if watcher.id in lists then lists[watcher.id] else []) + [watcher]],
                     pending + [watcher], notifying)
  {
    var lists' := lists[watcher.id := (if watcher.id in lists then lists[watcher.id] else []) + [watcher]];
    forall id ensures ListInv(actions, lists', pending + [watcher], notifying, id) {
      assert ListInv(actions, lists, pending, notifying, id);
      OfJoin(pending, [watcher], id);
    }
  }

  lemma ListOpened(actions: map<string, Action>, lists: map<string, seq<Watcher>>, pending: seq<Watcher>,
                   notifying: set<string>, id: string, action: Action)
    requires ListsInv(actions, lists, pending, notifying) && id !in actions
    ensures ListsInv(actions[id := action], lists, Others(pending, id), notifying + {id})
    ensures if id in lists then lists[id] == Of(pending, id) else Of(pending, id) == []
  {
    var actions', pending', notifying' := actions[id := action], Others(pending, id), notifying + {id};
    forall other ensures ListInv(actions', lists, pending', notifying', other) {
      assert ListInv(actions, lists, pending, notifying, other);
      OfOthers(pending, id, other);
      OfTwice(pending, id);
    }
    assert ListInv(actions, lists, pending, notifying, id);
  }

  /** Dropping the list of a registered id, and ending its notification. */
  lemma ListDropped(actions: map<string, Action>, lists: map<string, seq<Watcher>>, pending: seq<Watcher>,
                    notifying: set<string>, id: string)
    requires ListsInv(actions, lists, pending, notifying) && id in actions
    ensures ListsInv(actions, lists - {id}, pending, notifying)
    ensures id !in lists ==> ListsInv(actions, lists, pending, notifying - {id})
  {
    forall other ensures ListInv(actions, lists - {id}, pending, notifying, other) {
      assert ListInv(actions, lists, pending, notifying, other);
    }
    forall other | id !in lists ensures ListInv(actions, lists, pending, notifying - {id}, other) {
      assert ListInv(actions, lists, pending, notifying, other);
    }
  }

  lemma {:induction false} OfNobody(watchers: seq<Watcher>, id: string)
    requires forall w :: w in watchers ==> w.id != id
    ensures Of(watchers, id) == []
  {
    if watchers != [] {
      OfNobody(watchers[1..], id);
    }
  }

  /** The watchers in a list that an exception has left behind. */
  function LeftBehind(lists: map<string, seq<Watcher>>, notifying: set<string>, id: string): seq<Watcher> {
    if id in notifying && id in lists then lists[id] else []
  }

  /** When the id is no longer registered, what was left behind in its list is waiting again. */
  lemma ActionRemoved(actions: map<string, Action>, lists: map<string, seq<Watcher>>, pending: seq<Watcher>,
                      notifying: set<string>, id: string)
    requires ListsInv(actions, lists, pending, notifying) && forall w :: w in pending ==> w.id !in actions
    requires id in actions
    ensures ListsInv(actions - {id}, lists, pending + LeftBehind(lists, notifying, id), notifying - {id})
    ensures forall w :: w in LeftBehind(lists, notifying, id) ==> w.id == id
  {
    var back := LeftBehind(lists, notifying, id);
    OfNobody(pending, id);
    assert ListInv(actions, lists, pending, notifying, id);
    OthersWithin(back, id);
    forall other ensures ListInv(actions - {id}, lists, pending + back, notifying - {id}, other) {
      assert ListInv(actions, lists, pending, notifying, other);
      OfJoin(pending, back, other);
      if other != id {
        OfNobody(back, other);
      }
    }
  }

  /** The lists of `ids` have not changed. */
  ghost predicate SameLists(ids: set<string>, before: map<string, seq<Watcher>>, after: map<string, seq<Watcher>>) {
    forall id :: id in ids ==> (id in before <==> id in after) && (id in before ==> before[id] == after[id])
  }

  lemma PlayNextOp(book: Book, ops: seq<Op>, k: nat)
    requires k < |ops|
    ensures Play(book, Dos(ops[k..])) ==
      match Play(book, [Do(ops[k])])
      case Threw(book') => Threw(book')
      case Done(book') => Play(book', Dos(ops[k + 1..]))
    ensures OpsSize(ops[k..]) == OpSize(ops[k]) + OpsSize(ops[k + 1..])
  {
    assert Dos(ops[k..]) == [Do(ops[k])] + Dos(ops[k + 1..]);
    PlayJoin(book, [Do(ops[k])], Dos(ops[k + 1..]));
  }

  class InterfaceScheduler {
    var actionMapping: map<string, Action>
    var notifyMapping: map<string, seq<Watcher>>
    var tickets: nat
    ghost var pending: seq<Watcher>
    ghost var fired: seq<Watcher>
    /** The ids whose list has been notified and not dropped, and those among them whose loop is not over. */
    ghost var notifying: set<string>
    ghost var iterating: set<string>

    ghost function Abstract(): Book
      reads this
    {
      Book(actionMapping, pending, fired, tickets)
    }

    ghost predicate Valid()
      reads this
    {
      && Settled(Abstract()) && ListsInv(actionMapping, notifyMapping, pending, notifying)
      && iterating <= notifying <= actionMapping.Keys
    }

    /** What every operation does: what the agenda does to the book, without touching a list under iteration. An
        exception leaves the lists that were under iteration behind. */
    twostate predicate Played(before: Book, agenda: seq<Item>, threw: bool)
      reads this
    {
      && (threw <==> Play(before, agenda).Threw?)
      && Abstract() == Play(before, agenda).book && Valid()
      && old(notifying) <= notifying && (!threw ==> notifying == old(notifying)) && iterating == old(iterating)
      && SameLists(old(notifying), old(notifyMapping), notifyMapping)
    }

    constructor ()
      ensures Valid() && Abstract() == EMPTY && notifying == iterating == {}
    {
      actionMapping, notifyMapping, tickets := map[], map[], 0;
      pending, fired, notifying, iterating := [], [], {}, {};
    }

    method SubscribeForRegistration(id: string, cb: Callback, ghost room: nat) returns (threw: bool)
      requires Valid() && WatchersSize(pending) + OpSize(Subscribe(id, cb)) <= room
      modifies this
      ensures Played(old(Abstract()), [Do(Subscribe(id, cb))], threw)
      ensures id !in old(actionMapping) ==>
        !threw && pending == old(pending) + [Watcher(old(tickets), id, cb)] && fired == old(fired)
      ensures id in old(actionMapping) ==> old(fired) + [Watcher(old(tickets), id, cb)] <= fired
      decreases room, 1
    {
      PlayOne(Abstract(), Do(Subscribe(id, cb)));
      var watcher := Watcher(tickets, id, cb);
      tickets := tickets + 1;
      if id in actionMapping {
        threw := RunCallback(watcher, room - 1);
      } else {
        PushBack(watcher);
        threw := false;
      }
    }

    /** `notifyMapping_[id].push_back(cb)`, which creates the list if there is none. */
    method PushBack(watcher: Watcher)
      requires Valid() && watcher.id !in actionMapping
      modifies this`notifyMapping, this`pending
      ensures Valid() && pending == old(pending) + [watcher] && SameLists(notifying, old(notifyMapping), notifyMapping)
    {
      var id := watcher.id;
      ListPushed(actionMapping, notifyMapping, pending, notifying, watcher);
      notifyMapping := notifyMapping[id := (if id in notifyMapping then notifyMapping[id] else []) + [watcher]];
      pending := pending + [watcher];
    }

    /** Runs one callback: its operations in order, until one of them throws. */
    method RunCallback(watcher: Watcher, ghost room: nat) returns (threw: bool)
      requires Valid() && WatchersSize(pending) + CallbackSize(watcher.cb) <= room
      modifies this
      ensures Played(old(Abstract()), [Fire(watcher)], threw) && old(fired) + [watcher] <= fired
      decreases room, 0
    {
      var ops := watcher.cb.ops;
      PlayOne(Abstract(), Fire(watcher));
      fired := fired + [watcher];
      var k := 0;
      while k < |ops|
        invariant k <= |ops| && Valid() && notifying == old(notifying) && iterating == old(iterating)
        invariant SameLists(notifying, old(notifyMapping), notifyMapping)
        invariant Play(Abstract(), Dos(ops[k..])) == Play(old(Abstract()), [Fire(watcher)])
        invariant old(fired) + [watcher] <= fired
        invariant WatchersSize(pending) + OpsSize(ops[k..]) < room
      {
        ghost var before := Abstract();
        PlayNextOp(before, ops, k);
        PlayGrows(before, [Do(ops[k])]);
        var failed := PerformOp(ops[k], room - 1);
        if failed {
          return true;
        }
        k := k + 1;
      }
      threw := false;
    }

    method PerformOp(op: Op, ghost room: nat) returns (threw: bool)
      requires Valid() && WatchersSize(pending) + OpSize(op) <= room
      modifies this
      ensures Played(old(Abstract()), [Do(op)], threw)
      decreases room, 3
    {
      match op
      case Subscribe(id, cb) => threw := SubscribeForRegistration(id, cb, room);
      case Register(id, action, typeName) =>
        var result := RegisterInterface(id, action, typeName, room);
        threw := result.Failure?;
    }

    method RegisterInterface(id: string, action: Option<nat>, typeName: string, ghost room: nat)
      returns (result: Result<(), Error>)
      requires Valid() && WatchersSize(pending) + 1 <= room
      modifies this
      ensures Played(old(Abstract()), [Do(Register(id, action, typeName))], result.Failure?)
      ensures action.None? ==> result == Failure(EmptyAction) && unchanged(this)
      ensures action.Some? && id in old(actionMapping) ==> result == Failure(Duplicate) && unchanged(this)
      ensures action.Some? && id !in old(actionMapping) && result.Failure? ==> result == Failure(FromCallback)
      ensures action.Some? && id !in old(actionMapping) ==>
        id in actionMapping && actionMapping[id] == Action(action.value, typeName)
      decreases room, 2
    {
      if action.None? {
        return Failure(EmptyAction);
      }
      if id in actionMapping {
        return Failure(Duplicate);
      }
      ghost var waiting := Of(pending, id);
      PlayOne(Abstract(), Do(Register(id, action, typeName)));
      PartitionSize(pending, id);
      StoreAction(id, Action(action.value, typeName));
      PlayGrows(Abstract(), Fires(waiting));
      var threw := NotifySubscribers(id, waiting, room - 1);
      iterating := iterating - {id};
      if threw {
        return Failure(FromCallback);
      }
      ListDropped(actionMapping, notifyMapping, pending, notifying, id);
      notifying := notifying - {id};
      result := Success(());
    }

    /** From here on `id` counts as registered, and its list as the one being iterated. */
    method StoreAction(id: string, action: Action)
      requires Valid() && id !in actionMapping
      modifies this`actionMapping, this`pending, this`notifying, this`iterating
      ensures Valid() && actionMapping == old(actionMapping)[id := action] && pending == Others(old(pending), id)
      ensures notifying == old(notifying) + {id} && iterating == old(iterating) + {id}
      ensures if id in notifyMapping then notifyMapping[id] == Of(old(pending), id) else Of(old(pending), id) == []
    {
      OthersWithin(pending, id);
      ListOpened(actionMapping, notifyMapping, pending, notifying, id, action);
      pending, notifying, iterating := Others(pending, id), notifying + {id}, iterating + {id};
      actionMapping := actionMapping[id := action];
    }

    /** Calls back the watchers in the list of `id`, then drops the list. */
    method NotifySubscribers(id: string, ghost waiting: seq<Watcher>, ghost room: nat) returns (threw: bool)
      requires Valid() && id in notifying
      requires if id in notifyMapping then notifyMapping[id] == waiting else waiting == []
      requires WatchersSize(pending) + WatchersSize(waiting) <= room
      modifies this
      ensures threw <==> Play(old(Abstract()), Fires(waiting)).Threw?
      ensures Abstract() == Play(old(Abstract()), Fires(waiting)).book && Valid()
      ensures old(notifying) <= notifying && (!threw ==> notifying == old(notifying)) && iterating == old(iterating)
      ensures SameLists(old(notifying) - {id}, old(notifyMapping), notifyMapping)
      ensures if threw then id in notifyMapping && notifyMapping[id] == waiting else id !in notifyMapping
      decreases room, 1
    {
      threw := false;
      if id in notifyMapping {
        var k := 0;
        while k < |notifyMapping[id]|
          invariant Valid() && notifying == old(notifying) && iterating == old(iterating)
          invariant SameLists(notifying, old(notifyMapping), notifyMapping)
          invariant id in notifyMapping && notifyMapping[id] == waiting && k <= |waiting|
          invariant Play(Abstract(), Fires(waiting[k..])) == Play(old(Abstract()), Fires(waiting))
          invariant WatchersSize(pending) + WatchersSize(waiting[k..]) <= room
        {
          ghost var before := Abstract();
          var watcher := notifyMapping[id][k];
          assert Fires(waiting[k..]) == [Fire(watcher)] + Fires(waiting[k + 1..]);
          PlayJoin(before, [Fire(watcher)], Fires(waiting[k + 1..]));
          threw := RunCallback(watcher, room);
          if threw {
            return;
          }
          PlayGrows(before, [Fire(watcher)]);
          k := k + 1;
        }
        ListDropped(actionMapping, notifyMapping, pending, notifying, id);
        notifyMapping := notifyMapping - {id};
      }
    }

    /** `unRegiterInterface`, also inside callbacks for other ids. Watchers left behind by an exception, called back or
        not, wait again. */
    method UnRegisterInterface(id: string) returns (cancel: bool)
      requires Valid() && id !in iterating
      modifies this`actionMapping, this`pending, this`notifying
      ensures Valid() && cancel == (id in old(actionMapping)) && actionMapping == old(actionMapping) - {id}
      ensures pending == old(pending) + LeftBehind(notifyMapping, old(notifying), id)
      ensures notifying == old(notifying) - {id}
    {
      cancel := id in actionMapping;
      if cancel {
        ActionRemoved(actionMapping, notifyMapping, pending, notifying, id);
        pending, notifying := pending + LeftBehind(notifyMapping, notifying, id), notifying - {id};
        actionMapping := actionMapping - {id};
      }
    }

    method FetchStoredCallbackByServiceId(id: string) returns (stored: Option<Action>)
      ensures stored == if id in actionMapping then Some(actionMapping[id]) else None
    {
      if id !in actionMapping {
        return None;
      }
      return Some(actionMapping[id]);
    }

    /** A call goes through exactly when its id is registered under its own type name. */
    method IsCallRegisteredAndTypesMatch(id: string, callType: string) returns (result: Result<Option<Action>, Error>)
      ensures result == Success(None) <==> id !in actionMapping
      ensures result.Failure? <==> id in actionMapping && actionMapping[id].typeName != callType
      ensures result.Failure? ==> result.error == WrongType(actionMapping[id].typeName, callType)
      ensures result.Success? && result.value.Some? ==> id in actionMapping && result.value.value == actionMapping[id]
    {
      var stored := FetchStoredCallbackByServiceId(id);
      if stored.None? {
        return Success(None);
      }
      if callType != stored.value.typeName {
        return Failure(WrongType(stored.value.typeName, callType));
      }
      return Success(stored);
    }
  }
}
