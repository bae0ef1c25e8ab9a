/** The event registry as objects: it maps an event type to a
    table that registration and disposal change in place, and every subscription
    hands out a closure over its own table. These nested, aliased maps are proved
    to behave like the single flat list of live handlers in `HostRuntime`. */
module HostEvents {
  import opened HostRuntime

  /** The inner map of one event type, from id to handler in insertion order. */
  class HandlerTable {
    var entries: seq<Entry>

    constructor ()
      ensures entries == []
    {
      entries := [];
    }

    method Put(e: Entry)
      modifies this
      ensures entries == old(entries) + [e]
    {
      entries := entries + [e];
    }

    /** `handlers.delete(handlerId)` */
    method Remove(id: nat)
      modifies this
      ensures entries == Without(old(entries), id)
    {
      var kept: seq<Entry> := [];
      var i := 0;
      while i < |entries|
        invariant 0 <= i <= |entries| && entries == old(entries)
        invariant kept + Without(entries[i..], id) == Without(entries, id)
      {
        var e, rest := entries[i], entries[i + 1..];
        assert entries[i..] == [e] + rest;
        ConsUnfolds(e, rest, "", id);
        if e.id != id {
          assert kept + ([e] + Without(rest, id)) == kept + [e] + Without(rest, id);
          kept := kept + [e];
        } else {
          assert [] + Without(rest, id) == Without(rest, id);
        }
        i := i + 1;
      }
      assert entries[i..] == [] && kept + [] == kept;
      entries := kept;
    }
  }

  /** The closure `on` returns: it remembers its table, not its event type's
      current one. */
  class Subscription {
    const handlers: HandlerTable
    const kind: string
    const handlerId: nat
    var disposed: bool

    constructor (handlers: HandlerTable, kind: string, handlerId: nat)
      ensures this.handlers == handlers && this.kind == kind && this.handlerId == handlerId && !disposed
    {
      this.handlers, this.kind, this.handlerId, disposed := handlers, kind, handlerId, false;
    }
  }

  lemma {:induction false} WithoutAbsent(live: seq<Entry>, id: nat)
    requires forall e :: e in live ==> e.id != id
    ensures Without(live, id) == live
  {
    if live != [] { WithoutAbsent(live[1..], id); }
  }

  // ---- what the tables and closures must look like ----

  type Tables = map<string, seq<Entry>>

  /** Each type's table holds exactly its live handlers in registration order and
      is never an empty entry. */
  ghost predicate TablesOk(tables: Tables, live: seq<Entry>) {
    forall kind :: if kind in tables then tables[kind] == OfKind(live, kind) != [] else OfKind(live, kind) == []
  }

  lemma TablesAfterOn(tables: Tables, live: seq<Entry>, e: Entry)
    requires TablesOk(tables, live)
    ensures TablesOk(tables[e.kind := OfKind(live, e.kind) + [e]], live + [e])
  {
    forall kind ensures OfKind(live + [e], kind) == OfKind(live, kind) + (if kind == e.kind then [e] else []) {
      OfKindAppend(live, e, kind);
    }
  }

  lemma TablesAfterDispose(tables: Tables, live: seq<Entry>, id: nat, kind: string)
    requires TablesOk(tables, live) && kind in tables
    requires forall e :: e in live && e.id == id ==> e.kind == kind
    ensures var left := Without(tables[kind], id);
      TablesOk(if left == [] then tables - {kind} else tables[kind := left], Without(live, id))
  {
    forall k
      ensures OfKind(Without(live, id), k) == (if k == kind then Without(OfKind(live, k), id) else OfKind(live, k))
    {
      OfKindWithout(live, id, k);
      OfKindMembers(live, k);
      if k != kind { WithoutAbsent(OfKind(live, k), id); }
    }
  }

  predicate Holds(live: seq<Entry>, id: nat) { exists e :: e in live && e.id == id }

  lemma HoldsAfterOn(live: seq<Entry>, e: Entry, id: nat)
    ensures Holds(live + [e], id) <==> Holds(live, id) || e.id == id
  {
    if Holds(live, id) {
      var x :| x in live && x.id == id;
      assert x in live + [e];
    }
    assert e in live + [e];
  }

  lemma HoldsAfterDispose(live: seq<Entry>, removed: nat, id: nat)
    ensures Holds(Without(live, removed), id) <==> Holds(live, id) && id != removed
  {
    WithoutMembers(live, removed);
    if Holds(live, id) && id != removed {
      var x :| x in live && x.id == id;
      assert x in Without(live, removed);
    }
  }

  datatype Closure = Closure(kind: string, handlers: HandlerTable, disposed: bool)

  type Closures = map<nat, Closure>

  /** A closure is live exactly while its handler is, and then its table is the
      registered one: a table detached from the registry has no live closure
      left. */
  ghost predicate ClosuresOk(closures: Closures, registered: map<string, HandlerTable>, live: seq<Entry>, nextId: nat) {
    && (forall e :: e in live ==> e.id in closures && !closures[e.id].disposed && closures[e.id].kind == e.kind)
    && (forall id :: id in closures ==> id < nextId)
    && (forall id :: id in closures && !closures[id].disposed ==>
          && Holds(live, id)
          && closures[id].kind in registered
          && registered[closures[id].kind] == closures[id].handlers)
  }

  ghost predicate RegistryOk(tables: Tables, closures: Closures, registered: map<string, HandlerTable>,
                             live: seq<Entry>, nextId: nat) {
    TablesOk(tables, live) && ClosuresOk(closures, registered, live, nextId) && nextId >= 1 && Sorted(live)
  }

  lemma ClosuresAfterOn(closures: Closures, registered: map<string, HandlerTable>, live: seq<Entry>, e: Entry,
                        handlers: HandlerTable)
    requires ClosuresOk(closures, registered, live, e.id)
    requires e.kind in registered ==> registered[e.kind] == handlers
    ensures ClosuresOk(closures[e.id := Closure(e.kind, handlers, false)], registered[e.kind := handlers],
                       live + [e], e.id + 1)
  {
    hide Holds;
    forall id ensures Holds(live + [e], id) <==> Holds(live, id) || e.id == id { HoldsAfterOn(live, e, id); }
  }

  lemma SortedAfterOn(live: seq<Entry>, e: Entry)
    requires Sorted(live) && forall x :: x in live ==> x.id < e.id
    ensures Sorted(live + [e])
  {
    forall i, j | 0 <= i < j < |live| + 1 ensures (live + [e])[i].id < (live + [e])[j].id {
      assert j < |live| ==> live[i].id < live[j].id;
    }
  }

  lemma RegistryAfterOn(tables: Tables, closures: Closures, registered: map<string, HandlerTable>,
                        live: seq<Entry>, nextId: nat, e: Entry, handlers: HandlerTable)
    requires RegistryOk(tables, closures, registered, live, nextId) && e.id == nextId
    requires e.kind in registered ==> registered[e.kind] == handlers
    ensures RegistryOk(tables[e.kind := OfKind(live, e.kind) + [e]],
                       closures[nextId := Closure(e.kind, handlers, false)],
                       registered[e.kind := handlers], live + [e], nextId + 1)
    ensures RegistryOk(tables, closures, registered, live, nextId + 1)
  {
    hide TablesOk, Holds, OfKind, Sorted;
    TablesAfterOn(tables, live, e);
    ClosuresAfterOn(closures, registered, live, e, handlers);
    SortedAfterOn(live, e);
  }

  lemma ClosuresAfterDispose(closures: Closures, registered: map<string, HandlerTable>, live: seq<Entry>, nextId: nat,
                             id: nat, detach: bool)
    requires ClosuresOk(closures, registered, live, nextId)
    requires id in closures && !closures[id].disposed
    requires detach ==> OfKind(Without(live, id), closures[id].kind) == []
    ensures ClosuresOk(closures[id := closures[id].(disposed := true)],
                       if detach then registered - {closures[id].kind} else registered, Without(live, id), nextId)
  {
    hide Without, ClosuresOk;
    WithoutMembers(live, id);
    forall i ensures Holds(Without(live, id), i) <==> Holds(live, i) && i != id { HoldsAfterDispose(live, id, i); }
    if detach {
      OfKindMembers(Without(live, id), closures[id].kind);
      assert forall e :: e in Without(live, id) ==> e !in OfKind(Without(live, id), closures[id].kind);
    }
    ClosuresShrink(closures, registered, live, Without(live, id), nextId, id, detach);
  }

  lemma ClosuresShrink(closures: Closures, registered: map<string, HandlerTable>, live: seq<Entry>, left: seq<Entry>,
                       nextId: nat, id: nat, detach: bool)
    requires ClosuresOk(closures, registered, live, nextId)
    requires id in closures && !closures[id].disposed
    requires forall e :: e in left ==> e in live && e.id != id
    requires forall i :: Holds(left, i) <==> Holds(live, i) && i != id
    requires detach ==> forall e :: e in left ==> e.kind != closures[id].kind
    ensures ClosuresOk(closures[id := closures[id].(disposed := true)],
                       if detach then registered - {closures[id].kind} else registered, left, nextId)
  {
    forall i | i in closures && i != id && !closures[i].disposed
      ensures detach ==> closures[i].kind != closures[id].kind
    {
      assert Holds(left, i);
      var e :| e in left && e.id == i;
    }
    hide Holds;
  }

  lemma RegistryAfterDispose(tables: Tables, closures: Closures, registered: map<string, HandlerTable>,
                             live: seq<Entry>, nextId: nat, id: nat)
    requires RegistryOk(tables, closures, registered, live, nextId)
    requires id in closures && !closures[id].disposed && tables.Keys == registered.Keys
    ensures closures[id].kind in registered && registered[closures[id].kind] == closures[id].handlers
    ensures var kind := closures[id].kind; var left := Without(tables[kind], id);
      RegistryOk(if left == [] then tables - {kind} else tables[kind := left],
                 closures[id := closures[id].(disposed := true)],
                 if left == [] then registered - {kind} else registered, Without(live, id), nextId)
  {
    var kind := closures[id].kind;
    TablesAfterDispose(tables, live, id, kind);
    OfKindWithout(live, id, kind);
    ClosuresAfterDispose(closures, registered, live, nextId, id, Without(tables[kind], id) == []);
    WithoutStaysSorted(live, id);
  }

  /** A closure that was already called finds nothing to remove. */
  lemma StaleDisposeIsIdle(tables: Tables, closures: Closures, registered: map<string, HandlerTable>,
                           live: seq<Entry>, nextId: nat, id: nat)
    requires RegistryOk(tables, closures, registered, live, nextId)
    requires id !in closures || closures[id].disposed
    ensures Without(live, id) == live
  {
    assert forall e :: e in live ==> e.id != id;
    WithoutAbsent(live, id);
  }

  ghost function TableContents(registered: map<string, HandlerTable>): Tables
    reads registered.Values
  {
    map kind | kind in registered :: registered[kind].entries
  }

  ghost function ClosureStates(subscriptions: map<nat, Subscription>): Closures
    reads subscriptions.Values
  {
    map id | id in subscriptions ::
      Closure(subscriptions[id].kind, subscriptions[id].handlers, subscriptions[id].disposed)
  }

  /** The event part of a runtime: the registry, its id counter, and the closures
      the extension holds. */
  class EventRegistry {
    var eventHandlers: map<string, HandlerTable>
    var nextEventHandlerId: nat
    var subscriptions: map<nat, Subscription>
    ghost var live: seq<Entry>
    ghost var Repr: set<object>

    ghost predicate Owned()
      reads this
    {
      && this in Repr && eventHandlers.Values <= Repr && subscriptions.Values <= Repr
      && (forall k, l :: k in eventHandlers && l in eventHandlers && k != l ==> eventHandlers[k] != eventHandlers[l])
      && (forall i, j :: i in subscriptions && j in subscriptions && i != j ==> subscriptions[i] != subscriptions[j])
    }

    ghost predicate Valid()
      reads this, Repr
    {
      && Owned()
      && RegistryOk(TableContents(eventHandlers), ClosureStates(subscriptions), eventHandlers, live, nextEventHandlerId)
    }

    ghost function Regs(): Registrations
      reads this
    {
      Registrations(map[], map[], live, nextEventHandlerId)
    }

    constructor ()
      ensures Valid() && fresh(Repr) && live == [] && nextEventHandlerId == 1
    {
      eventHandlers, nextEventHandlerId, subscriptions, live := map[], 1, map[], [];
      Repr := {this};
    }

    /** `events.on` */
    method On(kind: string, handler: Handler) returns (answer: Answer)
      requires Valid()
      modifies Repr
      ensures Valid() && fresh(Repr - old(Repr))
      ensures (Regs(), answer) == Register(old(Regs()), Op.On(kind, handler))
    {
      hide TablesOk, ClosuresOk, Sorted, OfKind;
      if !Supported(kind) { return Refused(UnsupportedEvent); }
      var handlerId := nextEventHandlerId;
      var e := Entry(handlerId, kind, handler);
      nextEventHandlerId := nextEventHandlerId + 1;
      var handlers := TableFor(kind);
      if |handlers.entries| >= MAX_EVENT_HANDLERS_PER_TYPE {
        RegistryAfterOn(TableContents(eventHandlers), ClosureStates(subscriptions), eventHandlers, live, handlerId, e,
                        handlers);
        return Refused(TooManyHandlers);
      }
      Subscribe(handlers, e);
      answer := Subscribed(handlerId);
    }

    method Subscribe(handlers: HandlerTable, e: Entry)
      requires Owned() && e.id + 1 == nextEventHandlerId && handlers.entries == OfKind(live, e.kind)
      requires RegistryOk(TableContents(eventHandlers), ClosureStates(subscriptions), eventHandlers, live, e.id)
      requires if e.kind in eventHandlers then handlers == eventHandlers[e.kind] else handlers !in Repr
      modifies this, handlers
      ensures Valid() && fresh(Repr - old(Repr) - {handlers})
      ensures live == old(live) + [e] && nextEventHandlerId == old(nextEventHandlerId)
    {
      hide TablesOk, ClosuresOk, Sorted, OfKind;
      RegistryAfterOn(TableContents(eventHandlers), ClosureStates(subscriptions), eventHandlers, live, e.id, e,
                      handlers);
      hide RegistryOk;
      HandOut(handlers, e);
      Attach(handlers, e);
      Note(live + [e]);
    }

    /** `eventHandlers.get(type) ?? new Map()` */
    method TableFor(kind: string) returns (handlers: HandlerTable)
      requires TablesOk(TableContents(eventHandlers), live)
      ensures handlers.entries == OfKind(live, kind)
      ensures if kind in eventHandlers then handlers == eventHandlers[kind] else fresh(handlers)
    {
      assert kind in TableContents(eventHandlers) <==> kind in eventHandlers;
      if kind in eventHandlers {
        handlers := eventHandlers[kind];
      } else {
        handlers := new HandlerTable();
      }
    }

    ghost method Note(entries: seq<Entry>)
      modifies `live
      ensures live == entries
      ensures TableContents(eventHandlers) == old(TableContents(eventHandlers))
      ensures ClosureStates(subscriptions) == old(ClosureStates(subscriptions))
    {
      live := entries;
    }

    /** The closure that `on` returns. */
    method HandOut(handlers: HandlerTable, e: Entry)
      requires Owned()
      modifies this`subscriptions, this`Repr
      ensures Owned() && fresh(Repr - old(Repr)) && old(Repr) <= Repr
      ensures handlers !in old(Repr) ==> handlers !in Repr
      ensures ClosureStates(subscriptions)
           == old(ClosureStates(subscriptions))[e.id := Closure(e.kind, handlers, false)]
    {
      var closure := new Subscription(handlers, e.kind, e.id);
      subscriptions := subscriptions[e.id := closure];
      Repr := Repr + {closure};
    }

    /** Puts the handler in its table and registers the table. */
    method Attach(handlers: HandlerTable, e: Entry)
      requires Owned()
      requires if e.kind in eventHandlers then handlers == eventHandlers[e.kind] else handlers !in Repr
      modifies this`eventHandlers, this`Repr, handlers
      ensures Owned() && Repr == old(Repr) + {handlers}
      ensures eventHandlers == old(eventHandlers)[e.kind := handlers]
      ensures TableContents(eventHandlers) == old(TableContents(eventHandlers))[e.kind := old(handlers.entries) + [e]]
    {
      eventHandlers := eventHandlers[e.kind := handlers];
      Repr := Repr + {handlers};
      handlers.Put(e);
    }

    /** Calling the closure that subscription `id` was given, now or again, early
        or late. */
    method Dispose(id: nat)
      requires Valid()
      modifies Repr
      ensures Valid() && Repr == old(Repr)
      ensures Regs() == Register(old(Regs()), Op.Dispose(id)).0
    {
      hide TablesOk, ClosuresOk, Sorted, OfKind, Without;
      assert id in ClosureStates(subscriptions) <==> id in subscriptions;
      if id in subscriptions && !subscriptions[id].disposed {
        Release(id, subscriptions[id]);
      } else {
        StaleDisposeIsIdle(TableContents(eventHandlers), ClosureStates(subscriptions), eventHandlers, live,
                           nextEventHandlerId, id);
      }
    }

    method Release(id: nat, closure: Subscription)
      requires Valid() && id in subscriptions && subscriptions[id] == closure && !closure.disposed
      modifies Repr
      ensures Valid() && Repr == old(Repr)
      ensures live == Without(old(live), id) && nextEventHandlerId == old(nextEventHandlerId)
    {
      hide TablesOk, ClosuresOk, Sorted, OfKind, Without;
      RegistryAfterDispose(TableContents(eventHandlers), ClosureStates(subscriptions), eventHandlers, live,
                           nextEventHandlerId, id);
      hide RegistryOk;
      Detach(id, closure);
      Note(Without(live, id));
    }

    method Detach(id: nat, closure: Subscription)
      requires Owned() && id in subscriptions && subscriptions[id] == closure
      requires closure.kind in eventHandlers && eventHandlers[closure.kind] == closure.handlers
      modifies this`eventHandlers, closure, closure.handlers
      ensures Owned()
      ensures var kind := closure.kind; var left := Without(old(closure.handlers.entries), id);
        && eventHandlers == (if left == [] then old(eventHandlers) - {kind} else old(eventHandlers))
        && TableContents(eventHandlers) == (if left == [] then old(TableContents(eventHandlers)) - {kind}
                                            else old(TableContents(eventHandlers))[kind := left])
      ensures ClosureStates(subscriptions)
              == old(ClosureStates(subscriptions))[id := old(ClosureStates(subscriptions)[id]).(disposed := true)]
    {
      hide Without;
      closure.disposed := true;
      RemoveFrom(closure.kind, closure.handlers, id);
    }

    method RemoveFrom(kind: string, handlers: HandlerTable, id: nat)
      requires Owned() && kind in eventHandlers && eventHandlers[kind] == handlers
      modifies this`eventHandlers, handlers
      ensures Owned()
      ensures var left := Without(old(handlers.entries), id);
        && eventHandlers == (if left == [] then old(eventHandlers) - {kind} else old(eventHandlers))
        && TableContents(eventHandlers) == (if left == [] then old(TableContents(eventHandlers)) - {kind}
                                            else old(TableContents(eventHandlers))[kind := left])
    {
      hide Without;
      handlers.Remove(id);
      if handlers.entries == [] {
        eventHandlers := eventHandlers - {kind};
      }
    }
  }
}
