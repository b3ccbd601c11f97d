/**
 * `EventManager`: listeners registered per event type, in registration
 * order, and invoked in that order when an event of exactly that type is
 * triggered.
 */
module EventManager {
  import opened JavaLang

  /** An event's runtime class, by name. */
  type EventType = string

  /** A registered listener, known only by identity. */
  datatype Listener = Listener(id: nat)

  datatype Event = Event(eventType: EventType, payload: nat)

  /** The list registered for `t`, empty when there is none. */
  function ListenersOf(m: map<EventType, seq<Listener>>, t: EventType): seq<Listener>
  {
    if t in m then m[t] else []
  }

  /**
   * The registrations after `addListener(t, l)`: `l` appended to `t`'s list,
   * which is created if missing; every other list as before.
   */
  function Added(m: map<EventType, seq<Listener>>, t: EventType, l: Listener): (r: map<EventType, seq<Listener>>)
    ensures t in r && ListenersOf(r, t) == ListenersOf(m, t) + [l]
    ensures forall u :: u != t ==> ListenersOf(r, u) == ListenersOf(m, u)
    ensures r.Keys == m.Keys + {t}
  {
    m[t := ListenersOf(m, t) + [l]]
  }

  /**
   * The registrations after `removeListener(t, l)`: the first `l` in `t`'s
   * list dropped; nothing changes when `t` has no list or `l` is not in it.
   */
  function Removed(m: map<EventType, seq<Listener>>, t: EventType, l: Listener): (r: map<EventType, seq<Listener>>)
    ensures l !in ListenersOf(m, t) ==> r == m
    ensures l in ListenersOf(m, t) ==>
      |ListenersOf(r, t)| == |ListenersOf(m, t)| - 1
      && multiset(ListenersOf(r, t)) == multiset(ListenersOf(m, t)) - multiset{l}
    ensures ListenersOf(r, t) == RemoveFirst(ListenersOf(m, t), l)
    ensures forall u :: u != t ==> ListenersOf(r, u) == ListenersOf(m, u)
    ensures r.Keys == m.Keys
  {
    if t in m then m[t := RemoveFirst(m[t], l)] else m
  }

  /** Adding a listener that was not registered and then removing it restores every list. */
  lemma AddThenRemove(m: map<EventType, seq<Listener>>, t: EventType, l: Listener)
    requires l !in ListenersOf(m, t)
    ensures forall u :: ListenersOf(Removed(Added(m, t, l), t, l), u) == ListenersOf(m, u)
  {
    RemoveFirstOfAppend(ListenersOf(m, t), l);
  }

  /** Duplicates are kept: adding twice and removing once leaves one registration. */
  lemma DuplicatesCount(m: map<EventType, seq<Listener>>, t: EventType, l: Listener)
    requires l !in ListenersOf(m, t)
    ensures ListenersOf(Removed(Added(Added(m, t, l), t, l), t, l), t) == ListenersOf(m, t) + [l]
  {
    var s := ListenersOf(m, t);
    assert ListenersOf(Added(Added(m, t, l), t, l), t) == s + [l] + [l];
    var i := IndexOf(s + [l] + [l], l);
    assert (s + [l] + [l])[|s|] == l;
    assert forall j :: 0 <= j < |s| ==> (s + [l] + [l])[j] == s[j];
    assert i == |s|;
    assert (s + [l] + [l])[..i] + (s + [l] + [l])[i + 1..] == s + [l];
  }

  class EventManager {
    var eventListeners: map<EventType, seq<Listener>>

    constructor ()
      ensures eventListeners == map[]
    {
      eventListeners := map[];
    }

    /** `addListener(t, l)`. */
    method AddListener(t: EventType, l: Listener)
      modifies this
      ensures eventListeners == Added(old(eventListeners), t, l)
    {
      var listeners := if t in eventListeners then eventListeners[t] else [];
      eventListeners := eventListeners[t := listeners + [l]];
    }

    /** `removeListener(t, l)`. */
    method RemoveListener(t: EventType, l: Listener)
      modifies this
      ensures eventListeners == Removed(old(eventListeners), t, l)
    {
      if t in eventListeners {
        eventListeners := eventListeners[t := RemoveFirst(eventListeners[t], l)];
      }
    }

    /**
     * `triggerEvent(e)`: the listeners invoked, in order; one call per
     * registration for exactly `e`'s type, none when that type has no list.
     */
    method TriggerEvent(e: Event) returns (invoked: seq<Listener>)
      ensures invoked == ListenersOf(eventListeners, e.eventType)
    {
      invoked := [];
      if e.eventType in eventListeners {
        var listeners := eventListeners[e.eventType];
        var i := 0;
        while i < |listeners|
          invariant 0 <= i <= |listeners|
          invariant invoked == listeners[..i]
        {
          invoked := invoked + [listeners[i]];
          i := i + 1;
        }
        assert listeners[..|listeners|] == listeners;
      }
    }
  }
}
