/**
 * The process-wide state container: one mutable record (stops, route plan, navigation
 * status), a set of listeners, a copying read, and a single update entry point that applies
 * a mutation and then notifies every listener with a fresh snapshot.
 */
module State {

  import opened Wrappers
  import opened Places
  import opened Routing

  /** The navigation part of the state. */
  datatype NavigationState = NavigationState(
    active: bool,
    startedAt: Option<int>,
    currentPosition: Option<Position>,
    lastUpdatedAt: Option<int>,
    error: Option<string>)

  /**
   * A snapshot of the whole state. Snapshots are values: a reader that changes its copy builds
   * a new value and cannot reach the store's record.
   */
  datatype AppState = AppState(
    origin: Option<Stop>,
    destination: Option<Stop>,
    waypoints: seq<Stop>,
    routePlan: Option<RoutePlan>,
    navigation: NavigationState)

  /** Inactive navigation with every field cleared. */
  const InactiveNavigation: NavigationState := NavigationState(false, None, None, None, None)

  /** The state the page starts with and that a reset restores. */
  const InitialState: AppState := AppState(None, None, [], None, InactiveNavigation)

  /** A listener, identified the way a `Set` of functions identifies its members. */
  type ListenerId = nat

  /** One listener call: which listener and the snapshot it receives. */
  datatype Notification = Notification(listener: ListenerId, snapshot: AppState)

  /** The listeners hold no entry twice. */
  predicate Distinct(listeners: seq<ListenerId>) {
    forall i, j :: 0 <= i < j < |listeners| ==> listeners[i] != listeners[j]
  }

  /** `listeners.add(listener)`: a new listener goes last; a known one changes nothing. */
  function AddListener(listeners: seq<ListenerId>, listener: ListenerId): (r: seq<ListenerId>)
    ensures listener in r
    ensures forall x :: x in r <==> x in listeners || x == listener
    ensures listener in listeners ==> r == listeners
    ensures Distinct(listeners) ==> Distinct(r)
  {
    if listener in listeners then listeners else listeners + [listener]
  }

  /** `listeners.delete(listener)`: exactly that listener goes, the others keep their order. */
  function RemoveListener(listeners: seq<ListenerId>, listener: ListenerId): (r: seq<ListenerId>)
    ensures listener !in r
    ensures forall x :: x in r <==> x in listeners && x != listener
    ensures |r| <= |listeners|
    ensures listener !in listeners ==> r == listeners
    ensures Distinct(listeners) ==> Distinct(r)
  {
    if |listeners| == 0 then []
    else if listeners[0] == listener then RemoveListener(listeners[1..], listener)
    else
      var rest := RemoveListener(listeners[1..], listener);
      assert Distinct(listeners) ==> listeners[0] !in listeners[1..] && Distinct(listeners[1..]);
      [listeners[0]] + rest
  }

  /** Adding a listener twice is the same as adding it once. */
  lemma AddListenerIdempotent(listeners: seq<ListenerId>, listener: ListenerId)
    ensures AddListener(AddListener(listeners, listener), listener) == AddListener(listeners, listener)
  {
  }

  /** The function `subscribe` returns undoes the subscription of a listener that was new. */
  lemma {:induction false} UnsubscribeUndoesSubscribe(listeners: seq<ListenerId>, listener: ListenerId)
    requires listener !in listeners
    ensures RemoveListener(AddListener(listeners, listener), listener) == listeners
  {
    if |listeners| > 0 {
      assert (listeners + [listener])[0] == listeners[0];
      assert (listeners + [listener])[1..] == listeners[1..] + [listener];
      UnsubscribeUndoesSubscribe(listeners[1..], listener);
      assert listeners == [listeners[0]] + listeners[1..];
    } else {
      assert [listener][1..] == [];
    }
  }

  /** The calls a notification round makes: each listener once, in order, with the snapshot. */
  function NotifyAll(listeners: seq<ListenerId>, snapshot: AppState): (calls: seq<Notification>)
    ensures |calls| == |listeners|
    ensures forall k :: 0 <= k < |calls| ==> calls[k].listener == listeners[k] && calls[k].snapshot == snapshot
  {
    seq(|listeners|, k requires 0 <= k < |listeners| => Notification(listeners[k], snapshot))
  }

  class Store {
    var origin: Option<Stop>
    var destination: Option<Stop>
    var waypoints: seq<Stop>
    var routePlan: Option<RoutePlan>
    var navigation: NavigationState
    var listeners: seq<ListenerId>

    ghost predicate Valid()
      reads this
    {
      Distinct(listeners)
    }

    /** The record's current contents. */
    function Snapshot(): AppState
      reads this
    {
      AppState(origin, destination, waypoints, routePlan, navigation)
    }

    constructor()
      ensures Valid()
      ensures Snapshot() == InitialState && listeners == []
    {
      origin := None;
      destination := None;
      waypoints := [];
      routePlan := None;
      navigation := InactiveNavigation;
      listeners := [];
    }

    /** `getState`: a copy of the record; reading changes nothing. */
    method GetState() returns (s: AppState)
      ensures s == Snapshot()
    {
      s := AppState(origin, destination, waypoints, routePlan, navigation);
    }

    /** `subscribe`: registers the listener once; the state is untouched. */
    method Subscribe(listener: ListenerId)
      requires Valid()
      modifies this
      ensures Valid()
      ensures listeners == AddListener(old(listeners), listener)
      ensures Snapshot() == old(Snapshot())
    {
      listeners := AddListener(listeners, listener);
    }

    /** The function `subscribe` returns: removes exactly that listener. */
    method Unsubscribe(listener: ListenerId)
      requires Valid()
      modifies this
      ensures Valid()
      ensures listeners == RemoveListener(old(listeners), listener)
      ensures Snapshot() == old(Snapshot())
    {
      listeners := RemoveListener(listeners, listener);
    }

    /** Writes a whole snapshot back into the record. */
    method Write(s: AppState)
      modifies this
      ensures Snapshot() == s && listeners == old(listeners)
    {
      origin := s.origin;
      destination := s.destination;
      waypoints := s.waypoints;
      routePlan := s.routePlan;
      navigation := s.navigation;
    }

    /**
     * `updateState`: applies the mutation first, then calls every listener once, in
     * registration order, each with a snapshot of the new state.
     */
    method UpdateState(mutator: AppState -> AppState) returns (calls: seq<Notification>)
      requires Valid()
      modifies this
      ensures Valid()
      ensures Snapshot() == mutator(old(Snapshot()))
      ensures listeners == old(listeners)
      ensures calls == NotifyAll(listeners, Snapshot())
    {
      Write(mutator(Snapshot()));
      calls := [];
      var i := 0;
      while i < |listeners|
        invariant 0 <= i <= |listeners|
        invariant Snapshot() == mutator(old(Snapshot())) && listeners == old(listeners)
        invariant calls == NotifyAll(listeners[..i], Snapshot())
      {
        var copy := GetState();
        calls := calls + [Notification(listeners[i], copy)];
        i := i + 1;
      }
      assert listeners[..i] == listeners;
    }

    /** `resetState`: restores the initial record through the update entry point. */
    method ResetState() returns (calls: seq<Notification>)
      requires Valid()
      modifies this
      ensures Valid()
      ensures Snapshot() == InitialState
      ensures listeners == old(listeners)
      ensures calls == NotifyAll(listeners, InitialState)
    {
      calls := UpdateState((draft: AppState) => ResetDraft(draft));
    }
  }

  /** The mutation `resetState` applies: every field back to its initial value. */
  function ResetDraft(draft: AppState): (r: AppState)
    ensures r == InitialState
    ensures !r.navigation.active && r.routePlan.None? && r.waypoints == []
  {
    draft.(origin := None, destination := None, waypoints := [], routePlan := None,
           navigation := NavigationState(false, None, None, None, None))
  }
}
