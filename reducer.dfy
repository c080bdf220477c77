/** `AppModel::update`: the applet's single-writer reducer over the cached list of boot
    environments, the bus connection and the popup. `Step` is the reference definition of one
    update; the class `AppModel` performs it in place on its fields. The task `update` returns to
    the runtime is modelled as an `Effect`, and the closures that turn a finished task back into a
    message are the `On...Result` functions. */
module Reducer {
  import opened Wrappers
  import opened Records
  import opened Ordering
  import opened Loader
  import opened Messages
  import opened Views

  datatype State = State(environments: seq<BootEnvironment>, conn: Option<Connection>, popup: Option<WindowId>)

  /** The task handed back to the runtime. An activation is requested on `conn` for the object at
      `path`, with the `temporary` flag of the bus method `Activate`. */
  datatype Effect =
    | NoTask
    | OpenConnection
    | LoadRequested(conn: Connection)
    | ActivateRequested(conn: Connection, path: ObjectPath, temporary: bool)
    | DestroyPopup(id: WindowId)
    | GetPopup(id: WindowId)

  datatype Transition = Transition(state: State, effect: Effect)

  /** `init`: nothing loaded, no connection, no popup, and a task that opens the system bus. The
      initial state is consistent, so nothing can be activated before a list has come in, and a
      change notice at start-up issues no load. */
  function Init(): (t: Transition)
    ensures t.state.environments == [] && t.state.conn.None? && t.state.popup.None?
    ensures Consistent(t.state)
    ensures t.effect == OpenConnection
  {
    Transition(State([], None, None), OpenConnection)
  }

  /** An activation request can only be handled while a connection is held; otherwise the handler
      stops with `unreachable!`. */
  predicate CanHandle(s: State, msg: Message) {
    msg.ActivateEnvironment? ==> s.conn.Some?
  }

  /** `Vec::retain` with the predicate "path differs from `p`". */
  function WithoutPath(environments: seq<BootEnvironment>, p: ObjectPath): (r: seq<BootEnvironment>)
    ensures |r| <= |environments|
    ensures forall i :: 0 <= i < |r| ==> r[i].path != p
    ensures forall e :: e in r <==> e in environments && e.path != p
  {
    if environments == [] then []
    else if environments[0].path != p then [environments[0]] + WithoutPath(environments[1..], p)
    else WithoutPath(environments[1..], p)
  }

  /** One call of `update`. `newId` is the identifier `Id::unique()` yields when a popup opens. */
  function Step(s: State, msg: Message, newId: WindowId): (t: Transition)
    requires CanHandle(s, msg)
    ensures s.conn.Some? ==> t.state.conn.Some?
    ensures t.state.conn != s.conn ==> msg.Connected?
    ensures t.state.environments != s.environments ==>
      msg.BootEnvironmentsLoaded? || msg.Added? || msg.Removed?
    ensures t.state.popup != s.popup ==> msg.TogglePopup? || msg.PopupClosed?
    ensures t.effect != NoTask ==>
      msg.Connected? || msg.BootEnvironmentsModified? || msg.ActivateEnvironment? || msg.TogglePopup?
    ensures Consistent(s) && Originates(s, false, msg) ==> Consistent(t.state)
  {
    match msg
    case BootSettingsClicked => Transition(s, NoTask)
    case Connected(c) => Transition(s.(conn := Some(c)), LoadRequested(c))
    case BootEnvironmentsLoaded(l) => Transition(s.(environments := l), NoTask)
    case Added(e) => Transition(s.(environments := s.environments + [e]), NoTask)
    case Removed(p) => Transition(s.(environments := WithoutPath(s.environments, p)), NoTask)
    case BootEnvironmentsModified =>
      if s.conn.Some? then Transition(s, LoadRequested(s.conn.value)) else Transition(s, NoTask)
    case ActivateEnvironment(p) => Transition(s, ActivateRequested(s.conn.value, p, true))
    case TogglePopup =>
      if s.popup.Some? then Transition(s.(popup := None), DestroyPopup(s.popup.value))
      else Transition(s.(popup := Some(newId)), GetPopup(newId))
    case PopupClosed(id) =>
      if s.popup == Some(id) then Transition(s.(popup := None), NoTask) else Transition(s, NoTask)
  }

  /** The application model, updated in place by `Update`. */
  class AppModel {
    var environments: seq<BootEnvironment>
    var conn: Option<Connection>
    var popup: Option<WindowId>

    function Snapshot(): State
      reads this
    {
      State(environments, conn, popup)
    }

    constructor ()
      ensures Snapshot() == Init().state
    {
      environments := [];
      conn := None;
      popup := None;
    }

    method Update(msg: Message, newId: WindowId) returns (task: Effect)
      requires CanHandle(Snapshot(), msg)
      modifies this
      ensures Transition(Snapshot(), task) == Step(old(Snapshot()), msg, newId)
    {
      match msg {
        case BootSettingsClicked =>
        case Connected(c) =>
          conn := Some(c);
          return LoadRequested(c);
        case BootEnvironmentsLoaded(l) =>
          environments := l;
        case Added(e) =>
          environments := environments + [e];
        case Removed(p) =>
          environments := WithoutPath(environments, p);
        case BootEnvironmentsModified =>
          if conn.Some? {
            return LoadRequested(conn.value);
          }
        case ActivateEnvironment(p) =>
          return ActivateRequested(conn.value, p, true);
        case TogglePopup =>
          if popup.Some? {
            var p := popup.value;
            popup := None;
            return DestroyPopup(p);
          } else {
            popup := Some(newId);
            return GetPopup(newId);
          }
        case PopupClosed(id) =>
          if popup == Some(id) {
            popup := None;
          }
      }
      task := NoTask;
    }
  }

  // The completions of the tasks: what each finished task feeds back to `update`, if anything.

  /** Opening the bus: success delivers `Connected`, failure is only logged. */
  function OnConnectResult(established: Option<Connection>): (r: Option<Message>)
    ensures r.Some? <==> established.Some?
    ensures r.Some? ==> r.value == Connected(established.value)
  {
    match established
    case Some(c) => Some(Connected(c))
    case None => None
  }

  /** The reply to `GetManagedObjects`, or a failure to reach the object manager. */
  datatype LoadReply = Reply(objects: seq<ManagedObject>) | TransportFailure

  /** A load (initial or reload): success delivers the sorted list, any failure is only logged. */
  function OnLoadResult(reply: LoadReply): (r: Option<Message>)
    ensures r.Some? <==> reply.Reply? && Load(reply.objects).Ok?
    ensures r.Some? ==> r.value.BootEnvironmentsLoaded? && SortedByCreated(r.value.environments)
  {
    match reply
    case TransportFailure => None
    case Reply(objects) =>
      match Load(objects)
      case Ok(environments) => Some(BootEnvironmentsLoaded(environments))
      case Err(_) => None
  }

  /** An activation: success and failure are both only logged; nothing is fed back. */
  function OnActivateResult(succeeded: bool): (r: Option<Message>)
    ensures r.None?
  {
    None
  }

  /** A loaded list becomes the whole list, whatever was cached before; nothing else changes. */
  lemma LoadedReplaces(s: State, l: seq<BootEnvironment>, newId: WindowId)
    ensures Step(s, BootEnvironmentsLoaded(l), newId) == Transition(s.(environments := l), NoTask)
  {
  }

  /** An added record goes last, after an unchanged prefix, and the list grows by one. */
  lemma AddedAppends(s: State, e: BootEnvironment, newId: WindowId)
    ensures var t := Step(s, Added(e), newId);
      && |t.state.environments| == |s.environments| + 1
      && t.state.environments[..|s.environments|] == s.environments
      && t.state.environments[|s.environments|] == e
      && t.state.conn == s.conn && t.state.popup == s.popup
      && t.effect == NoTask
  {
  }

  /** The list is not re-sorted: a record older than the current tail breaks the order. */
  lemma AddedDoesNotResort(s: State, e: BootEnvironment, newId: WindowId)
    requires s.environments != []
    requires e.created < s.environments[|s.environments| - 1].created
    ensures !SortedByCreated(Step(s, Added(e), newId).state.environments)
  {
    var l := Step(s, Added(e), newId).state.environments;
    var n := |s.environments|;
    assert l[n - 1] == s.environments[n - 1] && l[n] == e;
  }

  /** A removal drops every record at the path and touches nothing else. */
  lemma RemovedFilters(s: State, p: ObjectPath, newId: WindowId)
    ensures var t := Step(s, Removed(p), newId);
      && (forall e :: e in t.state.environments <==> e in s.environments && e.path != p)
      && t.state.conn == s.conn && t.state.popup == s.popup
      && t.effect == NoTask
  {
  }

  /** A removal keeps the relative order of the records it keeps. */
  lemma {:induction false} WithoutPathAppend(a: seq<BootEnvironment>, b: seq<BootEnvironment>, p: ObjectPath)
    ensures WithoutPath(a + b, p) == WithoutPath(a, p) + WithoutPath(b, p)
  {
    if a == [] {
      assert a + b == b;
    } else {
      assert (a + b)[1..] == a[1..] + b;
      WithoutPathAppend(a[1..], b, p);
    }
  }

  /** Removing a path that is not in the list leaves it unchanged. */
  lemma {:induction false} WithoutPathAbsent(environments: seq<BootEnvironment>, p: ObjectPath)
    requires forall i :: 0 <= i < |environments| ==> environments[i].path != p
    ensures WithoutPath(environments, p) == environments
  {
    if environments != [] {
      WithoutPathAbsent(environments[1..], p);
    }
  }

  /** Removing a path that is in the list shortens it. */
  lemma {:induction false} WithoutPathPresent(environments: seq<BootEnvironment>, p: ObjectPath, i: nat)
    requires i < |environments| && environments[i].path == p
    ensures |WithoutPath(environments, p)| < |environments|
  {
    if i > 0 {
      WithoutPathPresent(environments[1..], p, i - 1);
    }
  }

  /** A removal keeps a list that was sorted by creation time sorted. */
  lemma {:induction false} WithoutPathKeepsSorted(environments: seq<BootEnvironment>, p: ObjectPath)
    requires SortedByCreated(environments)
    ensures SortedByCreated(WithoutPath(environments, p))
  {
    if environments != [] {
      var rest := environments[1..];
      assert SortedByCreated(rest);
      WithoutPathKeepsSorted(rest, p);
      var r := WithoutPath(rest, p);
      forall i | 0 <= i < |r| ensures environments[0].created <= r[i].created {
        assert r[i] in rest;
        var j :| 0 <= j < |rest| && rest[j] == r[i];
        assert environments[j + 1] == r[i];
      }
    }
  }

  /** A connection is stored and triggers the first load; the list is not touched. */
  lemma ConnectedStoresAndLoads(s: State, c: Connection, newId: WindowId)
    ensures Step(s, Connected(c), newId) == Transition(s.(conn := Some(c)), LoadRequested(c))
  {
  }

  /** A change notification requests a reload exactly when a connection is held, and changes no
      state either way. */
  lemma ModifiedReloadsWhenConnected(s: State, newId: WindowId)
    ensures Step(s, BootEnvironmentsModified, newId).state == s
    ensures s.conn.None? ==> Step(s, BootEnvironmentsModified, newId).effect == NoTask
    ensures s.conn.Some? ==> Step(s, BootEnvironmentsModified, newId).effect == LoadRequested(s.conn.value)
  {
  }

  /** An activation request always asks for a temporary activation on the held connection; it
      changes no state, and its completion feeds nothing back, so it schedules no reload itself. */
  lemma ActivateRequestsTemporary(s: State, p: ObjectPath, newId: WindowId, succeeded: bool)
    requires s.conn.Some?
    ensures Step(s, ActivateEnvironment(p), newId) == Transition(s, ActivateRequested(s.conn.value, p, true))
    ensures OnActivateResult(succeeded) == None
  {
  }

  /** Toggling opens a popup under the fresh id, toggling again closes that same popup. */
  lemma ToggleTwice(s: State, id1: WindowId, id2: WindowId)
    requires s.popup.None?
    ensures var t1 := Step(s, TogglePopup, id1);
      && t1 == Transition(s.(popup := Some(id1)), GetPopup(id1))
      && Step(t1.state, TogglePopup, id2) == Transition(s, DestroyPopup(id1))
  {
  }

  /** A close notice clears the popup only when it names the open popup. */
  lemma PopupClosedOnlyOwn(s: State, id: WindowId, newId: WindowId)
    ensures Step(s, PopupClosed(id), newId).effect == NoTask
    ensures Step(s, PopupClosed(id), newId).state ==
      if s.popup == Some(id) then s.(popup := None) else s
  {
  }

  /** A change notification followed by a successful reload leaves exactly the freshly loaded,
      sorted list, whatever was cached (or removed) before: the reload result wins. */
  lemma ReloadResultWins(s: State, objects: seq<ManagedObject>, newId: WindowId)
    requires s.conn.Some?
    requires Load(objects).Ok?
    ensures Step(s, BootEnvironmentsModified, newId).effect == LoadRequested(s.conn.value)
    ensures OnLoadResult(Reply(objects)) == Some(BootEnvironmentsLoaded(Load(objects).value))
    ensures var t := Step(s, BootEnvironmentsModified, newId);
      var u := Step(t.state, BootEnvironmentsLoaded(Load(objects).value), newId);
      u.state == s.(environments := Load(objects).value) && SortedByCreated(u.state.environments)
  {
  }

  // Traces of updates.

  datatype Trace = Trace(state: State, effects: seq<Effect>)

  /** Runs `update` on each message in turn; popups opened along the way get the identifiers
      `nextId`, `nextId + 1`, and so on. `None` when a message reaches `unreachable!`. */
  function Run(s: State, msgs: seq<Message>, nextId: WindowId): (r: Option<Trace>)
    ensures r.Some? ==> |r.value.effects| == |msgs|
    ensures (forall i :: 0 <= i < |msgs| ==> !msgs[i].ActivateEnvironment?) ==> r.Some?
    decreases |msgs|
  {
    if msgs == [] then Some(Trace(s, []))
    else if !CanHandle(s, msgs[0]) then None
    else
      var t := Step(s, msgs[0], nextId);
      match Run(t.state, msgs[1..], nextId + 1)
      case None => None
      case Some(rest) => Some(Trace(rest.state, [t.effect] + rest.effects))
  }

  /** No debouncing: `n` change notifications in a row issue `n` reloads and change nothing. */
  lemma {:induction false} OneReloadPerNotification(s: State, msgs: seq<Message>, nextId: WindowId)
    requires s.conn.Some?
    requires forall i :: 0 <= i < |msgs| ==> msgs[i] == BootEnvironmentsModified
    ensures Run(s, msgs, nextId) == Some(Trace(s, seq(|msgs|, _ => LoadRequested(s.conn.value))))
  {
    if msgs != [] {
      var reload := LoadRequested(s.conn.value);
      OneReloadPerNotification(s, msgs[1..], nextId + 1);
      assert Step(s, msgs[0], nextId) == Transition(s, reload);
      var rest := seq(|msgs| - 1, _ => LoadRequested(s.conn.value));
      assert Run(s, msgs[1..], nextId + 1) == Some(Trace(s, rest));
      assert Run(s, msgs, nextId) == Some(Trace(s, [reload] + rest));
      assert [reload] + rest == seq(|msgs|, _ => LoadRequested(s.conn.value));
    } else {
      assert seq(|msgs|, _ => LoadRequested(s.conn.value)) == [];
    }
  }

  /** The list is non-empty only once a connection is held. */
  predicate Consistent(s: State) {
    s.environments != [] ==> s.conn.Some?
  }

  /** Where each message can come from. Loads complete, and the two subscriptions run, only after
      `Connected` stored a connection; an activation comes from the dropdown, which is shown
      (`shown`) only once some state so far had a non-empty list. */
  predicate Originates(s: State, shown: bool, msg: Message) {
    match msg
    case BootEnvironmentsLoaded(_) => s.conn.Some?
    case Added(_) => s.conn.Some?
    case Removed(_) => s.conn.Some?
    case BootEnvironmentsModified => s.conn.Some?
    case ActivateEnvironment(_) => shown || s.environments != []
    case _ => true
  }

  /** Every message of `msgs` can come from where it would have to come from, were it delivered
      in this order. */
  predicate Realisable(s: State, shown: bool, msgs: seq<Message>, nextId: WindowId)
    decreases |msgs|
  {
    msgs == [] ||
    (&& Originates(s, shown, msgs[0])
     && (CanHandle(s, msgs[0]) ==>
           var next := Step(s, msgs[0], nextId).state;
           Realisable(next, shown || next.environments != [], msgs[1..], nextId + 1)))
  }

  /** The `unreachable!` of the activation handler is never reached: any realisable sequence of
      messages, delivered from the initial state, is handled to the end. */
  lemma ActivationNeverPanics(msgs: seq<Message>, nextId: WindowId)
    requires Realisable(Init().state, false, msgs, nextId)
    ensures Run(Init().state, msgs, nextId).Some?
  {
    RunFromConsistent(Init().state, false, msgs, nextId);
  }

  lemma {:induction false} RunFromConsistent(s: State, shown: bool, msgs: seq<Message>, nextId: WindowId)
    requires Consistent(s) && (shown ==> s.conn.Some?)
    requires Realisable(s, shown, msgs, nextId)
    ensures Run(s, msgs, nextId).Some?
    decreases |msgs|
  {
    if msgs != [] {
      assert CanHandle(s, msgs[0]);
      var next := Step(s, msgs[0], nextId).state;
      assert Consistent(next) && (s.conn.Some? ==> next.conn.Some?);
      RunFromConsistent(next, shown || next.environments != [], msgs[1..], nextId + 1);
    }
  }
}
