/**
 * The browser-side `WebSocketService` of frontend/src/services/websocket.js:
 * one socket to the backend's `/ws` endpoint, a set of subscriber callbacks
 * that every parsed message is handed to, and a bounded reconnection policy
 * (at most 5 attempts in a row, each 3000 ms after a close, the count reset
 * whenever a socket opens).
 *
 * Sockets are numbered by creation; whether the `WebSocket` constructor
 * throws, whether a frame is valid JSON and whether a callback throws are
 * parameters. Timers are not run: `Reconnect` reports that it scheduled a
 * `connect()`.
 */
module WebSocketClient {
  import opened Wrappers

  type CallbackId = nat

  const MaxReconnectAttempts: nat := 5
  const ReconnectDelayMs: nat := 3000

  predicate Distinct(s: seq<CallbackId>) {
    forall i, j :: 0 <= i < j < |s| ==> s[i] != s[j]
  }

  // ---------------------------------------------------------------------
  // The callback set: a JavaScript Set, iterated in insertion order.
  // ---------------------------------------------------------------------

  /** `callbacks.add(cb)`: a new callback goes last, a present one keeps its place. */
  function Added(callbacks: seq<CallbackId>, cb: CallbackId): (r: seq<CallbackId>)
    ensures forall x :: x in r <==> x in callbacks || x == cb
    ensures |r| >= |callbacks| && r[..|callbacks|] == callbacks
    ensures Distinct(callbacks) ==> Distinct(r)
  {
    if cb in callbacks then callbacks else callbacks + [cb]
  }

  /** `callbacks.delete(cb)`: the others keep their order. */
  function Removed(callbacks: seq<CallbackId>, cb: CallbackId): (r: seq<CallbackId>)
    ensures forall x :: x in r <==> x in callbacks && x != cb
    ensures |r| <= |callbacks|
    ensures Distinct(callbacks) ==> Distinct(r)
  {
    if callbacks == [] then []
    else
      var rest := Removed(callbacks[1..], cb);
      assert callbacks == [callbacks[0]] + callbacks[1..];
      assert Distinct(callbacks) ==> Distinct(callbacks[1..]) && callbacks[0] !in callbacks[1..] by {
        if Distinct(callbacks) {
          forall i, j | 0 <= i < j < |callbacks| - 1 ensures callbacks[1..][i] != callbacks[1..][j] {
            assert callbacks[1..][i] == callbacks[i + 1] && callbacks[1..][j] == callbacks[j + 1];
          }
        }
      }
      if callbacks[0] == cb then rest else [callbacks[0]] + rest
  }

  lemma AddIdempotent(callbacks: seq<CallbackId>, cb: CallbackId)
    ensures Added(Added(callbacks, cb), cb) == Added(callbacks, cb)
  {
  }

  lemma {:induction false} RemoveIdempotent(callbacks: seq<CallbackId>, cb: CallbackId)
    ensures Removed(Removed(callbacks, cb), cb) == Removed(callbacks, cb)
  {
    RemoveAbsentIsNoop(Removed(callbacks, cb), cb);
  }

  /**
   * Deleting the member at position `k` of a duplicate-free sequence leaves
   * the members before it and after it, each in its old order.
   */
  lemma {:induction false} RemovedAt(callbacks: seq<CallbackId>, k: nat)
    requires Distinct(callbacks) && k < |callbacks|
    ensures Removed(callbacks, callbacks[k]) == callbacks[..k] + callbacks[k + 1..]
  {
    var rest := callbacks[1..];
    assert Distinct(rest) by {
      forall i, j | 0 <= i < j < |rest| ensures rest[i] != rest[j] {
        assert rest[i] == callbacks[i + 1] && rest[j] == callbacks[j + 1];
      }
    }
    if k == 0 {
      assert callbacks[0] !in rest by {
        forall j | 0 <= j < |rest| ensures rest[j] != callbacks[0] {
          assert rest[j] == callbacks[j + 1];
        }
      }
      RemoveAbsentIsNoop(rest, callbacks[0]);
    } else {
      assert rest[k - 1] == callbacks[k];
      assert callbacks[0] != callbacks[k];
      RemovedAt(rest, k - 1);
      assert callbacks[..k] == [callbacks[0]] + rest[..k - 1];
      assert callbacks[k + 1..] == rest[k..];
    }
  }

  /** Deleting a callback that was never added changes nothing. */
  lemma {:induction false} RemoveAbsentIsNoop(callbacks: seq<CallbackId>, cb: CallbackId)
    requires cb !in callbacks
    ensures Removed(callbacks, cb) == callbacks
  {
    if callbacks != [] {
      RemoveAbsentIsNoop(callbacks[1..], cb);
      assert callbacks == [callbacks[0]] + callbacks[1..];
    }
  }

  /** Unsubscribing undoes a subscription of a new callback. */
  lemma {:induction false} RemoveUndoesAdd(callbacks: seq<CallbackId>, cb: CallbackId)
    requires cb !in callbacks
    ensures Removed(Added(callbacks, cb), cb) == callbacks
  {
    RemoveLast(callbacks, cb);
  }

  lemma {:induction false} RemoveLast(callbacks: seq<CallbackId>, cb: CallbackId)
    requires cb !in callbacks
    ensures Removed(callbacks + [cb], cb) == callbacks
  {
    if callbacks == [] {
      assert Removed([cb], cb) == Removed([cb][1..], cb);
    } else {
      RemoveLast(callbacks[1..], cb);
      assert (callbacks + [cb])[1..] == callbacks[1..] + [cb];
      assert callbacks == [callbacks[0]] + callbacks[1..];
    }
  }

  // ---------------------------------------------------------------------
  // Message delivery
  // ---------------------------------------------------------------------

  /**
   * The callbacks `forEach` reaches: all of them, or up to and including the
   * first one that throws, since the exception leaves the loop.
   */
  function UpToFirstThrow(callbacks: seq<CallbackId>, throws: CallbackId -> bool): (r: seq<CallbackId>)
    ensures |r| <= |callbacks| && r == callbacks[..|r|]
    ensures forall k :: 0 <= k < |r| - 1 ==> !throws(r[k])
    ensures |r| < |callbacks| ==> |r| > 0 && throws(r[|r| - 1])
    ensures (forall k :: 0 <= k < |callbacks| ==> !throws(callbacks[k])) ==> r == callbacks
  {
    if callbacks == [] then []
    else if throws(callbacks[0]) then [callbacks[0]]
    else
      var rest := UpToFirstThrow(callbacks[1..], throws);
      assert forall k :: 0 <= k < |callbacks| - 1 ==> callbacks[1..][k] == callbacks[k + 1];
      [callbacks[0]] + rest
  }

  /**
   * The callbacks that receive a frame: none when the frame is not JSON
   * (`parsed` is None), otherwise the ones `forEach` reaches.
   */
  function Delivered(callbacks: seq<CallbackId>, parsed: Option<string>, throws: CallbackId -> bool): (r: seq<CallbackId>)
    ensures |r| <= |callbacks| && r == callbacks[..|r|]
    ensures parsed.None? ==> r == []
    ensures forall k :: 0 <= k < |r| - 1 ==> !throws(r[k])
    ensures parsed.Some? && |r| < |callbacks| ==> |r| > 0 && throws(r[|r| - 1])
  {
    if parsed.None? then [] else UpToFirstThrow(callbacks, throws)
  }

  /** With no throwing callback, every subscriber receives a parsed frame, in subscription order. */
  lemma EveryoneReceivesWhenNoneThrows(callbacks: seq<CallbackId>, data: string, throws: CallbackId -> bool)
    requires forall cb :: cb in callbacks ==> !throws(cb)
    ensures Delivered(callbacks, Some(data), throws) == callbacks
  {
  }

  /** `forEach` stops at the first throwing callback, after calling it. */
  lemma {:induction false} StopsAtFirstThrow(callbacks: seq<CallbackId>, throws: CallbackId -> bool, i: nat)
    requires i < |callbacks| && throws(callbacks[i])
    requires forall k :: 0 <= k < i ==> !throws(callbacks[k])
    ensures UpToFirstThrow(callbacks, throws) == callbacks[..i + 1]
  {
    if i > 0 {
      var rest := callbacks[1..];
      assert !throws(callbacks[0]);
      assert forall k :: 0 <= k < i - 1 ==> rest[k] == callbacks[k + 1];
      StopsAtFirstThrow(rest, throws, i - 1);
      assert callbacks[..i + 1] == [callbacks[0]] + rest[..i];
    }
  }

  /** A callback behind a throwing one is not reached. */
  lemma {:induction false} NotReachedAfterThrow(callbacks: seq<CallbackId>, throws: CallbackId -> bool, k: nat)
    requires k < |callbacks| && throws(callbacks[k])
    ensures |UpToFirstThrow(callbacks, throws)| <= k + 1
  {
    if k > 0 && !throws(callbacks[0]) {
      NotReachedAfterThrow(callbacks[1..], throws, k - 1);
    }
  }

  /** A subscriber added after the others receives a frame only if no earlier one throws. */
  lemma LateSubscriberAfterThrower(callbacks: seq<CallbackId>, cb: CallbackId, data: string, throws: CallbackId -> bool)
    requires cb !in callbacks
    requires exists k :: 0 <= k < |callbacks| && throws(callbacks[k])
    ensures cb !in Delivered(Added(callbacks, cb), Some(data), throws)
  {
    var all := callbacks + [cb];
    var k :| 0 <= k < |callbacks| && throws(callbacks[k]);
    NotReachedAfterThrow(all, throws, k);
    var r := UpToFirstThrow(all, throws);
    assert r == callbacks[..|r|] by {
      assert all[..|r|] == callbacks[..|r|];
    }
  }

  // ---------------------------------------------------------------------
  // Reconnection
  // ---------------------------------------------------------------------

  datatype Reconnection = Reconnection(attempts: nat, scheduled: bool)

  /**
   * `reconnect()`: schedule another `connect()` while fewer than 5 attempts
   * are used. Each scheduled reconnection uses up exactly one attempt, none
   * is scheduled once they are used up, and the count never passes 5.
   */
  function ReconnectStep(attempts: nat): (r: Reconnection)
    ensures attempts <= MaxReconnectAttempts ==> r.attempts <= MaxReconnectAttempts
    ensures r.scheduled <==> r.attempts == attempts + 1
    ensures !r.scheduled <==> r.attempts == attempts
    ensures attempts >= MaxReconnectAttempts ==> !r.scheduled
  {
    if attempts < MaxReconnectAttempts then Reconnection(attempts + 1, true)
    else Reconnection(attempts, false)
  }

  /**
   * What the service sees of one socket: `onopen` fired, `onclose` fired,
   * or the `WebSocket` constructor threw inside `connect()`.
   */
  datatype Event = Opened | Closed | CreateFailed

  /** The attempt count after `e`; a close and a failed creation both reconnect. */
  function AfterEvent(attempts: nat, e: Event): Reconnection {
    match e
    case Opened => Reconnection(0, false)
    case Closed => ReconnectStep(attempts)
    case CreateFailed => ReconnectStep(attempts)
  }

  /** The attempt count after a sequence of events. */
  function AttemptsAfter(attempts: nat, events: seq<Event>): nat {
    if events == [] then attempts
    else AfterEvent(AttemptsAfter(attempts, events[..|events| - 1]), events[|events| - 1]).attempts
  }

  /** How many reconnections a sequence of events schedules. */
  function ScheduledCount(attempts: nat, events: seq<Event>): nat {
    if events == [] then 0
    else
      var n := |events| - 1;
      ScheduledCount(attempts, events[..n]) + if AfterEvent(AttemptsAfter(attempts, events[..n]), events[n]).scheduled then 1 else 0
  }

  /** The attempt count never exceeds the maximum. */
  lemma {:induction false} AttemptsBounded(attempts: nat, events: seq<Event>)
    requires attempts <= MaxReconnectAttempts
    ensures AttemptsAfter(attempts, events) <= MaxReconnectAttempts
  {
    if events != [] {
      AttemptsBounded(attempts, events[..|events| - 1]);
    }
  }

  /** An open socket resets the count, whatever came before. */
  lemma OpenResetsAttempts(attempts: nat, events: seq<Event>)
    ensures AttemptsAfter(attempts, events + [Opened]) == 0
  {
    assert (events + [Opened])[..|events|] == events;
  }

  /**
   * Without a successful open in between, closes and failed creations
   * schedule reconnections until the maximum is used up and never after:
   * exactly min(|events|, 5 - attempts) of them.
   */
  lemma {:induction false} ReconnectsUntilExhausted(attempts: nat, events: seq<Event>)
    requires attempts <= MaxReconnectAttempts
    requires forall k :: 0 <= k < |events| ==> events[k] != Opened
    ensures AttemptsAfter(attempts, events) == if attempts + |events| <= MaxReconnectAttempts then attempts + |events| else MaxReconnectAttempts
    ensures ScheduledCount(attempts, events) == if attempts + |events| <= MaxReconnectAttempts then |events| else MaxReconnectAttempts - attempts
  {
    if events != [] {
      var n := |events| - 1;
      assert forall k :: 0 <= k < n ==> events[..n][k] == events[k];
      ReconnectsUntilExhausted(attempts, events[..n]);
    }
  }

  /** Six closes in a row from a fresh service schedule five reconnections, not six. */
  lemma NoSixthReconnect()
    ensures ScheduledCount(0, [Closed, Closed, Closed, Closed, Closed, Closed]) == 5
  {
    ReconnectsUntilExhausted(0, [Closed, Closed, Closed, Closed, Closed, Closed]);
  }

  // ---------------------------------------------------------------------
  // The service object
  // ---------------------------------------------------------------------

  class WebSocketService {
    /** `this.ws`: null, or the socket created last (sockets are numbered by creation). */
    var socket: Option<nat>
    var socketsCreated: nat
    /** `this.callbacks`, in insertion order. */
    var callbacks: seq<CallbackId>
    var reconnectAttempts: nat

    ghost predicate Valid()
      reads this
    {
      && reconnectAttempts <= MaxReconnectAttempts
      && Distinct(callbacks)
      && (socket.Some? ==> socket.value < socketsCreated)
    }

    constructor()
      ensures Valid()
      ensures socket == None && socketsCreated == 0 && callbacks == [] && reconnectAttempts == 0
    {
      socket := None;
      socketsCreated := 0;
      callbacks := [];
      reconnectAttempts := 0;
    }

    /**
     * `connect()`: a new socket becomes `ws`; if the constructor throws,
     * `ws` keeps its old value and the service reconnects.
     */
    method Connect(creationThrows: bool) returns (scheduled: bool)
      requires Valid()
      modifies this
      ensures Valid()
      ensures callbacks == old(callbacks)
      ensures !creationThrows ==>
        && socket == Some(old(socketsCreated)) && socketsCreated == old(socketsCreated) + 1
        && reconnectAttempts == old(reconnectAttempts) && !scheduled
      ensures creationThrows ==>
        && socket == old(socket) && socketsCreated == old(socketsCreated)
        && Reconnection(reconnectAttempts, scheduled) == AfterEvent(old(reconnectAttempts), CreateFailed)
    {
      if creationThrows {
        scheduled := Reconnect();
      } else {
        socket := Some(socketsCreated);
        socketsCreated := socketsCreated + 1;
        scheduled := false;
      }
    }

    /** `ws.onopen`: the connection is up, the attempt count starts over. */
    method OnOpen()
      requires Valid()
      modifies this
      ensures Valid()
      ensures reconnectAttempts == AfterEvent(old(reconnectAttempts), Opened).attempts
      ensures socket == old(socket) && socketsCreated == old(socketsCreated) && callbacks == old(callbacks)
    {
      reconnectAttempts := 0;
    }

    /** `ws.onclose`: reconnect. */
    method OnClose() returns (scheduled: bool)
      requires Valid()
      modifies this
      ensures Valid()
      ensures Reconnection(reconnectAttempts, scheduled) == AfterEvent(old(reconnectAttempts), Closed)
      ensures socket == old(socket) && socketsCreated == old(socketsCreated) && callbacks == old(callbacks)
    {
      scheduled := Reconnect();
    }

    /** `reconnect()`: `scheduled` says a `connect()` was set to run after `ReconnectDelayMs`. */
    method Reconnect() returns (scheduled: bool)
      requires Valid()
      modifies this
      ensures Valid()
      ensures Reconnection(reconnectAttempts, scheduled) == ReconnectStep(old(reconnectAttempts))
      ensures socket == old(socket) && socketsCreated == old(socketsCreated) && callbacks == old(callbacks)
    {
      if reconnectAttempts < MaxReconnectAttempts {
        reconnectAttempts := reconnectAttempts + 1;
        scheduled := true;
      } else {
        scheduled := false;
      }
    }

    method Subscribe(cb: CallbackId)
      requires Valid()
      modifies this
      ensures Valid()
      ensures callbacks == Added(old(callbacks), cb)
      ensures socket == old(socket) && socketsCreated == old(socketsCreated) && reconnectAttempts == old(reconnectAttempts)
    {
      callbacks := Added(callbacks, cb);
    }

    method Unsubscribe(cb: CallbackId)
      requires Valid()
      modifies this
      ensures Valid()
      ensures callbacks == Removed(old(callbacks), cb)
      ensures socket == old(socket) && socketsCreated == old(socketsCreated) && reconnectAttempts == old(reconnectAttempts)
    {
      callbacks := Removed(callbacks, cb);
    }

    /**
     * `ws.onmessage`: `parsed` is the frame after `JSON.parse` (None when it
     * throws); every callback reached is called with the parsed value, and
     * an exception from one of them ends the delivery.
     */
    method OnMessage(parsed: Option<string>, throws: CallbackId -> bool) returns (delivered: seq<CallbackId>)
      ensures delivered == Delivered(callbacks, parsed, throws)
    {
      delivered := [];
      if parsed.Some? {
        var i := 0;
        while i < |callbacks|
          invariant 0 <= i <= |callbacks|
          invariant delivered == callbacks[..i]
          invariant forall k :: 0 <= k < i ==> !throws(callbacks[k])
        {
          var callback := callbacks[i];
          delivered := delivered + [callback];
          assert delivered == callbacks[..i + 1];
          if throws(callback) {
            StopsAtFirstThrow(callbacks, throws, i);
            return;
          }
          i := i + 1;
        }
        assert delivered == callbacks;
      }
    }
  }
}
