/**
 The unload guard `writeOperation(op)`: register the `beforeunload` alert,
 await the write, then unregister the alert.
 */
module UnloadGuard {

  /** How the awaited write promise settles. */
  datatype Settlement = Fulfilled | Rejected

  /** Whether `saveAlert` is registered on `window` as a capturing `beforeunload` listener.
      Registering the same listener with the same capture flag again keeps a single registration
      (section 2.7 of the DOM Standard, "add an event listener"), so this is a flag and not a count. */
  datatype Window = Window(guarded: bool)

  /** `window.addEventListener('beforeunload', saveAlert, { capture: true })`. */
  function AddGuard(w: Window): (r: Window)
    ensures r.guarded
  {
    Window(true)
  }

  /** `window.removeEventListener('beforeunload', saveAlert, { capture: true })`. */
  function RemoveGuard(w: Window): (r: Window)
    ensures !r.guarded
  {
    Window(false)
  }

  datatype Guarded = Guarded(window: Window, settlement: Settlement)

  /** `writeOperation(op)`: the returned promise settles as `op` does; the guard is removed only
      after `op` fulfils, because a rejection leaves the function at the `await`. */
  function WriteOperation(w: Window, op: Settlement): (r: Guarded)
    ensures r.settlement == op
    ensures r.window.guarded <==> op == Rejected
  {
    var armed := AddGuard(w);
    match op
    case Fulfilled => Guarded(RemoveGuard(armed), Fulfilled)
    case Rejected => Guarded(armed, Rejected)
  }

  /** A rejected write leaves the alert registered, whatever the state before it: the page keeps
      asking for confirmation on unload although no write is outstanding. */
  lemma RejectedWriteKeepsGuard(w: Window)
    ensures WriteOperation(w, Rejected).window.guarded
    ensures WriteOperation(WriteOperation(w, Rejected).window, Fulfilled).window == Window(false)
  {
  }

  /** The guard with a `try { await op } finally { remove }`: released on every exit path. */
  function GuardedWrite(w: Window, op: Settlement): (r: Guarded)
    ensures r.settlement == op
    ensures !r.window.guarded
  {
    var armed := AddGuard(w);
    Guarded(RemoveGuard(armed), op)
  }

  /** One step of a page's write activity: a `writeOperation` call starts, or one settles. */
  datatype Event = Start | Settle(outcome: Settlement)

  /** The registration state after a run of events, from `w`. */
  function Run(w: Window, events: seq<Event>): Window
    decreases |events|
  {
    if events == [] then w
    else
      var next := match events[0]
        case Start => AddGuard(w)
        case Settle(Fulfilled) => RemoveGuard(w)
        case Settle(Rejected) => w;
      Run(next, events[1..])
  }

  /** `writeOperation` is the run of its own two events: the start registers the alert and
      the settlement of `op` then applies. */
  lemma WriteOperationIsRun(w: Window, op: Settlement)
    ensures WriteOperation(w, op).window == Run(w, [Start, Settle(op)])
  {
    assert [Start, Settle(op)][1..] == [Settle(op)];
    assert [Settle(op)][1..] == [];
    match op
    case Fulfilled =>
      assert Run(AddGuard(w), [Settle(op)]) == Run(RemoveGuard(AddGuard(w)), []);
    case Rejected =>
      assert Run(AddGuard(w), [Settle(op)]) == Run(AddGuard(w), []);
  }

  /** With two overlapping writes, the first to fulfil unregisters the single shared registration,
      so the page may unload while the second write is still outstanding. */
  lemma OverlappingWritesLoseGuard(w: Window)
    ensures Run(w, [Start, Start]).guarded
    ensures !Run(w, [Start, Start, Settle(Fulfilled)]).guarded
  {
  }

  /** A run is guarded at its end exactly when some write started after the last fulfilment. */
  lemma {:induction false} RunGuardedIff(w: Window, events: seq<Event>)
    ensures Run(w, events).guarded <==>
              (exists i :: 0 <= i < |events| && events[i] == Start && NoFulfilmentAfter(events, i))
              || (w.guarded && NoFulfilmentAfter(events, -1))
    decreases |events|
  {
    if events != [] {
      var next := match events[0]
        case Start => AddGuard(w)
        case Settle(Fulfilled) => RemoveGuard(w)
        case Settle(Rejected) => w;
      RunGuardedIff(next, events[1..]);
      var tail := events[1..];
      forall i | 0 <= i < |tail|
        ensures NoFulfilmentAfter(tail, i) <==> NoFulfilmentAfter(events, i + 1)
      {
        assert forall j :: i < j < |tail| ==> tail[j] == events[j + 1];
        assert forall j :: i + 1 < j < |events| ==> events[j] == tail[j - 1];
      }
      assert NoFulfilmentAfter(tail, -1) <==> NoFulfilmentAfter(events, 0) by {
        assert forall j :: -1 < j < |tail| ==> tail[j] == events[j + 1];
        assert forall j :: 0 < j < |events| ==> events[j] == tail[j - 1];
      }
      if exists i :: 0 <= i < |tail| && tail[i] == Start && NoFulfilmentAfter(tail, i) {
        var i :| 0 <= i < |tail| && tail[i] == Start && NoFulfilmentAfter(tail, i);
        assert events[i + 1] == Start;
      }
      if exists i :: 0 <= i < |events| && events[i] == Start && NoFulfilmentAfter(events, i) {
        var i :| 0 <= i < |events| && events[i] == Start && NoFulfilmentAfter(events, i);
        if i > 0 {
          assert tail[i - 1] == Start;
        }
      }
    }
  }

  /** No write fulfils after position `i` of the run. */
  ghost predicate NoFulfilmentAfter(events: seq<Event>, i: int)
  {
    forall j :: 0 <= j && i < j < |events| ==> events[j] != Settle(Fulfilled)
  }
}
