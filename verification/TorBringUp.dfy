/** A backend and the worker of its session together: how much bring-up can ask for by itself. */
module TorBringUp {
  import opened Sequences
  import opened TorSession
  import opened TorRuns
  import opened TorWorker

  /** The connection reports among the messages, in order. */
  function Connections(messages: seq<Command>): seq<Command> {
    if messages == [] then []
    else Connections(Front(messages)) + (if Last(messages).TorConnected? then [Last(messages)] else [])
  }

  /** The connection reports delivered, in order. */
  function Delivered(steps: seq<Step>): seq<Command> {
    if steps == [] then []
    else Delivered(Front(steps)) + (if Last(steps).command.TorConnected? then [Last(steps).command] else [])
  }

  function Retried(steps: seq<Step>): nat {
    if steps == [] then 0
    else Retried(Front(steps)) + (if Last(steps).command == ApplyTorSystemRoute then 1 else 0)
  }

  /** Nobody but workers and the retries that were scheduled speaks to the backend. */
  ghost predicate Unattended(b: Backend, steps: seq<Step>) {
    steps == [] ||
    (Unattended(b, Front(steps)) &&
     (FromWorker(Last(steps).command) ||
      (Last(steps).command == ApplyTorSystemRoute &&
       Retried(Front(steps)) < CountRetries(Run(b, Front(steps)).effects))))
  }

  lemma {:induction false} UnattendedIsAutomatic(b: Backend, steps: seq<Step>, reports: nat)
    requires Unattended(b, steps) && |Delivered(steps)| <= reports
    ensures Automatic(Auto(b, 0, reports), steps)
    ensures
      var left := After(Auto(b, 0, reports), steps).value;
      && left.backend == Run(b, steps).backend
      && left.retries + Retried(steps) == CountRetries(Run(b, steps).effects)
      && left.connectedToCome == reports - |Delivered(steps)|
  {
    if steps == [] {
    } else {
      UnattendedIsAutomatic(b, Front(steps), reports);
      var before := Run(b, Front(steps));
      CountsAppend(before.effects, Handle(before.backend, Last(steps).command, Last(steps).world).effects);
    }
  }

  // ---- the worker says at most two connections -----------------------------

  lemma {:induction false} ConnectionsJoin(a: seq<Command>, b: seq<Command>)
    ensures Connections(a + b) == Connections(a) + Connections(b)
  {
    if b == [] {
      assert a + b == a && Connections(a) + [] == Connections(a);
    } else {
      ConnectionsJoin(a, Front(b));
      assert Front(a + b) == a + Front(b) && Last(a + b) == Last(b);
    }
  }

  lemma {:induction false} ConnectionsAtMost(messages: seq<Command>)
    ensures |Connections(messages)| <= |messages|
  {
    if messages == [] {
    } else {
      ConnectionsAtMost(Front(messages));
    }
  }

  lemma {:induction false} NoConnections(messages: seq<Command>)
    requires forall i :: 0 <= i < |messages| ==> !messages[i].TorConnected?
    ensures Connections(messages) == []
  {
    if messages == [] {
    } else {
      NoConnections(Front(messages));
      assert !messages[|messages| - 1].TorConnected?;
    }
  }

  lemma {:induction false} WorkerConnectsTwice(port: Port, sent: seq<Command>)
    requires Says(port, sent)
    ensures |Connections(sent)| <= 2
  {
    var pcts: nat, connected: nat, failed: bool :| Speaks(port, sent, pcts, connected, failed) && connected <= 2;
    var first, middle, last := sent[..pcts], sent[pcts..pcts + connected], sent[pcts + connected..];
    assert sent == first + middle + last;
    assert failed ==> last == [TorFailed(port)];
    NoConnections(first);
    NoConnections(last);
    ConnectionsAtMost(middle);
    ConnectionsJoin(first, middle);
    ConnectionsJoin(first + middle, last);
  }

  // ---- the two together ----------------------------------------------------

  /**
    A session opened with no retry left over requests at most 74 tunnel starts
    before the user intervenes, whatever its worker meets and however the
    worker's messages and the retries interleave.
   */
  lemma {:induction false} WorkerSessionIsBounded(history: seq<Step>, w: World, sent: seq<Command>, steps: seq<Step>)
    requires Live(history).None? && w.torFound
    requires Says(w.freePort, sent) && Delivered(steps) <= Connections(sent)
    requires Unattended(Handle(Run(IDLE, history).backend, ConnectTor, w).backend, steps)
    ensures CountStarts(Run(Handle(Run(IDLE, history).backend, ConnectTor, w).backend, steps).effects) <= 74
  {
    WorkerConnectsTwice(w.freePort, sent);
    UnattendedIsAutomatic(Handle(Run(IDLE, history).backend, ConnectTor, w).backend, steps, 2);
    FreshSessionIsBounded(history, w, 2, steps);
  }
}
