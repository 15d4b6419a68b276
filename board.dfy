/**
 The collaborative-board WebSocket endpoint (`BBEndpoint`): a hub shared by all
 connections holds the queue of connected sessions and the draw history; each
 connection's endpoint object remembers its own session, replays the history
 when it opens and relays every incoming message to the other sessions.

 Sessions are opaque ids. The transport is the per-session outbox of the hub:
 a successful send appends the text to the recipient's log, a failed send
 (the `IOException` the source catches and logs) appends nothing. Which sends
 fail is an input: a set of send positions.
 */
module Board {
  import opened Text

  type SessionId = nat

  datatype Option<T> = None | Some(value: T)

  /** The substring whose presence makes a message a "clear" event. */
  const CLEAR_MARKER: string := "\"type\":\"clear\""

  /** The confirmation sent to a client once its history replay is over. */
  const CONNECTION_INFO: string := "{\"type\":\"info\",\"message\":\"Connection established.\"}"

  /** A message is a clear event when it contains the marker anywhere. */
  predicate IsClear(message: string)
  {
    Contains(message, CLEAR_MARKER)
  }

  // ---------------------------------------------------------------------------
  // The draw history as a function of the messages processed

  /** The history after one processed message: cleared, or extended by it. */
  function NextHistory(history: seq<string>, message: string): seq<string>
  {
    if IsClear(message) then [] else history + [message]
  }

  /** The history after processing `messages` in order, starting from `history`. */
  function HistoryAfter(history: seq<string>, messages: seq<string>): seq<string>
    decreases |messages|
  {
    if messages == [] then history
    else HistoryAfter(NextHistory(history, messages[0]), messages[1..])
  }

  /** Processing `a` and then `b` is processing `a + b`. */
  lemma {:induction false} HistoryAfterConcat(history: seq<string>, a: seq<string>, b: seq<string>)
    ensures HistoryAfter(history, a + b) == HistoryAfter(HistoryAfter(history, a), b)
    decreases |a|
  {
    if a == [] {
      assert a + b == b;
    } else {
      assert (a + b)[1..] == a[1..] + b;
      HistoryAfterConcat(NextHistory(history, a[0]), a[1..], b);
    }
  }

  /** Without a clear event, the history grows by exactly the messages, in arrival order. */
  lemma {:induction false} HistoryWithoutClear(history: seq<string>, messages: seq<string>)
    requires forall j :: 0 <= j < |messages| ==> !IsClear(messages[j])
    ensures HistoryAfter(history, messages) == history + messages
    decreases |messages|
  {
    if messages != [] {
      HistoryWithoutClear(history + [messages[0]], messages[1..]);
      assert history + [messages[0]] + messages[1..] == history + messages;
    }
  }

  /** The history is exactly the messages that arrived after the last clear event, in order. */
  lemma HistorySinceLastClear(history: seq<string>, messages: seq<string>, k: nat)
    requires k < |messages| && IsClear(messages[k])
    requires forall j :: k < j < |messages| ==> !IsClear(messages[j])
    ensures HistoryAfter(history, messages) == messages[k + 1..]
  {
    var before, after := messages[..k], messages[k + 1..];
    assert messages == before + ([messages[k]] + after);
    HistoryAfterConcat(history, before, [messages[k]] + after);
    HistoryWithoutClear([], after);
  }

  /** A clear followed by non-clear messages d1..dn leaves the history exactly [d1..dn]. */
  lemma ClearThenDraws(history: seq<string>, clear: string, draws: seq<string>)
    requires IsClear(clear)
    requires forall j :: 0 <= j < |draws| ==> !IsClear(draws[j])
    ensures HistoryAfter(history, [clear] + draws) == draws
  {
    HistorySinceLastClear(history, [clear] + draws, 0);
    assert ([clear] + draws)[1..] == draws;
  }

  /** Two consecutive clear events act on the history as one does. */
  lemma ClearTwice(history: seq<string>, first: string, second: string, rest: seq<string>)
    requires IsClear(first) && IsClear(second)
    ensures HistoryAfter(history, [first, second] + rest) == HistoryAfter(history, [second] + rest)
  {
    assert [first, second] + rest == [first] + ([second] + rest);
    HistoryAfterConcat(history, [first], [second] + rest);
    HistoryAfterConcat(history, [second], rest);
    HistoryAfterConcat([], [second], rest);
  }

  // ---------------------------------------------------------------------------
  // The session queue

  /** The number of times `s` is queued. */
  function Count(q: seq<SessionId>, s: SessionId): nat
    decreases |q|
  {
    if q == [] then 0 else (if q[0] == s then 1 else 0) + Count(q[1..], s)
  }

  lemma {:induction false} CountConcat(a: seq<SessionId>, b: seq<SessionId>, s: SessionId)
    ensures Count(a + b, s) == Count(a, s) + Count(b, s)
    decreases |a|
  {
    if a == [] {
      assert a + b == b;
    } else {
      assert (a + b)[1..] == a[1..] + b;
      CountConcat(a[1..], b, s);
    }
  }

  /** A session is queued exactly when it is counted at least once. */
  lemma {:induction false} CountMembership(q: seq<SessionId>, s: SessionId)
    ensures Count(q, s) > 0 <==> s in q
    decreases |q|
  {
    if q != [] {
      CountMembership(q[1..], s);
      assert s in q <==> q[0] == s || s in q[1..];
    }
  }

  /** The position of the first occurrence of `s` in the queue. */
  function IndexOf(q: seq<SessionId>, s: SessionId): (i: nat)
    requires s in q
    ensures i < |q| && q[i] == s && s !in q[..i]
    decreases |q|
  {
    if q[0] == s then 0
    else
      var j := IndexOf(q[1..], s);
      assert q[..j + 1] == [q[0]] + q[1..][..j];
      j + 1
  }

  /** `Queue.remove(session)`: drop the first occurrence of `s`, if there is one. */
  function RemoveFirst(q: seq<SessionId>, s: SessionId): (r: seq<SessionId>)
    ensures s !in q ==> r == q
    ensures s in q ==> r == q[..IndexOf(q, s)] + q[IndexOf(q, s) + 1..]
    decreases |q|
  {
    if q == [] then []
    else if q[0] == s then q[1..]
    else
      var rest := RemoveFirst(q[1..], s);
      assert s in q ==> q[..IndexOf(q, s)] == [q[0]] + q[1..][..IndexOf(q[1..], s)];
      assert s in q ==> q[IndexOf(q, s) + 1..] == q[1..][IndexOf(q[1..], s) + 1..];
      [q[0]] + rest
  }

  /** Removal takes away one occurrence of `s` and leaves every other session's count as it was. */
  lemma RemoveFirstCount(q: seq<SessionId>, s: SessionId, x: SessionId)
    ensures Count(RemoveFirst(q, s), x) == if x == s && s in q then Count(q, x) - 1 else Count(q, x)
  {
    if s in q {
      var i := IndexOf(q, s);
      assert q == q[..i] + ([q[i]] + q[i + 1..]);
      CountConcat(q[..i], [q[i]] + q[i + 1..], x);
      CountConcat([q[i]], q[i + 1..], x);
      CountConcat(q[..i], q[i + 1..], x);
    }
  }

  /** After removal, every other session is queued exactly when it was before, and a session
      that was queued at most once is no longer queued. */
  lemma RemoveFirstMembership(q: seq<SessionId>, s: SessionId)
    ensures forall x :: x != s ==> (x in RemoveFirst(q, s) <==> x in q)
    ensures Count(q, s) <= 1 ==> s !in RemoveFirst(q, s)
  {
    forall x
      ensures x != s ==> (x in RemoveFirst(q, s) <==> x in q)
      ensures x == s && Count(q, s) <= 1 ==> s !in RemoveFirst(q, s)
    {
      RemoveFirstCount(q, s, x);
      CountMembership(q, x);
      CountMembership(RemoveFirst(q, s), x);
    }
  }

  /** Opening and then closing a session that was not queued restores the queue. */
  lemma OpenThenClose(q: seq<SessionId>, s: SessionId)
    requires s !in q
    ensures s in q + [s]
    ensures RemoveFirst(q + [s], s) == q
  {
    assert (q + [s])[|q|] == s;
    assert (q + [s])[..|q|] == q;
  }

  // ---------------------------------------------------------------------------
  // What a recipient receives

  /** The texts of `msgs` that reach a recipient that is sent them one by one, when the
      sends at the positions in `failed` fail. */
  function Received(msgs: seq<string>, failed: set<nat>): seq<string>
    decreases |msgs|
  {
    if msgs == [] then []
    else Received(msgs[..|msgs| - 1], failed) + (if |msgs| - 1 in failed then [] else [msgs[|msgs| - 1]])
  }

  /** With no failure, a recipient receives every text, in order. */
  lemma {:induction false} ReceivedAll(msgs: seq<string>)
    ensures Received(msgs, {}) == msgs
    decreases |msgs|
  {
    if msgs != [] {
      ReceivedAll(msgs[..|msgs| - 1]);
    }
  }

  /** What the first `k` sends deliver comes first, whatever the later sends do. */
  lemma {:induction false} ReceivedPrefix(msgs: seq<string>, failed: set<nat>, k: nat)
    requires k <= |msgs|
    ensures Received(msgs[..k], failed) <= Received(msgs, failed)
    decreases |msgs| - k
  {
    if k < |msgs| {
      ReceivedPrefix(msgs, failed, k + 1);
      assert msgs[..k + 1][..k] == msgs[..k];
    } else {
      assert msgs[..k] == msgs;
    }
  }

  /** A send that does not fail is delivered, even when earlier sends failed. */
  lemma ReceivedDespiteFailures(msgs: seq<string>, failed: set<nat>, k: nat)
    requires k < |msgs| && k !in failed
    ensures Received(msgs[..k], failed) + [msgs[k]] <= Received(msgs, failed)
  {
    ReceivedPrefix(msgs, failed, k + 1);
    assert msgs[..k + 1][..k] == msgs[..k];
  }

  /** Nothing arrives that was not sent, and never more than was sent. */
  lemma {:induction false} ReceivedOnlySent(msgs: seq<string>, failed: set<nat>)
    ensures |Received(msgs, failed)| <= |msgs|
    ensures forall x :: x in Received(msgs, failed) ==> x in msgs
    decreases |msgs|
  {
    if msgs != [] {
      var init := msgs[..|msgs| - 1];
      ReceivedOnlySent(init, failed);
      assert forall x :: x in init ==> x in msgs;
    }
  }

  /** When its own send does not fail, the confirmation closes the replay, after whatever
      part of the history got through. */
  lemma ReplayEndsWithConfirmation(history: seq<string>, failed: set<nat>)
    requires |history| !in failed
    ensures Received(history + [CONNECTION_INFO], failed) == Received(history, failed) + [CONNECTION_INFO]
  {
    assert (history + [CONNECTION_INFO])[..|history|] == history;
  }

  /** The number of copies of a broadcast that `s` receives when the message is sent to every
      session of `q` other than `own`, and the sends at the queue positions in `failed` fail. */
  function Deliveries(q: seq<SessionId>, own: Option<SessionId>, failed: set<nat>, s: SessionId): nat
    decreases |q|
  {
    if q == [] then 0
    else
      var last := |q| - 1;
      Deliveries(q[..last], own, failed, s) + (if q[last] == s && Some(s) != own && last !in failed then 1 else 0)
  }

  /** The sender's own session never receives its broadcast. */
  lemma {:induction false} DeliveriesToOwn(q: seq<SessionId>, failed: set<nat>, s: SessionId)
    ensures Deliveries(q, Some(s), failed, s) == 0
    decreases |q|
  {
    if q != [] {
      DeliveriesToOwn(q[..|q| - 1], failed, s);
    }
  }

  /** A session that is not queued receives nothing. */
  lemma {:induction false} DeliveriesToUnqueued(q: seq<SessionId>, own: Option<SessionId>, failed: set<nat>, s: SessionId)
    requires s !in q
    ensures Deliveries(q, own, failed, s) == 0
    decreases |q|
  {
    if q != [] {
      assert s !in q[..|q| - 1];
      DeliveriesToUnqueued(q[..|q| - 1], own, failed, s);
    }
  }

  /** Without failures on its sends, a session other than the sender receives one copy per
      time it is queued. */
  lemma {:induction false} DeliveriesWithoutFailure(q: seq<SessionId>, own: Option<SessionId>, failed: set<nat>, s: SessionId)
    requires Some(s) != own
    requires forall i :: 0 <= i < |q| && q[i] == s ==> i !in failed
    ensures Deliveries(q, own, failed, s) == Count(q, s)
    decreases |q|
  {
    if q != [] {
      var last := |q| - 1;
      DeliveriesWithoutFailure(q[..last], own, failed, s);
      assert q == q[..last] + [q[last]];
      CountConcat(q[..last], [q[last]], s);
    }
  }

  /** Failure isolation: what `s` receives depends only on the sends to `s`; failed sends to
      other recipients change nothing for it. */
  lemma {:induction false} DeliveriesIsolated(q: seq<SessionId>, own: Option<SessionId>, f1: set<nat>, f2: set<nat>, s: SessionId)
    requires forall i :: 0 <= i < |q| && q[i] == s ==> (i in f1 <==> i in f2)
    ensures Deliveries(q, own, f1, s) == Deliveries(q, own, f2, s)
    decreases |q|
  {
    if q != [] {
      DeliveriesIsolated(q[..|q| - 1], own, f1, f2, s);
    }
  }

  /** A session queued once, other than the sender, whose send does not fail receives the
      broadcast exactly once, whichever other sends fail. */
  lemma DeliveredExactlyOnce(q: seq<SessionId>, own: Option<SessionId>, failed: set<nat>, s: SessionId)
    requires Count(q, s) == 1 && Some(s) != own
    requires forall i :: 0 <= i < |q| && q[i] == s ==> i !in failed
    ensures Deliveries(q, own, failed, s) == 1
  {
    DeliveriesWithoutFailure(q, own, failed, s);
  }

  /** `n` copies of `text`. */
  function Copies(text: string, n: nat): (r: seq<string>)
    ensures |r| == n && forall i :: 0 <= i < n ==> r[i] == text
  {
    seq(n, _ => text)
  }

  // ---------------------------------------------------------------------------
  // The outboxes: what each session has been sent

  type Outbox = map<SessionId, seq<string>>

  /** The texts delivered to `s` so far, oldest first; a session never sent anything has an
      empty log. */
  function Log(outbox: Outbox, s: SessionId): seq<string>
  {
    if s in outbox then outbox[s] else []
  }

  /** The outboxes after `texts` arrive at `s`, in order. */
  function Append(outbox: Outbox, s: SessionId, texts: seq<string>): Outbox
  {
    if texts == [] then outbox else outbox[s := Log(outbox, s) + texts]
  }

  /** Appending extends the recipient's log by exactly the texts and leaves every other log. */
  lemma AppendLog(outbox: Outbox, s: SessionId, texts: seq<string>, t: SessionId)
    ensures Log(Append(outbox, s, texts), t) == if t == s then Log(outbox, s) + texts else Log(outbox, t)
  {
    if texts == [] {
      assert Log(outbox, s) + texts == Log(outbox, s);
    }
  }

  /** Two deliveries to one session are one delivery of both, in order. */
  lemma AppendTwice(outbox: Outbox, s: SessionId, a: seq<string>, b: seq<string>)
    ensures Append(Append(outbox, s, a), s, b) == Append(outbox, s, a + b)
  {
    if a == [] {
      assert a + b == b;
    } else if b == [] {
      assert a + b == a;
    } else {
      assert Log(outbox, s) + a + b == Log(outbox, s) + (a + b);
    }
  }

  /** The outboxes after `msg` is sent to every session of `q` other than `own`, in queue
      order, when the sends at the queue positions in `failed` fail. */
  function Broadcast(outbox: Outbox, q: seq<SessionId>, own: Option<SessionId>, failed: set<nat>, msg: string): Outbox
    decreases |q|
  {
    if q == [] then outbox
    else
      var last := |q| - 1;
      var before := Broadcast(outbox, q[..last], own, failed, msg);
      if Some(q[last]) != own && last !in failed then Append(before, q[last], [msg]) else before
  }

  /** A broadcast adds to each session's log exactly its number of deliveries of the message,
      and nothing else. */
  lemma {:induction false} BroadcastLog(outbox: Outbox, q: seq<SessionId>, own: Option<SessionId>, failed: set<nat>, msg: string, s: SessionId)
    ensures Log(Broadcast(outbox, q, own, failed, msg), s) == Log(outbox, s) + Copies(msg, Deliveries(q, own, failed, s))
    decreases |q|
  {
    if q == [] {
      assert Log(outbox, s) + Copies(msg, 0) == Log(outbox, s);
    } else {
      var last := |q| - 1;
      var before := Broadcast(outbox, q[..last], own, failed, msg);
      var n := Deliveries(q[..last], own, failed, s);
      BroadcastLog(outbox, q[..last], own, failed, msg, s);
      assert Log(before, s) == Log(outbox, s) + Copies(msg, n);
      if Some(q[last]) != own && last !in failed {
        assert Broadcast(outbox, q, own, failed, msg) == Append(before, q[last], [msg]);
        AppendLog(before, q[last], [msg], s);
        if q[last] == s {
          CopiesSucc(msg, n);
          assert Deliveries(q, own, failed, s) == n + 1;
        } else {
          assert Deliveries(q, own, failed, s) == n;
        }
      } else {
        assert Broadcast(outbox, q, own, failed, msg) == before;
        assert Deliveries(q, own, failed, s) == n;
      }
    }
  }

  /** What a relay does to one session's log: the sender's own session and unqueued sessions
      get nothing; a session queued once whose send does not fail gets the message once,
      appended after what it had. */
  lemma RelayOutcome(outbox: Outbox, q: seq<SessionId>, own: Option<SessionId>, failed: set<nat>, msg: string, s: SessionId)
    ensures Some(s) == own ==> Log(Broadcast(outbox, q, own, failed, msg), s) == Log(outbox, s)
    ensures s !in q ==> Log(Broadcast(outbox, q, own, failed, msg), s) == Log(outbox, s)
    ensures Count(q, s) == 1 && Some(s) != own && (forall i :: 0 <= i < |q| && q[i] == s ==> i !in failed) ==>
              Log(Broadcast(outbox, q, own, failed, msg), s) == Log(outbox, s) + [msg]
  {
    BroadcastLog(outbox, q, own, failed, msg, s);
    assert Log(outbox, s) + Copies(msg, 0) == Log(outbox, s);
    assert Copies(msg, 1) == [msg];
    if Some(s) == own {
      DeliveriesToOwn(q, failed, s);
    }
    if s !in q {
      DeliveriesToUnqueued(q, own, failed, s);
    }
    if Count(q, s) == 1 && Some(s) != own && (forall i :: 0 <= i < |q| && q[i] == s ==> i !in failed) {
      DeliveredExactlyOnce(q, own, failed, s);
    }
  }

  lemma CopiesSucc(text: string, n: nat)
    ensures Copies(text, n) + [text] == Copies(text, n + 1)
  {
  }

  // ---------------------------------------------------------------------------
  // The state shared by all connections, and one connection's endpoint

  /** The two static collections of the endpoint class, and the transport's outboxes. */
  class Hub {
    /** The connected sessions, in connection order (duplicates allowed, as in the source). */
    var queue: seq<SessionId>
    /** The raw JSON texts of the draw events since the last clear. */
    var drawHistory: seq<string>
    /** What each session has been sent so far. */
    var outbox: Outbox

    constructor ()
      ensures queue == [] && drawHistory == [] && outbox == map[]
    {
      queue, drawHistory, outbox := [], [], map[];
    }

    /** `session.getBasicRemote().sendText(text)`; when the send fails nothing is delivered. */
    method SendText(s: SessionId, text: string, fails: bool)
      modifies this
      ensures queue == old(queue) && drawHistory == old(drawHistory)
      ensures outbox == if fails then old(outbox) else Append(old(outbox), s, [text])
    {
      if !fails {
        outbox := Append(outbox, s, [text]);
      }
    }
  }

  /** One connection's endpoint object: the shared hub and the session it was opened with. */
  class Endpoint {
    const hub: Hub
    var ownSession: Option<SessionId>

    constructor (hub: Hub)
      ensures this.hub == hub && ownSession == None
    {
      this.hub := hub;
      ownSession := None;
    }

    /** Queue the session, remember it as this connection's own, replay the whole
        history to it and then send the connection confirmation. The sends are numbered
        0 .. |history|, the confirmation being the last; those in `failed` fail. */
    method OpenConnection(session: SessionId, failed: set<nat>)
      modifies this, hub
      ensures ownSession == Some(session)
      ensures hub.queue == old(hub.queue) + [session]
      ensures hub.drawHistory == old(hub.drawHistory)
      ensures hub.outbox == Append(old(hub.outbox), session, Received(old(hub.drawHistory) + [CONNECTION_INFO], failed))
    {
      hub.queue := hub.queue + [session];
      ownSession := Some(session);
      for i := 0 to |hub.drawHistory|
        invariant ownSession == Some(session)
        invariant hub.queue == old(hub.queue) + [session]
        invariant hub.drawHistory == old(hub.drawHistory)
        invariant hub.outbox == Append(old(hub.outbox), session, Received(hub.drawHistory[..i], failed))
      {
        assert hub.drawHistory[..i + 1][..i] == hub.drawHistory[..i];
        ghost var sent := if i in failed then [] else [hub.drawHistory[i]];
        assert Received(hub.drawHistory[..i + 1], failed) == Received(hub.drawHistory[..i], failed) + sent;
        AppendTwice(old(hub.outbox), session, Received(hub.drawHistory[..i], failed), sent);
        hub.SendText(session, hub.drawHistory[i], i in failed);
      }
      ghost var replay := hub.drawHistory + [CONNECTION_INFO];
      assert replay[..|hub.drawHistory|] == hub.drawHistory[..|hub.drawHistory|];
      ghost var sent := if |hub.drawHistory| in failed then [] else [CONNECTION_INFO];
      assert Received(replay, failed) == Received(hub.drawHistory, failed) + sent;
      AppendTwice(old(hub.outbox), session, Received(hub.drawHistory, failed), sent);
      hub.SendText(session, CONNECTION_INFO, |hub.drawHistory| in failed);
    }

    /** A message containing the clear marker empties the history, any other message is
        appended to it; either way it is relayed to the other sessions. The sending
        session is not consulted: the relay excludes this endpoint's own session. */
    method ProcessMessage(message: string, session: SessionId, failed: set<nat>)
      modifies hub
      ensures hub.drawHistory == NextHistory(old(hub.drawHistory), message)
      ensures hub.queue == old(hub.queue)
      ensures hub.outbox == Broadcast(old(hub.outbox), hub.queue, ownSession, failed, message)
    {
      if Contains(message, CLEAR_MARKER) {
        hub.drawHistory := [];
      } else {
        hub.drawHistory := hub.drawHistory + [message];
      }
      SendToOthers(message, failed);
    }

    /** The session is closed: its first occurrence leaves the queue. */
    method ClosedConnection(session: SessionId)
      modifies hub
      ensures hub.queue == RemoveFirst(old(hub.queue), session)
      ensures hub.drawHistory == old(hub.drawHistory) && hub.outbox == old(hub.outbox)
    {
      hub.queue := RemoveFirst(hub.queue, session);
    }

    /** The session failed: its first occurrence leaves the queue; the cause is only logged. */
    method Error(session: SessionId, cause: string)
      modifies hub
      ensures hub.queue == RemoveFirst(old(hub.queue), session)
      ensures hub.drawHistory == old(hub.drawHistory) && hub.outbox == old(hub.outbox)
    {
      hub.queue := RemoveFirst(hub.queue, session);
    }

    /** Send `msg` to every queued session other than this endpoint's own, in queue order;
        the send to queue position i fails when i is in `failed`, and the loop goes on. */
    method SendToOthers(msg: string, failed: set<nat>)
      modifies hub
      ensures hub.queue == old(hub.queue) && hub.drawHistory == old(hub.drawHistory)
      ensures hub.outbox == Broadcast(old(hub.outbox), hub.queue, ownSession, failed, msg)
    {
      for i := 0 to |hub.queue|
        invariant hub.queue == old(hub.queue) && hub.drawHistory == old(hub.drawHistory)
        invariant hub.outbox == Broadcast(old(hub.outbox), hub.queue[..i], ownSession, failed, msg)
      {
        var session := hub.queue[i];
        assert hub.queue[..i + 1][..i] == hub.queue[..i];
        if Some(session) != ownSession {
          hub.SendText(session, msg, i in failed);
        }
      }
      assert hub.queue[..|hub.queue|] == hub.queue;
    }
  }

  // ---------------------------------------------------------------------------
  // A client of the endpoint

  /** The clear event as clients send it. */
  const CLEAR_EVENT: string := "{\"type\":\"clear\"}"

  lemma ClearEventIsClear()
    ensures IsClear(CLEAR_EVENT)
  {
    assert "{" + CLEAR_MARKER + "}" == CLEAR_EVENT;
    ContainsInContext("{", CLEAR_MARKER, "}");
  }

  /** Session 1 connects and draws; session 2 connects, is replayed the drawing, and sends
      a clear event (such as `CLEAR_EVENT`); session 2 disconnects. Each client sees the
      confirmation after its replay, nobody is sent its own message, and the history ends
      empty. */
  method RelayScenario(draw: string, clear: string)
    returns (log1: seq<string>, log2: seq<string>, history: seq<string>, queue: seq<SessionId>)
    requires !IsClear(draw) && IsClear(clear)
    ensures log1 == [CONNECTION_INFO, clear]
    ensures log2 == [draw, CONNECTION_INFO]
    ensures history == [] && queue == [1]
  {
    var hub := new Hub();
    var e1 := new Endpoint(hub);
    var e2 := new Endpoint(hub);
    ReceivedAll([] + [CONNECTION_INFO]);
    e1.OpenConnection(1, {});
    ghost var afterOpen := hub.outbox;
    e1.ProcessMessage(draw, 1, {});
    ghost var drawn := hub.outbox;
    assert Log(drawn, 1) == [CONNECTION_INFO] && Log(drawn, 2) == [] by {
      BroadcastLog(afterOpen, [1], Some(1), {}, draw, 1);
      BroadcastLog(afterOpen, [1], Some(1), {}, draw, 2);
    }
    assert hub.drawHistory == [draw];

    ReceivedAll([draw] + [CONNECTION_INFO]);
    e2.OpenConnection(2, {});
    ghost var joined := hub.outbox;
    assert Log(joined, 1) == [CONNECTION_INFO] && Log(joined, 2) == [draw, CONNECTION_INFO] by {
      AppendLog(drawn, 2, [draw] + [CONNECTION_INFO], 1);
      AppendLog(drawn, 2, [draw] + [CONNECTION_INFO], 2);
    }
    assert hub.queue == [1, 2];

    e2.ProcessMessage(clear, 2, {});
    assert Log(hub.outbox, 1) == [CONNECTION_INFO, clear] && Log(hub.outbox, 2) == [draw, CONNECTION_INFO] by {
      BroadcastLog(joined, [1, 2], Some(2), {}, clear, 1);
      BroadcastLog(joined, [1, 2], Some(2), {}, clear, 2);
      assert Copies(clear, 0) == [] && Copies(clear, 1) == [clear];
    }
    e2.ClosedConnection(2);
    log1, log2 := Log(hub.outbox, 1), Log(hub.outbox, 2);
    history, queue := hub.drawHistory, hub.queue;
  }
}
