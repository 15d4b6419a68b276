# Collaborative whiteboard relay, modelled in Dafny

This project models the core of a collaborative whiteboard server. It has two
stateful parts.

* **The board endpoint** (`BBEndpoint`). Every WebSocket connection gets an
  endpoint object. All of them share a queue of connected sessions and a draw
  history of raw JSON texts. On open, a session is queued and recorded as the
  endpoint's own session. It is then sent the whole history, followed by one
  `{"type":"info","message":"Connection established."}`. An incoming message
  containing the substring `"type":"clear"` empties the history. Any other
  message is appended to it. Either way the message is relayed to every queued
  session except the endpoint's own session. Close and error remove the
  session from the queue.
* **The one-time ticket store** (`TicketService`). Generating a ticket stores
  `userId:clientIp` under a fresh identifier. Validating a ticket succeeds
  exactly when the identifier is in the store, and deletes it.

Files:

* `text.dfy`, module `Text`: substring search, the `String.contains` that
  recognises clear events.
* `board.dfy`, module `Board`: the draw history as a function of the messages
  processed; queue removal; what a recipient receives from a replay or a
  relay; the classes `Hub` (the two shared collections plus every session's
  outbox) and `Endpoint` (one connection, with `ownSession`); a client
  scenario.
* `tickets.dfy`, module `Tickets`: the pure store transitions `Generate` and
  `Validate`, the class `TicketService` whose methods are tied to them, and a
  client.

Modelling choices:

* Sessions are opaque ids (`SessionId = nat`). The queue is a `seq` that may
  hold a session twice, because `Queue.add` does not deduplicate. Removal
  drops only the first occurrence, as `Queue.remove` does.
* Sending is appending to the recipient's log in the hub's `outbox` map.
  Every send may fail, as `sendText` may throw `IOException`. Which sends fail
  is an input: a set of send positions. For a replay, position i is the i-th
  history entry and position |history| is the confirmation. For a relay,
  position i is queue position i. A failed send delivers nothing, and the loop
  goes on.
* The endpoint excludes `this.ownSession` from the relay. It ignores the
  `session` argument of `processMessage`, exactly as the source does. While
  `ownSession` is unset (`None`), nobody is excluded, because
  `session.equals(null)` is false.
* The ticket store is a `map<string, string>`. The random UUID is a parameter
  of `GenerateTicket`.

Where the code differs from what its own comments and tests lead one to
expect, the model follows the code:

* The endpoint has no authentication gate, unlike the ticket-checking
  endpoint that `BBEndpointTest.java` exercises.
* On open, the endpoint replays history without waiting for a ticket.
* The doc comment of `processMessage` (BBEndpoint.java:78) says that a "draw"
  event is added to the history. The code at line 94 adds every message that
  lacks the clear marker, whatever its kind or shape, even when it is
  malformed.
* `validateTicket` checks neither the client IP nor the value's format. Lines
  54-55 are commented out, although the doc comment at TicketService.java:46
  promises an IP match.

Two further consequences of the code follow. Opening the same session twice
queues it twice, so queue membership is not idempotent. There is no message
kind other than clear and everything else, so the code has no separate chat
kind.

## Model

Source paths are relative to the repository root.

| member | source | states |
|---|---|---|
| `Text.Contains` | src/main/java/edu/demo/board/BBEndpoint.java:89 | true exactly when the marker occurs at some position of the message |
| `Text.ContainsInContext` | src/main/java/edu/demo/board/BBEndpoint.java:89 | a message containing the marker anywhere, with any text around it, is recognised |
| `Board.ClearEventIsClear` | src/main/java/edu/demo/board/BBEndpoint.java:89-91 | the client's `{"type":"clear"}` event counts as a clear |
| `Board.HistoryAfterConcat` | src/main/java/edu/demo/board/BBEndpoint.java:89-95 | processing two batches of messages one after the other equals processing their concatenation |
| `Board.HistoryWithoutClear` | src/main/java/edu/demo/board/BBEndpoint.java:92-95 | with no clear event, the history becomes the old history followed by the messages, in arrival order, earlier entries unchanged |
| `Board.HistorySinceLastClear` | src/main/java/edu/demo/board/BBEndpoint.java:89-95 | whatever it held before, the history is exactly the messages after the last clear event, in order |
| `Board.ClearThenDraws` | src/main/java/edu/demo/board/BBEndpoint.java:89-95 | a clear followed by non-clear messages d1..dn leaves the history exactly [d1..dn] |
| `Board.ClearTwice` | src/main/java/edu/demo/board/BBEndpoint.java:89-91 | two consecutive clears have the same effect on the history as one, whatever follows |
| `Board.IndexOf` | src/main/java/edu/demo/board/BBEndpoint.java:109 | the position of the first occurrence of a queued session |
| `Board.RemoveFirst` | src/main/java/edu/demo/board/BBEndpoint.java:109 | removing an unqueued session is a no-op; otherwise exactly the first occurrence is cut out and all other sessions keep their order |
| `Board.RemoveFirstCount` | src/main/java/edu/demo/board/BBEndpoint.java:122 | removal lowers the removed session's count by one and no other session's count |
| `Board.RemoveFirstMembership` | src/main/java/edu/demo/board/BBEndpoint.java:108-111 | after removal, every other session is queued iff it was before, and a session queued at most once is gone |
| `Board.OpenThenClose` | src/test/java/edu/demo/BBEndpointTest.java:117-122 | opening a session that was not queued makes it queued, and closing it restores the queue exactly |
| `Board.ReceivedAll` | src/main/java/edu/demo/board/BBEndpoint.java:59-73 | with no send failing, the new client receives every history entry in order, then the confirmation |
| `Board.ReceivedPrefix` | src/main/java/edu/demo/board/BBEndpoint.java:60-66 | what the earlier sends deliver comes first, whatever the later sends do |
| `Board.ReceivedDespiteFailures` | src/main/java/edu/demo/board/BBEndpoint.java:61-65 | a send that does not fail is delivered, right after whatever the earlier sends delivered, even when some of them failed |
| `Board.ReceivedOnlySent` | src/main/java/edu/demo/board/BBEndpoint.java:60-73 | a client receives nothing that was not sent, and never more texts than were sent |
| `Board.ReplayEndsWithConfirmation` | src/main/java/edu/demo/board/BBEndpoint.java:68-73 | when its own send succeeds, the confirmation arrives after every replayed entry that got through |
| `Board.DeliveriesToOwn` | src/main/java/edu/demo/board/BBEndpoint.java:133 | the endpoint's own session never receives its relay |
| `Board.DeliveriesToUnqueued` | src/main/java/edu/demo/board/BBEndpoint.java:132 | a session that is not queued receives nothing |
| `Board.DeliveriesWithoutFailure` | src/main/java/edu/demo/board/BBEndpoint.java:131-141 | a session other than the endpoint's own whose sends do not fail receives one copy per time it is queued |
| `Board.DeliveriesIsolated` | src/main/java/edu/demo/board/BBEndpoint.java:134-138 | what a session receives depends only on the sends to it; failures for other recipients change nothing for it |
| `Board.DeliveredExactlyOnce` | src/main/java/edu/demo/board/BBEndpoint.java:131-141 | a session queued once, not the endpoint's own, whose send does not fail receives the message exactly once, whichever other sends fail |
| `Board.AppendLog` | src/main/java/edu/demo/board/BBEndpoint.java:135 | a delivery extends the recipient's log by exactly the texts sent and leaves every other log |
| `Board.AppendTwice` | src/main/java/edu/demo/board/BBEndpoint.java:60-73 | two successive deliveries to one session equal one delivery of both, in order |
| `Board.BroadcastLog` | src/main/java/edu/demo/board/BBEndpoint.java:131-141 | a relay appends to each session's log exactly its number of deliveries of the message, verbatim, and nothing else |
| `Board.RelayOutcome` | src/main/java/edu/demo/board/BBEndpoint.java:131-141 | after a relay, the own session's and unqueued sessions' logs are unchanged, and a session queued once whose send succeeds has the message appended once |
| `Board.Hub.constructor` | src/main/java/edu/demo/board/BBEndpoint.java:34-45 | the shared queue and history start empty, and nothing has been sent |
| `Board.Hub.SendText` | src/main/java/edu/demo/board/BBEndpoint.java:135-137 | a successful send appends the text to the recipient's log; a failed one changes nothing; queue and history are untouched |
| `Board.Endpoint.constructor` | src/main/java/edu/demo/board/BBEndpoint.java:39 | a new endpoint shares the hub and has no own session yet |
| `Board.Endpoint.OpenConnection` | src/main/java/edu/demo/board/BBEndpoint.java:53-74 | the session is appended to the queue, no other membership changes, it becomes the own session, the history is unchanged, and only its log grows, by the successful ones of the history sends followed by the confirmation |
| `Board.Endpoint.ProcessMessage` | src/main/java/edu/demo/board/BBEndpoint.java:85-99 | the history becomes `NextHistory` of the old one: a message containing the clear marker empties it, any other is appended at its end, so the history lemmas apply to runs of the method; the queue is unchanged; the outboxes are those of the relay from the old outboxes |
| `Board.Endpoint.ClosedConnection` | src/main/java/edu/demo/board/BBEndpoint.java:107-111 | the queue loses the session's first occurrence, and history and outboxes are unchanged |
| `Board.Endpoint.Error` | src/main/java/edu/demo/board/BBEndpoint.java:120-124 | as for close: the first occurrence leaves the queue and nothing else changes |
| `Board.Endpoint.SendToOthers` | src/main/java/edu/demo/board/BBEndpoint.java:131-141 | the outboxes become those of the relay of the message over the queue, excluding the own session and skipping failed sends; the queue and history are unchanged |
| `Board.RelayScenario` | src/main/java/edu/demo/board/BBEndpoint.java:53-124 | in one run, the late joiner is replayed the drawing and then the confirmation, nobody is sent its own message, the clear empties the history, and the closed session leaves the queue |
| `Tickets.TicketValue` | src/main/java/edu/demo/board/TicketService.java:34 | the stored value is the user id, one colon, then the client IP |
| `Tickets.TicketValueDetermines` | src/main/java/edu/demo/board/TicketService.java:34 | when user ids hold no colon, the stored value determines both the user and the IP |
| `Tickets.Generate` | src/main/java/edu/demo/board/TicketService.java:32-37 | the identifier is returned as the ticket and now maps to `userId:clientIp`; every other key keeps its value |
| `Tickets.Validate` | src/main/java/edu/demo/board/TicketService.java:48-57 | valid iff the ticket is present; the ticket's key is removed and every other entry is unchanged; an absent ticket leaves the store unchanged |
| `Tickets.SingleUse` | src/main/java/edu/demo/board/TicketService.java:50-57 | validating the same ticket a second time is invalid |
| `Tickets.ClientIpIgnored` | src/main/java/edu/demo/board/TicketService.java:53-57 | the verdict and new store are the same whatever client IP is given |
| `Tickets.GenerateThenValidate` | src/main/java/edu/demo/board/TicketService.java:32-57 | a generated ticket validates from any address exactly once, and afterwards the store is the original one without that identifier |
| `Tickets.TicketService.constructor` | src/main/java/edu/demo/board/TicketService.java:20-22 | the service starts over the given store |
| `Tickets.TicketService.GenerateTicket` | src/main/java/edu/demo/board/TicketService.java:32-38 | returns the given identifier and updates the store as `Generate` does |
| `Tickets.TicketService.ValidateTicket` | src/main/java/edu/demo/board/TicketService.java:48-58 | returns the verdict and leaves the store that `Validate` gives, with the early `false` for an absent ticket |
| `Tickets.IssueAndRedeemTwice` | src/main/java/edu/demo/board/TicketService.java:32-57 | on a fresh service, generate then validate twice gives the ticket, true, then false, and the store ends as it began minus the identifier |

## Left out

- Concurrency: the `ConcurrentLinkedQueue` and the unsynchronised static `ArrayList` are shared across connections. The model is sequential, and each callback is one atomic step.
- Tickets.SingleUse: holds only for validations that do not interleave. `validateTicket` reads the ticket (TicketService.java:50) and deletes it in a separate step (TicketService.java:56), so two concurrent validations of one ticket can both return `true`. The model treats each validation as one atomic step.
- Text.Contains: works on Unicode scalar values, while Java's `String.contains` compares UTF-16 code units. A Java message holding a lone surrogate has no counterpart here. The clear marker is ASCII, so recognising it is unaffected.
- The WebSocket transport: `getBasicRemote().sendText` becomes an append to a per-session log, and `IOException` becomes a per-send failure flag. A partially transmitted text is not modelled.
- Logging and `System.out.println` have no effect on state and are omitted.
- The `Throwable` passed to `error` is a string parameter that is only logged; nothing about it is modelled.
- The Redis store's 5-minute expiry: it needs time, so a stored ticket stays until validated.
- The source of the random ticket identifier: `UUID.randomUUID()` is an input, so uniqueness of identifiers is not modelled; reusing an identifier overwrites its entry, as Redis `SET` would.
- `value.split(":")` in `validateTicket`: its result is unused and it cannot fail on a string.
- A null ticket: Java strings may be null, and Dafny strings are never null.
- The ticket-authenticated endpoint exercised by `BBEndpointTest.java`: it has `setTicketService`, a two-argument `openConnection` and an auth gate. Its source is not part of this model; only the queue-membership tests agree with the modelled endpoint.
- `BBTicketController`, both `SecurityConfig` classes and both `BBConfigurator` classes: they are HTTP and endpoint wiring with no behaviour of their own.
