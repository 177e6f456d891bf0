# reprise-p2p, verified model

This project models the peer-to-peer rendezvous and hole punching of reprise-p2p and proves
properties of the model with Dafny 4.11. `dafny verify dfyconfig.toml` checks everything.

## What is modelled

- `Bytes.dfy`: bytes, little-endian integers, public keys with the array order, socket addresses,
  instants.
- `Messages.dfy`: the UDP datagrams. Parsers and encoders are functions on byte sequences; the two
  that loop in the source are methods proved equal to them. The calendar and Ed25519 (section 5.1 of
  RFC 8032) are function-valued fields of an `Env`; `Env.Sound` states what is used about them: what a
  key signs verifies under its public key, and dates fit 64-bit milliseconds. `Layout.dfy` gives the
  datagrams byte by byte and the error each bad one gets.
- `Matcher.dfy`: the server's `UdpState` as a class, its cleanup, its search loop and the handling of
  one datagram, proved equal to a step function. `MatcherHistory.dfy` gives the slot map its meaning
  in terms of past requests alone and proves invariants over all runs; `MatcherReplies.dfy` says
  what each request is answered with and how long a stored one can be met; `MatcherLedger.dfy` accounts
  for every slot.
- `Cursor.dfy`: the rotating choice of at most ten peers over the ordered map of trusted peers.
- `Client.dfy`: the connection establisher as a class with `poll_accept`; `ClientRuns.dfy`: its runs;
  `ClientAnswers.dfy`: what a poll hands out, and when requests go out and peers are sought.
- `Punch.dfy`: the punch handshake of one side, as a method over the events its socket brings;
  `PunchDuo.dfy`: two sides over a lossy, repeating, reordering network with address translation.
- `Rendezvous.dfy`: server, any number of clients, outsiders and a network, as a step system over
  datagram bytes built from the functions of the files above. `ServerRuns.dfy`: what its server hears is
  a run of the matcher. `Handshakes.dfy`: the handshakes its clients start. `Meeting.dfy`: when two
  clients meet, and the runs in which crossed or replayed requests lead elsewhere.
- `TcpTable.dfy`: the TCP rendezvous table as a class; `TcpRuns.dfy`: all interleavings of the
  handlers that use it.
- `Interfaces.dfy`: the choice of the network interface.

Time is passed in. The source reads the clock once per table entry (`src/server/udp.rs:42`,
`src/server/udp.rs:154`, `src/udp/client.rs:45`); the model reads it once per step, in milliseconds
for the monotonic clock and nanoseconds for UTC. Where a lemma needs times that do not go back it
says so. A socket is identified by the address the server sees it under, and a new socket has an
address not used before. Fresh sockets, random session ids, interface lists and everything a socket
receives are inputs.

Rendezvous assumptions: source addresses are kept, and an outsider cannot produce a datagram that
verifies under a client's key with a content that client has not sent (it may repeat what was sent,
from any address of its own). The network of `Rendezvous.dfy` carries requests, notifications and
outsiders' datagrams. The punches and acks that clients send from the same sockets, and the
application's traffic over a socket handed out, are not in it: a handshake appears there by its result
alone. The results of two handshakes that hear punches and acks from each other only are related by
`Handshakes.FacingHandshakes`.

TCP assumptions: the table operations are atomic, as under the mutex. A waiter that times out looks at
its channel and at its timer at one instant (`Expire`); the source looks at the channel first and at
the timer directly after, and the five-second bound of `TcpRuns.EndsAgree` leaves out what may happen
between these two looks.

## Where the code and its comments differ

The model follows the code.

- `src/udp/messages.rs:32` says signed messages are valid for ten seconds; the server compares whole
  seconds with 30 (`src/server/udp.rs:12`, `src/server/udp.rs:74`), so in effect anything under 31
  seconds passes (`Matcher.TimestampWindow`).
- `src/udp/messages.rs:230` describes a notification about a lost request. The server remembers under
  the later sender the session id of the earlier requester (`src/server/udp.rs:139-143`), so a repeated
  request is answered as lost exactly when both sides used the same id
  (`MatcherHistory.RepeatedSessionLostIff`), and a client that was only ever the earlier side never is
  (`MatcherHistory.StoredSideNeverLost`).
- One match tells one side to listen and the other not to. Two handshakes over facing sockets can
  stem from two matches, and then both sides may be non-listeners: `Rendezvous.RolesOppositeIff` says
  exactly when the roles are opposite, `Meeting.BothNonListeners` is a run in which they are not.
- After a match only the later sender's slots are cleared (`src/server/udp.rs:145`). A stored request
  can be matched again exactly when it lists two distinct peers (`MatcherLedger.MatchableTwiceIff`).
- A client may list its own key, so "never waiting for each other" is about two distinct keys.
- `on_connection_closed` adds a peer that was not trusted (`src/udp/client.rs:183`).
- `remove_connection_request` is commented as removing the request inserted before
  (`src/server/tcp_state.rs:97`) but clears whatever is in the slot;
  `TcpRuns.ClearDropsOtherIff` says exactly when that is another requester's.
- `src/server.rs:91` waits with a timer. Between the timer winning and the receiver being dropped the
  channel still takes a value, so a service can be told to connect and its requester not. The model
  has a step for each (`Expire`, `GiveUp`); `TcpRuns.EndsAgree` confines this to a channel fired at
  least five seconds after insertion and more than half a second after it was taken, and
  `TcpRuns.LateFireMissed` is such a course of events.

## Model

| member | source | states |
|---|---|---|
| Bytes.RankIsArrayOrder | src/udp/client.rs:63 | The order in which the map of peers is walked is the byte-array order: rank comparison agrees with the first differing byte. |
| Messages.TryParse | src/udp/messages.rs:118-181 | The receiving loop computes the parse of a signed request, every error case included. |
| Messages.ToBytes | src/udp/messages.rs:184-220 | The sending loop computes the encoding, 112 + 32n bytes for n peers, at most 432. |
| Messages.PayloadParsesIff | src/udp/messages.rs:136-176 | A payload parses to a request exactly when it starts with that request's encoding of 1 to 10 peers. |
| Messages.RawParsesIff | src/udp/messages.rs:43-84 | Exactly which datagrams the envelope parser takes, which bytes become which field, and that the signed text is the timestamp bytes followed by the payload bytes. |
| Messages.RequestParsesIff | src/udp/messages.rs:43-181 | A datagram is accepted as a given request, signer and time exactly when its bytes have the layout, the date and key are valid, and the signature verifies over its own timestamp and payload bytes. |
| Messages.RequestRoundTrip | src/udp/messages.rs:86-220 | Parsing an encoded request returns the peers, the session, the signer's key and the timestamp cut to milliseconds. |
| Messages.ServerParsesIff | src/udp/messages.rs:238-319 | A server datagram parses to a message exactly when, with its listener byte normalised, it starts with the message's encoding. |
| Messages.ServerRoundTrip | src/udp/messages.rs:238-319 | Server messages round-trip; parse, encode, parse is stable under trailing bytes and odd listener bytes. |
| Layout.IntegersOnWire | src/udp/messages.rs:64-275 | Ports, session ids and timestamps go on the wire least significant byte first, timestamps as two's complement. |
| Layout.RequestLayout | src/udp/messages.rs:86-220 | A request datagram byte by byte: 1, version 2, milliseconds rounded down, signature over time and content, key, then 1, session, count, and the peers' keys in order. |
| Layout.RequestErrors | src/udp/messages.rs:43-181 | Exactly which bytes get which error, for every error of the request parser. |
| Layout.ServerLayout | src/udp/messages.rs:296-319 | The two server messages byte by byte. |
| Layout.ServerErrors | src/udp/messages.rs:239-294 | Exactly which server datagrams are too short, of an unknown kind, or accepted. |
| Matcher.Fresh | src/server/udp.rs:11-42 | Counting whole seconds, a slot is kept exactly while less than 10000 ms have passed. |
| Matcher.CleanedSlot | src/server/udp.rs:40-46 | Cleanup keeps exactly the slots placed less than 10000 ms ago, unchanged. |
| Matcher.UdpState.Cleanup | src/server/udp.rs:40-46 | The in-place pass over the outer map leaves exactly the inner maps that keep a fresh slot. |
| Matcher.UdpState.DropOutdated | src/server/udp.rs:42 | The pass over one inner map leaves exactly the fresh slots. |
| Matcher.TimestampWindow | src/server/udp.rs:72-77 | A signed time is accepted exactly when it is less than 31 seconds from the server's clock either way; 30.5 seconds old is still accepted. |
| Matcher.UdpState.TakeWaiting | src/server/udp.rs:97-111 | The search loop takes the slot of the first listed peer that waits for the sender, drops an emptied inner map, and changes nothing else. |
| Matcher.UdpState.HandleRequest | src/server/udp.rs:84-158 | Handling one request yields the next server state and the datagrams of its outcome. |
| Matcher.UdpState.OnDatagram | src/server/udp.rs:61-162 | Bytes that do not parse or verify, or whose timestamp is too far off, change nothing; the others are handled as requests from the datagram's source address. |
| MatcherHistory.StepSlot | src/server/udp.rs:84-158 | What one request does to each single slot, for every outcome. |
| MatcherHistory.MatchedSlot | src/server/udp.rs:97-111 | A match is with a live slot of a listed peer that waits for the sender. |
| MatcherHistory.NeverMutualWaiting | src/server/udp.rs:97-158 | In every reachable state no two distinct clients hold slots for each other. |
| MatcherHistory.RunRefinesHistory | src/server/udp.rs:40-158 | At every point of every run, `a` holds a slot for `b`, with these contents, exactly when `a`'s latest request not answered as lost was stored, listed `b`, is under ten seconds old and was not consumed by `b`; the remembered sessions likewise. |
| MatcherHistory.HistoryExists | src/server/udp.rs:86-158 | Every sequence of requests has a judged history, so the results about histories are about every run. |
| MatcherHistory.HistoryUnique | src/server/udp.rs:86-158 | The verdicts of the history specification are determined by the requests alone. |
| MatcherHistory.ServerJudgesByHistory | src/server/udp.rs:86-158 | Each decision of the server is the one determined by the earlier requests alone. |
| MatcherHistory.MatchesAreMutualAndUnique | src/server/udp.rs:99-145 | A match joins a stored request under ten seconds old with a request listing its sender, and no slot is consumed twice. |
| MatcherHistory.OutcomeIff | src/server/udp.rs:97-158 | A request that is not lost is stored exactly when no listed peer has a live slot for its sender, and otherwise takes the slot of the first listed one that has. |
| MatcherHistory.LostIff | src/server/udp.rs:86-143 | In every run a request is answered as lost exactly when the other side of its sender's latest own match used the same session id. |
| MatcherHistory.RepeatedSessionLostIff | src/server/udp.rs:86-143 | In every run, at any time until a client's next own match, repeating the session id of its latest one is answered as lost exactly when both sides of that match had used the same id. |
| MatcherHistory.StoredSideNeverLost | src/server/udp.rs:86-143 | In every run, a client that has only ever been the stored side of matches is never answered as lost. |
| MatcherHistory.WaitingIsFound | src/server/udp.rs:97-145 | In every run, a request that is not lost is matched with the latest request of the first listed peer that waits for its sender, whatever happened in between. |
| MatcherReplies.RepliesByHistory | src/server/udp.rs:86-158 | In every run, the datagrams sent on each request, field by field, in terms of the requests: none if stored; to a lost one's own address the other side of its sender's latest own match; for a match, to each request's address the sender, address and session of the other, the earlier one as non-listener. |
| MatcherReplies.MetWithinTenSeconds | src/server/udp.rs:40-158 | In every run, a stored request not heard of again is matched by a listed peer's request that is not lost, with nobody listed earlier waiting, exactly if that comes less than 10000 ms later; then both are notified. |
| MatcherReplies.InnerMapsNotEmpty | src/server/udp.rs:43-111 | No reachable state keeps an empty inner map. |
| MatcherLedger.StepConserves | src/server/udp.rs:84-158 | One request: slots before plus placed equal slots after plus expired, matched and superseded. |
| MatcherLedger.SlotsConserved | src/server/udp.rs:40-158 | Over every run, slots placed equal slots held plus matched plus expired plus superseded by the requester's own request. |
| MatcherLedger.MatchableTwiceIff | src/server/udp.rs:108-146 | A just-stored request can be matched twice in some continuation with non-decreasing times exactly when it lists two distinct peers. |
| Cursor.InOrder | src/udp/client.rs:187-188 | Walking the key set yields each key once in ascending order. |
| Cursor.SelectsNearest | src/udp/client.rs:186-194 | The peers of a request are enabled trusted keys in cyclic order from the cursor, at most ten, and one is left out only if ten nearer ones are taken. |
| Cursor.SkipConsumesTen | src/udp/client.rs:196-207 | If an enabled key is passed over, the new cursor is strictly closer to it and ten keys fewer lie between. |
| Cursor.ServedWithin | src/udp/client.rs:186-210 | A key that stays trusted and enabled is selected within ceil(N/10) calls, N being the number of all keys seen meanwhile, however the others change. |
| Cursor.NeverStarves | src/udp/client.rs:186-210 | Even if other keys are added without end, a key trusted and enabled at each call is selected before the calls outnumber its cyclic distance from the cursor. |
| Client.AskedIsEncodable | src/udp/client.rs:335-347 | Every request about to be sent lists 1 to 10 enabled peers, so the encoder's panic is out of reach. |
| Client.AsksForAll | src/udp/client.rs:186-194 | A client with at most ten enabled peers lists all of them. |
| Client.UdpConnectionEstablisher.constructor | src/udp/client.rs:148-159 | The initial state. |
| Client.UdpConnectionEstablisher.AddTrustedRemote | src/udp/client.rs:162-164 | Adds a peer with a default entry, keeping an existing entry. |
| Client.UdpConnectionEstablisher.RemoveTrustedRemote | src/udp/client.rs:167-169 | Removes a peer. |
| Client.UdpConnectionEstablisher.SetTrustedRemoteList | src/udp/client.rs:171-178 | Leaves exactly the listed peers, old ones with their entries. |
| Client.UdpConnectionEstablisher.OnConnectionClosed | src/udp/client.rs:182-184 | Re-enables a peer, adding it if missing, and keeps its back-off and last session. |
| Client.UdpConnectionEstablisher.NewAvailableRemotesList | src/udp/client.rs:186-210 | Returns the selection and advances the cursor past its last key. |
| Client.UdpConnectionEstablisher.PlaceConnectionRequests | src/udp/client.rs:211-225 | The datagram is the signed encoding of the peers under the current session id. |
| Client.UdpConnectionEstablisher.AskServer | src/udp/client.rs:335-347 | A request is sent exactly when one is due and some peer is enabled. |
| Client.UdpConnectionEstablisher.OnArrival | src/udp/client.rs:350-434 | The reaction to each kind of arrival, with state, result and handshake traffic. |
| Client.UdpConnectionEstablisher.OnInitiate | src/udp/client.rs:360-410 | Duplicate suppression, socket and session rotation, handshake, back-off or activation. |
| Client.UdpConnectionEstablisher.PollAccept | src/udp/client.rs:327-435 | One poll: new state, result, request sent and from which socket, handshake traffic. |
| ClientRuns.PollIsOps | src/udp/client.rs:327-435 | A poll is its elementary operations; it hands out a connection exactly when a notification is accepted and the handshake succeeds, over the socket in use until then, which is replaced. |
| ClientAnswers.PollAnswers | src/udp/client.rs:327-435 | For everything that can arrive, what a poll answers and its handshake sends; a connection handed out has the notification's peer and role, the socket in use until then and the source of the last punch, and a failure tells which of punch and ack came. |
| ClientRuns.SuccessesSeparated | src/udp/client.rs:368-404 | Between a success with a peer and the next attempt on it, it was closed or removed. |
| ClientRuns.ConsecutiveSessionsDiffer | src/udp/client.rs:374-378 | Consecutive attempts on a retained peer answer different session ids. |
| ClientRuns.BackoffRespected | src/udp/client.rs:41-49 | Until a failed peer's back-off has passed it is neither requested nor attempted, unless closed, removed or set anew. |
| ClientAnswers.SoughtAgain | src/udp/client.rs:41-49 | In every run, after an attempt and until the peer is closed, removed or attempted again: after a success it is never sought; after a failure it is sought at exactly the times past the end plus the timeout before it, when a due request with at most ten candidates lists it and a notification under a new id starts an attempt. |
| ClientAnswers.SoughtAfterOpening | src/udp/client.rs:162-184 | In every run, a peer that is closed or newly trusted is sought at any time until it is attempted or removed. |
| ClientAnswers.TrustedIff | src/udp/client.rs:162-184 | In every run a peer is trusted exactly as the latest add, close, remove or list that says anything about it has it. |
| ClientAnswers.TrustStep | src/udp/client.rs:51-184 | And a newly trusted peer is enabled, with a 100 ms timeout and no session. |
| ClientAnswers.RequestSentIff | src/udp/client.rs:335-347 | In every run, asking sends a request exactly if some trusted peer is sought and, unless a handshake was started since, the last request is three seconds old. |
| ClientAnswers.SocketOrigin | src/udp/client.rs:328-381 | In every run the socket in use is the one brought in last, by a handshake or by a change of the interface. |
| ClientRuns.RequestsShareIdIff | src/udp/client.rs:366-415 | Two requests of a run carry the same session id exactly when between them no handshake was started and no lost request reported, provided random ids do not repeat. |
| ClientRuns.BackoffSteps | src/udp/client.rs:387-389 | The closed form of the back-off: doubling to 1600 ms, then plus one second, capped at 5000 ms, monotone. |
| ClientRuns.TimeoutIsBackoff | src/udp/client.rs:384-397 | In every run a peer's retry timeout is the closed form of its failures in a row, within 100 to 5000 ms. |
| ClientRuns.RequestsMoveCursor | src/udp/client.rs:196-207 | Only requests that are sent move the cursor. |
| ClientRuns.RequestsFollowCursor | src/udp/client.rs:186-224 | Every request of a run lists what the cursor selects at that point. |
| ClientRuns.NobodyStarves | src/udp/client.rs:186-224 | A client's run that sends enough requests lists every peer that stays trusted and enabled. |
| ClientRuns.EventuallyListed | src/udp/client.rs:186-224 | The same with no bound on the other peers: a peer trusted and enabled at every request gets listed. |
| Punch.HolePunch | src/udp/client.rs:235-322 | The loops compute the result and the sends of the events handled before deadline or completion; what comes while draining is at most warned about. |
| Punch.Drain | src/udp/client.rs:292-314 | The draining loop warns once for each stray: a receive error or a datagram that is neither punch nor ack. |
| Punch.StraysCount | src/udp/client.rs:300-310 | That count is the number of such events. |
| Punch.ExchangeMeaning | src/udp/client.rs:245-282 | The flags tell which datagrams came; the destination is the source of the last punch, before that the reported address. |
| Punch.SeenMeaning | src/udp/client.rs:238-252 | The events acted on are those of the turns that began less than 500 ms after the start with a punch or an ack still missing. |
| Punch.ResultMeaning | src/udp/client.rs:284-321 | Success with an address exactly when a punch and an ack came and the last punch came from there; failure reports exactly what was seen. |
| Punch.SendsMeaning | src/udp/client.rs:255-275 | Sends go to the reported address or to sources of punches, only punches to the reported address before the first punch, one ack per punch received. |
| Punch.SendsByEvent | src/udp/client.rs:255-275 | Event by event: a tick sends one punch to the source of the last punch, or to the reported address; a punch sends one ack to where it came from; nothing else sends. |
| PunchDuo.OneSidedSuccess | src/udp/client.rs:245-290 | In every run of two sides, if one succeeds the other saw a punch, and if that one fails its error is exactly "punch but no ack". |
| PunchDuo.CompatibleOccurs | src/udp/client.rs:245-290 | Every pair of results not excluded by that does occur, even on an open network. |
| Rendezvous.EmittedOk | src/server/udp.rs:113-137 | Both notifications of a match are backed by requests for each other from the addresses they name, and mirror each other with opposite roles. |
| Rendezvous.PunchProvenance | src/udp/client.rs:352-384 | In every run a handshake is started only with a trusted peer, and there is an earlier step at which the server matched this client's request, sent over the socket it punches from, with the peer's from the announced address, each listing the other; the notice is one of the two that step sent, and the other gave the announced address this client, this socket, its request's session and the opposite role. |
| Rendezvous.NoticeExplained | src/server/udp.rs:108-137 | In every run each notification in the network was sent by an earlier match, as one of its two. |
| Rendezvous.RolesOppositeIff | src/server/udp.rs:115-127 | Two notifications that point at each other's receivers give opposite roles exactly when their matches had the same side waiting; so one match never makes two listeners or none. |
| Rendezvous.SocketsUsedOnce | src/udp/client.rs:380-404 | In every run no socket serves two handshakes or is handed out twice. |
| ServerRuns.ServerRunsMatcher | src/server/udp.rs:48-162 | In every run of the system the server is in the state the matcher reaches on the requests it has accepted, in their order and at non-decreasing times. |
| ServerRuns.ServerFollowsHistory | src/server/udp.rs:40-158 | So in every run of the system the server's slots and remembered sessions are what the requests heard call for, no two distinct clients hold slots for each other, and slots placed equal slots held plus matched, expired and superseded. |
| ServerRuns.SystemJudgesByHistory | src/server/udp.rs:86-158 | And each of its decisions is the one the requests heard before call for. |
| ServerRuns.KeepsWaiting | src/server/udp.rs:40-158 | A stored request keeps its slot for a listed peer for ten seconds through any steps but a further request of its client or a request of that peer that lists it. |
| Handshakes.ReceiveIsHandle | src/udp/client.rs:350-434 | What a datagram does to a client of the system is what the dispatch of one poll does, given the result of its handshake. |
| Handshakes.AttemptNoticed | src/udp/client.rs:360-384 | Every handshake of a run was started on a notification sent to the socket it uses. |
| Handshakes.FacingHandshakes | src/udp/client.rs:235-290 | In every run, two handshakes over facing sockets that hear punches and acks only from each other end compatibly (an ack seen on one side means a punch seen on the other), come from matches of the run, and have opposite roles exactly when the same side waited in both. |
| Meeting.MeetsWaiting | src/server/udp.rs:97-137 | In any run, a request that reaches the server while a listed peer waits, and nobody listed earlier, is matched with that peer's: each side is sent the other's address and session with opposite roles, and starts a handshake exactly if it then seeks that peer under a new id. |
| Meeting.TwoClientsMeet | src/server/udp.rs:97-158 | In any run, with any steps in between: if two clients list each other in requests under ten seconds apart that repeat no remembered session, meanwhile the server hears nothing else of the first and nothing of the second that lists the first, and no third client that a request lists waits for its sender, then they are introduced: by the first request if the partner waits already, else by the second, with just these two requests. |
| Meeting.MeetInTurn | src/server/udp.rs:97-137 | Any run can go on so: two clients that come to list each other, where nobody the first lists (its partner included) and nobody else the second lists waits for it, need only their two requests to start the handshake, towards each other's sockets, the later one as listener. |
| Meeting.BothNonListeners | src/server/udp.rs:108-146 | A run in which requests cross (a, b, b, a) makes two matches, and both clients start the handshake towards each other's sockets as non-listeners. |
| Meeting.ReplayedAddress | src/server/udp.rs:63-78 | A run in which an outsider repeats a client's request from its own address, and the other client starts a handshake towards that address, which no client owns. |
| TcpTable.TcpState.AnnounceCheck | src/server/tcp_state.rs:49-66 | Refreshes or adds the entry and takes the pending request if its deadline is ahead. |
| TcpTable.TcpState.InsertConnectionRequest | src/server/tcp_state.rs:79-95 | Replaces the pending request of a known session and returns the service's address; nothing for an unknown one. |
| TcpTable.TcpState.RemoveConnectionRequest | src/server/tcp_state.rs:98-103 | Empties the session's slot, whoever's request it holds. |
| TcpTable.TcpState.PollUpdate | src/server/tcp_state.rs:106-122 | Collecting and then removing leaves exactly the entries announced within three seconds. |
| TcpRuns.RunKeeps | src/server.rs:56-126 | Every interleaving of handler steps keeps: entries under their own session, pending requests untaken with their 4500 ms deadline, consistent waiters. |
| TcpRuns.TakenInTime | src/server/tcp_state.rs:65-91 | In every interleaving a request is taken less than 4500 ms after insertion, untaken before and its waiter not timed out. |
| TcpRuns.TakenOnce | src/server/tcp_state.rs:49-66 | No request is handed to services twice. |
| TcpRuns.TakenAddress | src/server/tcp_state.rs:49-86 | In every interleaving a service that takes a request is handed the address the request was placed from, under 4500 ms before, for its own session. |
| TcpRuns.PlaceAnswered | src/server/tcp_state.rs:49-91 | In every interleaving a requester is answered with the address its service announced itself from last. |
| TcpRuns.EntryIff | src/server/tcp_state.rs:49-122 | In every interleaving a session is listed exactly if no update has come more than three seconds after its latest announcement, with that announcement's data, address and time. |
| TcpRuns.PendingIff | src/server/tcp_state.rs:49-122 | What each step does to each pending request: exactly which steps end it. |
| TcpRuns.TakesIff | src/server/tcp_state.rs:66 | An announcement takes a request exactly if it is pending at its session and was placed less than 4500 ms ago. |
| TcpRuns.EndsAgree | src/server.rs:74-103 | If a service was told to connect, its requester is told too unless its handler died, or the channel was fired five seconds or more after insertion and over half a second after it was taken; a requester that is told has a service that was, and one that finds the sender gone has none. |
| TcpRuns.LateFireMissed | src/server.rs:60-100 | The late case does happen: every run can go on with an announcement, a request, the announcement that takes it, and a firing between the timer winning and the receiver being dropped, after which the service has been told and the requester has timed out. |
| TcpRuns.ClearDropsOtherIff | src/server.rs:102-103 | A handler's final clearing drops another requester's pending request exactly when the slot holds that request by then. |
| TcpRuns.SecondRequestLost | src/server.rs:86-103 | Every run can go on with two requests for one session, where the displaced first one's handler clears the second, untaken. |
| Interfaces.P2pInterfaceTracker.CurrentInterface | src/p2p_interface_tracker.rs:18-82 | The pass returns the first usable interface with the greatest (priority, address), or none if none is usable, and remembers its name. |
| Interfaces.OrderIndependentIff | src/p2p_interface_tracker.rs:23-69 | The choice is the same for every listing order exactly when one interface alone attains the greatest score; distinct addresses suffice. |
| Interfaces.PickedIsPreferred | src/p2p_interface_tracker.rs:28-69 | By name and address: the pick is not excluded, is wired if any such interface is listed, else wireless if any is, and none of its kind has a greater address octet by octet. |

## Left out

- Sockets, tasks, `select!`, logging and shutdown: input and output only; they appear as inputs, results and steps in any order.
- src/udp/quic.rs: wrappers over QUIC and TLS libraries; only the listener role matters and is kept as a flag.
- Ed25519 and date validity themselves: functions of `Env`, with the facts of `Env.Sound`.
- `check_system_time_error`: an HTTP request and a number for display.
- src/tcp/connector.rs, src/tcp/service.rs and src/tcp/messages.rs: network clients and derived encodings over a channel that is not part of this model.
- `get_clients` and its ignored `app` argument: lists the table as it is.
- When a lost-request notification ought to be sent: the compared session ids belong to different parties, so only the behaviour as written is stated.
- When the rotating windows of two clients with more than ten enabled peers first list each other: the server keeps only the latest list, and `Meeting.TwoClientsMeet` is about two requests that do.
- Client.UdpConnectionEstablisher.PollAccept: the current interface is an input; the tracker that computes it is verified by itself in `Interfaces.dfy`, and binding a socket to it is not modelled.
- Rendezvous.PunchProvenance: the announced address is where the peer's signed request came from; when an outsider repeats that request from its own address, this is the outsider's address, and only the content is the peer's (`Meeting.ReplayedAddress`).
- Sub-millisecond parts of the monotonic clock.
