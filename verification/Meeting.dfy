/** Who meets whom over a network that delivers: clients that seek each other do, requests that cross
    can leave both sides as non-listeners, and a replayed request can announce a stranger's address. */
module Meeting {
  import opened Bytes
  import opened Messages
  import opened Rendezvous
  import opened ServerRuns
  import Cursor
  import Client
  import Matcher
  import MatcherHistory

  // ----- extending a run

  lemma {:induction false} Extend(g: Setting, ws: seq<World>, ss: seq<Timed>, t: Timed, v: World)
    requires g.Valid() && IsRun(g, ws, ss) && Next(g, ws[|ss|], t, v)
    ensures IsRun(g, ws + [v], ss + [t])
  {
    hide Next, Init;
    forall i | 0 <= i < |ss| + 1 ensures StepAt(g, ws + [v], ss + [t], i) {
      if i < |ss| { assert StepAt(g, ws, ss, i); }
    }
  }

  lemma {:induction false} StartRun(g: Setting, w: World)
    requires g.Valid() && Init(g, w)
    ensures IsRun(g, [w], []) && w.server == Matcher.EMPTY && w.clients.Keys == g.secrets.Keys
    ensures forall k :: k in w.clients ==> w.clients[k].socket != g.home
  {
  }

  /** A request's way to the server: when it is sent and arrives, and what the clocks of the two
      machines then show. */
  datatype Trip = Trip(ask: Instant, signed: DateTime, arrive: Instant, received: DateTime)

  ghost predicate TripOk(g: Setting, t: Trip)
  {
    && t.ask <= t.arrive
    && g.env.validMillis(Millis(t.signed)) && Matcher.TimestampOk(t.received, FromMillis(Millis(t.signed)))
  }

  /** The request `c` places now, as the event it is to the server on arrival. */
  function Asks(c: Client.State, k: PublicKey, t: Trip): (e: Matcher.Event)
  {
    Matcher.Event(k, c.socket, Client.NextPeers(c, t.ask), c.session, t.arrive)
  }

  predicate Sendable(g: Setting, e: Matcher.Event) { e.sender in g.secrets && 1 <= |e.peers| <= 10 }

  /** The signed datagram behind an event. */
  function RequestOf(g: Setting, e: Matcher.Event, t: Trip): (p: Packet)
    requires Sendable(g, e)
  {
    Packet(e.addr, g.home, EncodeRequest(g.env, g.secrets[e.sender], ConnectionRequest(e.peers, e.session), t.signed))
  }

  function TripSteps(g: Setting, e: Matcher.Event, t: Trip): (ss: seq<Timed>)
    requires Sendable(g, e)
    ensures |ss| == 2
  {
    [Timed(Ask(e.sender, t.signed), t.ask), Timed(ServerReceive(RequestOf(g, e, t), t.received), t.arrive)]
  }

  lemma {:induction false} AskRun(g: Setting, ws: seq<World>, ss: seq<Timed>, k: PublicKey, t: Trip)
    returns (v: World, e: Matcher.Event)
    requires g.Valid() && IsRun(g, ws, ss) && TripOk(g, t) && ws[|ss|].now <= t.ask
    requires k in ws[|ss|].clients && Client.AskFor(ws[|ss|].clients[k], t.ask).Some?
    ensures e == Asks(ws[|ss|].clients[k], k, t) && Sendable(g, e)
    ensures IsRun(g, ws + [v], ss + [TripSteps(g, e, t)[0]])
    ensures var w := ws[|ss|];
            v == w.(net := w.net + {RequestOf(g, e, t)},
                    clients := w.clients[k := Client.Asked(w.clients[k], t.ask)], now := t.ask)
  {
    RunKeeps(g, ws, ss, |ss|);
    var w := ws[|ss|];
    Client.AskedIsEncodable(w.clients[k], t.ask);
    hide IsRun, EncodeRequest, Client.Asked, Client.Due, Client.NextPeers, ParseRequest, ParseServer, StartsPunch,
         EventOf, Posted, Matcher.Step, Unforged, FreshAddr;
    e := Asks(w.clients[k], k, t);
    v := Apply(g, w, Ask(k, t.signed), t.ask);
    Extend(g, ws, ss, Timed(Ask(k, t.signed), t.ask), v);
  }

  /** A copy of a request, wherever it comes from, is to the server a request from there. */
  lemma {:induction false} ArrivesAs(g: Setting, e: Matcher.Event, t: Trip)
    requires g.Valid() && TripOk(g, t) && Sendable(g, e) && e.now == t.arrive
    ensures EventOf(g, RequestOf(g, e, t), t.received, t.arrive) == Some(e)
  {
    RequestRoundTrip(g.env, g.secrets[e.sender], ConnectionRequest(e.peers, e.session), t.signed);
    hide ParseRequest, EncodeRequest, Matcher.TimestampOk;
  }

  lemma {:induction false} ServerRun(g: Setting, ws: seq<World>, ss: seq<Timed>, t: Timed, e: Matcher.Event)
    requires g.Valid() && IsRun(g, ws, ss) && t.step.ServerReceive? && Enabled(g, ws[|ss|], t.step, t.now)
    requires EventOf(g, t.step.p, t.step.utcNow, t.now) == Some(e)
    ensures IsRun(g, ws + [Served(g, ws[|ss|], e)], ss + [t])
  {
    RunKeeps(g, ws, ss, |ss|);
    hide IsRun, EventOf, Matcher.Step, Matcher.OutcomeOf, Matcher.Emitted, Posted;
    HeardTime(g, t);
    Extend(g, ws, ss, t, Served(g, ws[|ss|], e));
  }

  /** A client's request and its arrival, at the end of any run. */
  lemma {:induction false} AskAndArrive(g: Setting, ws: seq<World>, ss: seq<Timed>, k: PublicKey, t: Trip)
    returns (us: seq<World>, e: Matcher.Event)
    requires g.Valid() && IsRun(g, ws, ss) && TripOk(g, t) && ws[|ss|].now <= t.ask
    requires k in ws[|ss|].clients && Client.AskFor(ws[|ss|].clients[k], t.ask).Some?
    ensures e == Asks(ws[|ss|].clients[k], k, t) && Sendable(g, e)
    ensures IsRun(g, us, ss + TripSteps(g, e, t)) && ws <= us
    ensures us[|ss| + 1].server == ws[|ss|].server && Heard(g, TripSteps(g, e, t)[1]) == Some(e)
    ensures var w := ws[|ss|];
            us[|ss| + 2]
            == Served(g, w.(net := w.net + {RequestOf(g, e, t)},
                            clients := w.clients[k := Client.Asked(w.clients[k], t.ask)]), e)
  {
    hide IsRun, Client.AskFor, Client.Asked, EncodeRequest, EventOf, Matcher.Step, Matcher.OutcomeOf, Posted;
    var u;
    u, e := AskRun(g, ws, ss, k, t);
    ArrivesAs(g, e, t);
    var steps := TripSteps(g, e, t);
    assert |ws| == |ss| + 1 by { RunLength(g, ws, ss); }
    ServerRun(g, ws + [u], ss + [steps[0]], steps[1], e);
    us := ws + [u] + [Served(g, u, e)];
    assert ss + steps == ss + [steps[0]] + [steps[1]];
  }

  lemma {:induction false} RunLength(g: Setting, ws: seq<World>, ss: seq<Timed>)
    requires g.Valid() && IsRun(g, ws, ss)
    ensures |ws| == |ss| + 1
  {
  }

  // ----- what clients ask for

  lemma {:induction false} AsksForOnly(c: Client.State, peer: PublicKey, now: Instant)
    requires c.trusted == map[peer := Client.DEFAULT]
    ensures Client.NextPeers(c, now) == [peer]
  {
    Client.AsksForAll(c, now) by { assert Client.EnabledKeys(c.trusted, now) == {peer}; }
    var r := Client.NextPeers(c, now);
    Cursor.SelectsNearest(c.trusted.Keys, {peer}, c.offset);
    hide Cursor.Select, Cursor.Arc;
    assert Client.EnabledKeys(c.trusted, now) == {peer};
    Cursor.ElementsCount(c.offset, r);
    Cursor.SubsetCount(Cursor.Elements(r), {peer});
    assert r[0] in r;
  }

  lemma {:induction false} AskedKeeps(c: Client.State, now: Instant)
    ensures var d := Client.Asked(c, now);
            d.trusted == c.trusted && d.session == c.session && d.socket == c.socket
    ensures Client.AskFor(c, now).Some? ==> Client.Asked(c, now).lastRequest == Some(now)
  {
    hide Client.AskFor, Cursor.NextOffset;
  }

  // ----- meeting a client that waits

  ghost predicate Chosen(s: Matcher.State, e: Matcher.Event, a: PublicKey)
  {
    exists i :: 0 <= i < |e.peers| && e.peers[i] == a && MatcherHistory.Live(s, a, e.sender, e.now)
      && forall j :: 0 <= j < i ==> !MatcherHistory.Live(s, e.peers[j], e.sender, e.now)
  }

  /** A notification as the server sends it. */
  function Notification(g: Setting, dst: Addr, n: Client.Notice): (p: Packet)
  {
    Packet(g.home, dst, EncodeServer(InitiateConnection(n.peer, n.address, n.session, n.isListener)))
  }

  /** What the server posts on a match is acted on exactly by a client that sits at the address, looks
      for the peer, and has not seen the session before. */
  lemma {:induction false} StartsIff(g: Setting, dst: Addr, n: Client.Notice)
    ensures Carries(g, Notification(g, dst, n), n)
  {
    NoticeOfEncoded(g, dst, InitiateConnection(n.peer, n.address, n.session, n.isListener));
    hide NoticeIn, EncodeServer, Client.Accepts;
  }

  /** The packet carries the notice, and whoever receives it starts a handshake exactly when it seeks that
      peer, under a session id it has not seen from it before. */
  ghost predicate Carries(g: Setting, p: Packet, n: Client.Notice)
  {
    && NoticeIn(g, p) == Some(n)
    && forall v: World, k, now :: k in v.clients ==>
         (StartsPunch(g, v, k, p, now) <==> Client.Accepts(v.clients[k], n, now))
  }

  /** What the two sides of a match are told. */
  function ForStored(m: Match): (n: Client.Notice)
  {
    Client.Notice(m.later.sender, m.later.addr, m.later.session, false)
  }

  function ForLater(m: Match): (n: Client.Notice)
  {
    Client.Notice(m.stored.requester, m.stored.addr, m.stored.session, true)
  }

  function ToStored(g: Setting, m: Match): (p: Packet) { Notification(g, m.stored.addr, ForStored(m)) }

  function ToLater(g: Setting, m: Match): (p: Packet) { Notification(g, m.later.addr, ForLater(m)) }

  /** Both sides of the match are sent each other's address and session, the waiting one as non-listener. */
  ghost predicate Introduces(g: Setting, net: set<Packet>, m: Match)
  {
    && {ToStored(g, m), ToLater(g, m)} <= net
    && Carries(g, ToStored(g, m), ForStored(m)) && Carries(g, ToLater(g, m), ForLater(m))
  }

  /** In any run: a request that reaches the server while a listed peer `a` waits, and nobody listed earlier
      does, is matched with `a`'s and introduces the two. */
  lemma {:induction false} MeetsWaiting(g: Setting, ws: seq<World>, ss: seq<Timed>, j: nat, e: Matcher.Event,
                                        a: PublicKey)
    returns (m: Match)
    requires g.Valid() && IsRun(g, ws, ss) && j < |ss| && Heard(g, ss[j]) == Some(e)
    requires Chosen(ws[j].server, e, a) && !MatcherHistory.RepeatsSession(ws[j].server, e)
    ensures m.at == j && m.later == e && m.stored.requester == a && IsMatch(g, ws, ss, m)
    ensures Matcher.SlotAt(ws[j].server.requests, a, e.sender) == Some(m.stored)
    ensures Introduces(g, ws[j + 1].net, m)
  {
    hide Next, NoticeIn, EncodeServer, Client.Accepts, Matcher.Step, Matcher.OutcomeOf, EventOf, StartsPunch,
         MatcherHistory.Live, MatcherHistory.RepeatsSession, Matcher.Emitted, Posted;
    ServerOwned(g, ws, ss, j);
    assert StepAt(g, ws, ss, j);
    ServerMoves(g, ws[j], ss[j], ws[j + 1]);
    MatcherHistory.OutcomeIff(ws[j].server, e);
    m := Match(j, e, Matcher.OutcomeOf(ws[j].server, e).pending);
    BothPosted(g, m);
    StartsIff(g, m.stored.addr, ForStored(m));
    StartsIff(g, m.later.addr, ForLater(m));
    MatcherHistory.MatchedSlot(ws[j].server, e);
  }

  lemma {:induction false} BothPosted(g: Setting, m: Match)
    ensures {ToStored(g, m), ToLater(g, m)} <= Posted(g.home, Matcher.Emitted(m.later, Matcher.Matched(m.stored)))
  {
    hide EncodeServer;
    var out := Matcher.Emitted(m.later, Matcher.Matched(m.stored));
    assert out[0] in out && out[1] in out;
  }

  // ----- two clients that seek each other

  /** `c` is about to ask for `peer`, and has not seen `session` from it. */
  ghost predicate Seeks(c: Client.State, peer: PublicKey, session: u32, now: Instant)
  {
    && Client.Due(c, now) && peer in Client.NextPeers(c, now)
    && peer in c.trusted && c.trusted[peer].lastSession != Some(session)
  }

  lemma {:induction false} FirstIndex(s: seq<PublicKey>, a: PublicKey) returns (i: nat)
    requires a in s
    ensures i < |s| && s[i] == a && forall j :: 0 <= j < i ==> s[j] != a
  {
    if s[0] == a {
      i := 0;
    } else {
      i := FirstIndex(s[1..], a);
      i := i + 1;
    }
  }

  /** A stored request waits for each peer it lists; nobody else's waiting is prolonged. */
  lemma {:induction false} StoredWaits(s: Matcher.State, x: Matcher.Event, y: Matcher.Event)
    requires MatcherHistory.Owned(s.requests) && !MatcherHistory.RepeatsSession(s, x)
    requires y.sender in x.peers && x.sender in y.peers && y.now < x.now + 10_000
    requires forall k :: k in x.peers ==> !MatcherHistory.Live(s, k, x.sender, x.now)
    requires forall k :: k in y.peers && k != x.sender ==> !MatcherHistory.Live(s, k, y.sender, y.now)
    ensures var t := Matcher.Step(s, x);
            && (MatcherHistory.RepeatsSession(t, y) <==> MatcherHistory.RepeatsSession(s, y))
            && Matcher.SlotAt(t.requests, x.sender, y.sender) == Some(MatcherHistory.PendingOf(x))
            && Chosen(t, y, x.sender)
  {
    MatcherHistory.OutcomeIff(s, x);
    MatcherHistory.StepSessions(s, x);
    MatcherHistory.StepSlot(s, x, x.sender, y.sender);
    var t := Matcher.Step(s, x);
    forall k | k != x.sender
      ensures MatcherHistory.Live(t, k, y.sender, y.now) ==> MatcherHistory.Live(s, k, y.sender, y.now)
    {
      MatcherHistory.StepSlot(s, x, k, y.sender);
      Matcher.CleanedSlot(s.requests, x.now, k, y.sender);
    }
    hide Matcher.Step, Matcher.OutcomeOf, Matcher.Fresh;
    assert MatcherHistory.Live(t, x.sender, y.sender, y.now);
    hide MatcherHistory.Live;
    var i := FirstIndex(y.peers, x.sender);
  }

  lemma {:induction false} StaysAccepted(c: Client.State, d: Client.State, n: Client.Notice, ask: Instant)
    requires Seeks(c, n.peer, n.session, ask) && d.trusted == c.trusted
    ensures forall now :: now >= ask ==> Client.Accepts(d, n, now)
  {
    Client.AskedIsEncodable(c, ask);
    hide Client.NextPeers, Client.Due;
  }

  /** Nobody whom `e` lists, but perhaps `partner`, waits for its sender. */
  ghost predicate NoOther(s: Matcher.State, e: Matcher.Event, partner: PublicKey)
  {
    forall k :: k in e.peers && k != partner ==> !MatcherHistory.Live(s, k, e.sender, e.now)
  }

  lemma {:induction false} PartnerChosen(s: Matcher.State, e: Matcher.Event, partner: PublicKey)
    requires partner in e.peers && NoOther(s, e, partner)
    ensures Chosen(s, e, partner) <==> MatcherHistory.Live(s, partner, e.sender, e.now)
  {
    hide MatcherHistory.Live;
    var i := FirstIndex(e.peers, partner);
  }

  /** In any run, with any steps in between: two clients list each other, the second request arrives within
      ten seconds of the first, neither repeats the session the server remembers for it, and meanwhile the
      server hears nothing else of the first one and nothing of the second one that lists the first. If no
      other listed peer waits for either when its request arrives, they are introduced: by the first request
      if the partner waits already, and otherwise by the second, with the requests that were sent. */
  lemma {:induction false} TwoClientsMeet(g: Setting, ws: seq<World>, ss: seq<Timed>, i: nat, j: nat, x: Matcher.Event,
                                          y: Matcher.Event)
    returns (m: Match)
    requires g.Valid() && IsRun(g, ws, ss) && i < j < |ss| && Heard(g, ss[i]) == Some(x) && Heard(g, ss[j]) == Some(y)
    requires y.sender in x.peers && x.sender in y.peers && y.now < x.now + 10_000
    requires forall k :: i < k < j ==> Undisturbed(g, ss[k], x.sender, y.sender)
    requires !MatcherHistory.RepeatsSession(ws[i].server, x) && !MatcherHistory.RepeatsSession(ws[j].server, y)
    requires NoOther(ws[i].server, x, y.sender) && NoOther(ws[j].server, y, x.sender)
    ensures if MatcherHistory.Live(ws[i].server, y.sender, x.sender, x.now)
            then
              && m.at == i && m.later == x
              && Matcher.SlotAt(ws[i].server.requests, y.sender, x.sender) == Some(m.stored)
            else m == Match(j, y, MatcherHistory.PendingOf(x))
    ensures IsMatch(g, ws, ss, m) && m.stored.requester in {x.sender, y.sender} && Introduces(g, ws[m.at + 1].net, m)
  {
    hide StepAt, IsMatch, Heard, Introduces, Chosen, NoOther, MatcherHistory.RepeatsSession, Matcher.OutcomeOf,
         Matcher.Fresh;
    PartnerChosen(ws[i].server, x, y.sender);
    if MatcherHistory.Live(ws[i].server, y.sender, x.sender, x.now) {
      m := MeetsWaiting(g, ws, ss, i, x, y.sender);
    } else {
      StaysStored(g, ws, ss, i, j, x, y);
      PartnerChosen(ws[j].server, y, x.sender);
      m := MeetsWaiting(g, ws, ss, j, y, x.sender);
    }
  }

  lemma {:induction false} StaysStored(g: Setting, ws: seq<World>, ss: seq<Timed>, i: nat, j: nat, x: Matcher.Event,
                                       y: Matcher.Event)
    requires g.Valid() && IsRun(g, ws, ss) && i < j < |ss| && Heard(g, ss[i]) == Some(x) && Heard(g, ss[j]) == Some(y)
    requires y.sender in x.peers && y.now < x.now + 10_000
    requires forall k :: i < k < j ==> Undisturbed(g, ss[k], x.sender, y.sender)
    requires !MatcherHistory.RepeatsSession(ws[i].server, x) && NoOther(ws[i].server, x, y.sender)
    requires !MatcherHistory.Live(ws[i].server, y.sender, x.sender, x.now)
    ensures Matcher.SlotAt(ws[j].server.requests, x.sender, y.sender) == Some(MatcherHistory.PendingOf(x))
    ensures MatcherHistory.Live(ws[j].server, x.sender, y.sender, y.now)
  {
    hide Next, Heard, Undisturbed, Matcher.OutcomeOf, Matcher.Step, MatcherHistory.RepeatsSession;
    MatcherHistory.OutcomeIff(ws[i].server, x);
    assert StepAt(g, ws, ss, j);
    ServerMoves(g, ws[j], ss[j], ws[j + 1]);
    KeepsWaiting(g, ws, ss, i, j, x, y.sender);
  }

  /** And any run can go on like that. If `a` and then `b` come to ask, each listing the other, the second
      request arrives within ten seconds of the first, nobody whom `a` lists (`b` included) waits for it,
      nobody else whom `b` lists waits for `b`, and neither repeats its remembered session, then their two
      requests alone suffice: they are introduced to each other's sockets, the later one as the listener,
      and either starts a handshake on receiving the server's notification at any later time. */
  lemma {:induction false} MeetInTurn(g: Setting, ws: seq<World>, ss: seq<Timed>, a: PublicKey, b: PublicKey, s: Trip,
                                      t: Trip)
    returns (us: seq<World>, m: Match)
    requires g.Valid() && IsRun(g, ws, ss) && TripOk(g, s) && TripOk(g, t)
    requires ws[|ss|].now <= s.ask && s.arrive <= t.ask && t.arrive < s.arrive + 10_000
    requires a != b && a in ws[|ss|].clients && b in ws[|ss|].clients
    requires var ca, cb := ws[|ss|].clients[a], ws[|ss|].clients[b];
             Seeks(ca, b, cb.session, s.ask) && Seeks(cb, a, ca.session, t.ask)
    requires var server, x, y := ws[|ss|].server, Asks(ws[|ss|].clients[a], a, s), Asks(ws[|ss|].clients[b], b, t);
             && !MatcherHistory.RepeatsSession(server, x) && !MatcherHistory.RepeatsSession(server, y)
             && (forall k :: k in x.peers ==> !MatcherHistory.Live(server, k, a, x.now))
             && (forall k :: k in y.peers && k != a ==> !MatcherHistory.Live(server, k, b, y.now))
    ensures var ca, cb := ws[|ss|].clients[a], ws[|ss|].clients[b];
            var x, y := Asks(ca, a, s), Asks(cb, b, t);
            && Sendable(g, x) && Sendable(g, y) && ws <= us
            && IsRun(g, us, ss + TripSteps(g, x, s) + TripSteps(g, y, t))
            && m == Match(|ss| + 3, y, MatcherHistory.PendingOf(x)) && Introduces(g, us[|ss| + 4].net, m)
    ensures var v := us[|ss| + 4];
            && a in v.clients && ToStored(g, m).dst == v.clients[a].socket == ws[|ss|].clients[a].socket
            && b in v.clients && ToLater(g, m).dst == v.clients[b].socket == ws[|ss|].clients[b].socket
            && forall now :: now >= v.now ==>
                 StartsPunch(g, v, a, ToStored(g, m), now) && StartsPunch(g, v, b, ToLater(g, m), now)
  {
    hide IsRun, Client.Accepts, Client.NextPeers, Client.Asked, Matcher.Step, Matcher.OutcomeOf, Matcher.Emitted,
         Posted, EventOf, EncodeRequest, EncodeServer, NoticeIn, StartsPunch, Chosen, Matcher.TimestampOk,
         Matcher.Fresh, PacketOk, MatcherHistory.RepeatsSession;
    RunLength(g, ws, ss);
    RunKeeps(g, ws, ss, |ss|);
    var w := ws[|ss|];
    var ca, cb := w.clients[a], w.clients[b];
    var y := Asks(cb, b, t);
    var vs, x := AskAndArrive(g, ws, ss, a, s);
    var ss1 := ss + TripSteps(g, x, s);
    RunLength(g, vs, ss1);
    StoredWaits(w.server, x, y);
    var y';
    us, y' := AskAndArrive(g, vs, ss1, b, t);
    var rs := ss1 + TripSteps(g, y, t);
    RunLength(g, us, rs);
    m := MeetsWaiting(g, us, rs, |ss| + 3, y, a);
    AskedKeeps(ca, s.ask);
    AskedKeeps(cb, t.ask);
    var v := us[|ss| + 4];
    StaysAccepted(ca, v.clients[a], ForStored(m), s.ask);
    StaysAccepted(cb, v.clients[b], ForLater(m), t.ask);
  }

  // ----- crossed requests

  /** The only peer of `c` is `peer`, which it has not tried yet. */
  ghost predicate Knows(c: Client.State, peer: PublicKey) { c.trusted == map[peer := Client.DEFAULT] }

  function OnlyFor(w: World, k: PublicKey, peer: PublicKey, t: Trip): (e: Matcher.Event)
    requires k in w.clients
  {
    Matcher.Event(k, w.clients[k].socket, [peer], w.clients[k].session, t.arrive)
  }

  /** The slots of a server with whom just `x` waits. */
  function Waiting(x: Matcher.Event, active: map<PublicKey, Matcher.ActiveSession>): (s: Matcher.State)
  {
    Matcher.State(map[x.sender := Matcher.NewSlots(x)], active)
  }

  lemma {:induction false} NobodyWaits(active: map<PublicKey, Matcher.ActiveSession>, x: Matcher.Event)
    requires !MatcherHistory.RepeatsSession(Matcher.State(map[], active), x)
    ensures Matcher.OutcomeOf(Matcher.State(map[], active), x) == Matcher.Stored
    ensures Matcher.Step(Matcher.State(map[], active), x) == Waiting(x, active)
  {
    MatcherHistory.OutcomeIff(Matcher.State(map[], active), x);
    hide Matcher.OutcomeOf;
  }

  lemma {:induction false} OneWaits(active: map<PublicKey, Matcher.ActiveSession>, x: Matcher.Event, y: Matcher.Event)
    requires x.peers == [y.sender] && y.peers == [x.sender] && x.sender != y.sender && y.now < x.now + 10_000
    requires !MatcherHistory.RepeatsSession(Waiting(x, active), y)
    ensures Matcher.OutcomeOf(Waiting(x, active), y) == Matcher.Matched(MatcherHistory.PendingOf(x))
    ensures Matcher.Step(Waiting(x, active), y)
         == Matcher.State(map[], active[y.sender := Matcher.ActiveSession(x.session, x.addr, x.sender)])
  {
    var s := Waiting(x, active);
    assert Matcher.SlotAt(s.requests, x.sender, y.sender) == Some(MatcherHistory.PendingOf(x));
    MatcherHistory.OutcomeIff(s, y);
    assert MatcherHistory.Live(s, y.peers[0], y.sender, y.now);
    Matcher.CleanedSlot(s.requests, y.now, x.sender, y.sender);
    var r := Matcher.Cleaned(s.requests, y.now);
    assert r[x.sender] - {y.sender} == map[];
    assert Matcher.RemoveSlot(r, x.sender, y.sender) == map[];
  }

  /** Client `k` has asked; no other client has done anything. */
  ghost predicate OnlyAsked(w: World, v: World, k: PublicKey, ask: Instant)
  {
    && v.clients.Keys == w.clients.Keys
    && (forall l :: l in w.clients && l != k ==> v.clients[l] == w.clients[l])
    && (k in w.clients ==> v.clients[k] == w.clients[k].(lastRequest := Some(ask), offset := v.clients[k].offset))
  }

  lemma {:induction false} AsksOnce(c: Client.State, peer: PublicKey, now: Instant)
    requires Knows(c, peer) && Client.Due(c, now)
    ensures Client.NextPeers(c, now) == [peer] && Client.AskFor(c, now).Some?
    ensures Client.Asked(c, now) == c.(lastRequest := Some(now), offset := Client.Asked(c, now).offset)
  {
    hide Client.NextPeers, Client.Due, Cursor.NextOffset;
    AsksForOnly(c, peer, now);
  }

  lemma {:induction false} OnlyAskedServed(g: Setting, w: World, k: PublicKey, c: Client.State, ask: Instant, p: Packet,
                                           e: Matcher.Event)
    requires k in w.clients && c == w.clients[k].(lastRequest := Some(ask), offset := c.offset)
    ensures var v := Served(g, w.(net := w.net + {p}, clients := w.clients[k := c]), e);
            && v.server == Matcher.Step(w.server, e)
            && w.net + Posted(g.home, Matcher.Emitted(e, Matcher.OutcomeOf(w.server, e))) <= v.net
            && OnlyAsked(w, v, k, ask)
            && v.now == e.now && v.owner == w.owner
  {
    hide Matcher.Step, Matcher.OutcomeOf, Matcher.Emitted, Posted;
  }

  /** A client that knows one peer asks for it, and the request arrives. */
  lemma {:induction false} OnlyTrip(g: Setting, ws: seq<World>, ss: seq<Timed>, k: PublicKey, peer: PublicKey, t: Trip)
    returns (us: seq<World>)
    requires g.Valid() && IsRun(g, ws, ss) && TripOk(g, t) && ws[|ss|].now <= t.ask
    requires k in ws[|ss|].clients && Knows(ws[|ss|].clients[k], peer) && Client.Due(ws[|ss|].clients[k], t.ask)
    ensures Sendable(g, OnlyFor(ws[|ss|], k, peer, t))
    ensures IsRun(g, us, ss + TripSteps(g, OnlyFor(ws[|ss|], k, peer, t), t)) && ws <= us && |us| == |ss| + 3
    ensures var w, v, e := ws[|ss|], us[|ss| + 2], OnlyFor(ws[|ss|], k, peer, t);
            && v.server == Matcher.Step(w.server, e)
            && w.net + Posted(g.home, Matcher.Emitted(e, Matcher.OutcomeOf(w.server, e))) <= v.net
            && OnlyAsked(w, v, k, t.ask)
            && v.now == t.arrive && v.owner == w.owner
  {
    RunLength(g, ws, ss);
    hide IsRun, Client.NextPeers, Client.Due, Client.AskFor, Client.Asked, RequestOf, Served, Matcher.TimestampOk,
         TripSteps, Knows, Heard;
    var w := ws[|ss|];
    AsksOnce(w.clients[k], peer, t.ask);
    var e;
    us, e := AskAndArrive(g, ws, ss, k, t);
    assert e == OnlyFor(w, k, peer, t);
    RunLength(g, us, ss + TripSteps(g, e, t));
    OnlyAskedServed(g, w, k, Client.Asked(w.clients[k], t.ask), t.ask, RequestOf(g, e, t), e);
  }

  /** The notifications of a match at which `y` meets the waiting `x`. */
  lemma {:induction false} MatchPosts(g: Setting, x: Matcher.Event, y: Matcher.Event, net: set<Packet>)
    requires Posted(g.home, Matcher.Emitted(y, Matcher.Matched(MatcherHistory.PendingOf(x)))) <= net
    ensures Notification(g, x.addr, Client.Notice(y.sender, y.addr, y.session, false)) in net
    ensures Notification(g, y.addr, Client.Notice(x.sender, x.addr, x.session, true)) in net
  {
    hide Posted, EncodeServer;
    BothPosted(g, Match(0, y, MatcherHistory.PendingOf(x)));
  }

  /** On a server with whom nobody waits, two clients that know only each other are introduced; the
      server remembers the session of the first for the second. */
  lemma {:induction false} PairMeets(g: Setting, ws: seq<World>, ss: seq<Timed>, a: PublicKey, b: PublicKey, s: Trip,
                                     t: Trip, active: map<PublicKey, Matcher.ActiveSession>)
    returns (us: seq<World>)
    requires g.Valid() && IsRun(g, ws, ss) && TripOk(g, s) && TripOk(g, t)
    requires ws[|ss|].now <= s.ask && s.arrive <= t.ask && t.arrive < s.arrive + 10_000
    requires a != b && a in ws[|ss|].clients && b in ws[|ss|].clients
    requires Knows(ws[|ss|].clients[a], b) && Knows(ws[|ss|].clients[b], a)
    requires Client.Due(ws[|ss|].clients[a], s.ask) && Client.Due(ws[|ss|].clients[b], t.ask)
    requires var w := ws[|ss|];
             && w.server == Matcher.State(map[], active)
             && !MatcherHistory.RepeatsSession(w.server, OnlyFor(w, a, b, s))
             && !MatcherHistory.RepeatsSession(w.server, OnlyFor(w, b, a, t))
    ensures Sendable(g, OnlyFor(ws[|ss|], a, b, s)) && Sendable(g, OnlyFor(ws[|ss|], b, a, t))
    ensures ws <= us && |us| == |ss| + 5
    ensures IsRun(g, us, ss + TripSteps(g, OnlyFor(ws[|ss|], a, b, s), s) + TripSteps(g, OnlyFor(ws[|ss|], b, a, t), t))
    ensures var w, v := ws[|ss|], us[|ss| + 4];
            var ca, cb := w.clients[a], w.clients[b];
            && v.server == Matcher.State(map[], active[b := Matcher.ActiveSession(ca.session, ca.socket, a)])
            && w.net + {Notification(g, ca.socket, Client.Notice(b, cb.socket, cb.session, false)),
                        Notification(g, cb.socket, Client.Notice(a, ca.socket, ca.session, true))} <= v.net
            && v.clients.Keys == w.clients.Keys && v.now == t.arrive
            && v.clients[a] == ca.(lastRequest := Some(s.ask), offset := v.clients[a].offset)
            && v.clients[b] == cb.(lastRequest := Some(t.ask), offset := v.clients[b].offset)
  {
    hide IsRun, Matcher.Step, Matcher.OutcomeOf, Posted, Matcher.Emitted, EncodeRequest, EncodeServer,
         Matcher.TimestampOk, Matcher.Fresh, Client.Due, MatcherHistory.RepeatsSession;
    RunLength(g, ws, ss);
    var w := ws[|ss|];
    var x, y := OnlyFor(w, a, b, s), OnlyFor(w, b, a, t);
    NobodyWaits(active, x);
    OneWaits(active, x, y) by { SameSession(active, x, y); }
    var vs := OnlyTrip(g, ws, ss, a, b, s);
    us := OnlyTrip(g, vs, ss + TripSteps(g, x, s), b, a, t);
    MatchPosts(g, x, y, us[|ss| + 4].net);
  }

  lemma {:induction false} SameSession(active: map<PublicKey, Matcher.ActiveSession>, x: Matcher.Event,
                                       y: Matcher.Event)
    ensures MatcherHistory.RepeatsSession(Waiting(x, active), y)
        <==> MatcherHistory.RepeatsSession(Matcher.State(map[], active), y)
  {
  }

  /** Two clients start that know just each other. */
  ghost predicate Strangers(g: Setting, w: World, a: PublicKey, b: PublicKey)
  {
    && Init(g, w) && a != b && a in w.clients && b in w.clients && a in g.secrets && b in g.secrets
    && Knows(w.clients[a], b) && Knows(w.clients[b], a)
    && w.clients[a].lastRequest == w.clients[b].lastRequest == None
  }

  ghost predicate InTurn(g: Setting, w: World, s: Trip, t: Trip)
  {
    && TripOk(g, s) && TripOk(g, t)
    && w.now <= s.ask && s.arrive <= t.ask && t.arrive < s.arrive + 10_000
  }

  function PairSteps(g: Setting, w: World, a: PublicKey, b: PublicKey, s: Trip, t: Trip): (ss: seq<Timed>)
    requires a in w.clients && b in w.clients && a in g.secrets && b in g.secrets
    ensures |ss| == 4
  {
    TripSteps(g, OnlyFor(w, a, b, s), s) + TripSteps(g, OnlyFor(w, b, a, t), t)
  }

  /** The requests in the order a, b, b, a: two matches, and what the server sent for them. */
  lemma {:induction false} CrossedRun(g: Setting, w: World, a: PublicKey, b: PublicKey, s: Trip, t: Trip, t': Trip,
                                      s': Trip)
    returns (ws: seq<World>)
    requires g.Valid() && Strangers(g, w, a, b) && w.clients[a].session != w.clients[b].session
    requires InTurn(g, w, s, t) && InTurn(g, w, t', s') && t.arrive <= t'.ask && t.ask + 3000 <= t'.ask
    ensures IsRun(g, ws, PairSteps(g, w, a, b, s, t) + PairSteps(g, w, b, a, t', s')) && |ws| == 9 && ws[0] == w
    ensures var ca, cb := w.clients[a], w.clients[b];
            && Notification(g, ca.socket, Client.Notice(b, cb.socket, cb.session, false)) in ws[8].net
            && Notification(g, cb.socket, Client.Notice(a, ca.socket, ca.session, false)) in ws[8].net
            && a in ws[8].clients && b in ws[8].clients
            && ws[8].clients[a] == ca.(lastRequest := Some(s'.ask), offset := ws[8].clients[a].offset)
            && ws[8].clients[b] == cb.(lastRequest := Some(t'.ask), offset := ws[8].clients[b].offset)
  {
    hide Init, IsRun, EncodeServer, EncodeRequest, Matcher.TimestampOk, Matcher.Fresh, Notification, TripSteps;
    StartRun(g, w);
    var us := PairMeets(g, [w], [], a, b, s, t, map[]);
    var ss := PairSteps(g, w, a, b, s, t);
    assert [] + TripSteps(g, OnlyFor(w, a, b, s), s) + TripSteps(g, OnlyFor(w, b, a, t), t) == ss;
    SameEvents(w, us[4], a, b, s', t');
    ws := PairMeets(g, us, ss, b, a, t', s', us[4].server.lastSessions);
    assert ss + TripSteps(g, OnlyFor(w, b, a, t'), t') + TripSteps(g, OnlyFor(w, a, b, s'), s')
        == ss + PairSteps(g, w, b, a, t', s');
  }

  lemma {:induction false} SameEvents(w: World, v: World, a: PublicKey, b: PublicKey, s: Trip, t: Trip)
    requires {a, b} <= w.clients.Keys * v.clients.Keys
    requires v.clients[a].socket == w.clients[a].socket && v.clients[a].session == w.clients[a].session
    requires v.clients[b].socket == w.clients[b].socket && v.clients[b].session == w.clients[b].session
    ensures OnlyFor(v, a, b, s) == OnlyFor(w, a, b, s) && OnlyFor(v, b, a, t) == OnlyFor(w, b, a, t)
  {
  }

  /** The roles of two handshakes over facing sockets need not be opposite. Two clients that know only
      each other ask in the order a, b, b, a, so that either is once the side that waited. Of the two
      notifications each is sent, it acts on the one that reaches it first: if that is the one of the
      match in which it waited, it starts as the non-listener, and so may both. */
  lemma {:induction false} BothNonListeners(g: Setting, w: World, a: PublicKey, b: PublicKey, s: Trip, t: Trip,
                                            t': Trip, s': Trip)
    returns (ws: seq<World>, toA: Packet, toB: Packet)
    requires g.Valid() && Strangers(g, w, a, b) && w.clients[a].session != w.clients[b].session
    requires InTurn(g, w, s, t) && InTurn(g, w, t', s') && t.arrive <= t'.ask && t.ask + 3000 <= t'.ask
    ensures IsRun(g, ws, PairSteps(g, w, a, b, s, t) + PairSteps(g, w, b, a, t', s')) && ws[0] == w
    ensures a in ws[8].clients && b in ws[8].clients && {toA, toB} <= ws[8].net
    ensures toA.dst == ws[8].clients[a].socket && toB.dst == ws[8].clients[b].socket
    ensures StartsPunch(g, ws[8], a, toA, ws[8].now) && StartsPunch(g, ws[8], b, toB, ws[8].now)
    ensures NoticeIn(g, toA) == Some(Client.Notice(b, toB.dst, w.clients[b].session, false))
    ensures NoticeIn(g, toB) == Some(Client.Notice(a, toA.dst, w.clients[a].session, false))
  {
    hide Init, IsRun, EncodeServer, EncodeRequest, InTurn, NoticeIn, StartsPunch, PairSteps;
    ws := CrossedRun(g, w, a, b, s, t, t', s');
    var ca, cb := w.clients[a], w.clients[b];
    var na, nb := Client.Notice(b, cb.socket, cb.session, false), Client.Notice(a, ca.socket, ca.session, false);
    toA, toB := Notification(g, ca.socket, na), Notification(g, cb.socket, nb);
    StartsIff(g, ca.socket, na);
    StartsIff(g, cb.socket, nb);
  }

  // ----- a replayed request

  /** Whoever repeats a client's request from an address of its own is announced in the client's place:
      the other client starts a handshake towards an address that no client owns. */
  lemma {:induction false} ReplayedAddress(g: Setting, w: World, a: PublicKey, b: PublicKey, s: Trip, t: Trip, r: Addr)
    returns (ws: seq<World>, ss: seq<Timed>, toB: Packet)
    requires g.Valid() && Strangers(g, w, a, b) && InTurn(g, w, s, t)
    requires r != g.home && r !in w.owner
    ensures IsRun(g, ws, ss) && |ss| == 5 && ws[0] == w
    ensures ss[0].step.Ask? && ss[1].step.Outsider? && ss[2].step.ServerReceive?
    ensures ss[3].step.Ask? && ss[4].step.ServerReceive?
    ensures b in ws[5].clients && toB in ws[5].net && toB.dst == ws[5].clients[b].socket
    ensures StartsPunch(g, ws[5], b, toB, ws[5].now) && NoticeIn(g, toB).value.peer == a
    ensures NoticeIn(g, toB).value.address == r && r !in ws[5].owner
  {
    hide Init, IsRun, Matcher.Step, Matcher.OutcomeOf, Posted, Matcher.Emitted, EncodeRequest, EncodeServer,
         Matcher.TimestampOk, Matcher.Fresh, NoticeIn, StartsPunch, ParseRequest, EventOf, Client.NextPeers;
    var us, x;
    us, ss, x := ReplayRun(g, w, a, b, s, r);
    var y := OnlyFor(w, b, a, t);
    OneWaits(map[], x, y);
    ws := OnlyTrip(g, us, ss, b, a, t);
    ss := ss + TripSteps(g, y, t);
    MatchPosts(g, x, y, ws[5].net);
    var n := Client.Notice(a, r, w.clients[a].session, true);
    toB := Notification(g, w.clients[b].socket, n);
    StartsIff(g, w.clients[b].socket, n);
  }

  /** The request, its replay, and the arrival of the replay. */
  lemma {:induction false} ReplayRun(g: Setting, w: World, a: PublicKey, b: PublicKey, s: Trip, r: Addr)
    returns (ws: seq<World>, ss: seq<Timed>, x: Matcher.Event)
    requires g.Valid() && Init(g, w) && a in w.clients && Knows(w.clients[a], b) && w.clients[a].lastRequest == None
    requires TripOk(g, s) && w.now <= s.ask && r != g.home && r !in w.owner
    ensures IsRun(g, ws, ss) && |ws| == 4 && |ss| == 3 && ws[0] == w
    ensures ss[0].step.Ask? && ss[1].step.Outsider? && ss[2].step.ServerReceive?
    ensures x == OnlyFor(w, a, b, s).(addr := r)
    ensures ws[3].server == Waiting(x, map[]) && ws[3].owner == w.owner && ws[3].now == s.arrive
    ensures OnlyAsked(w, ws[3], a, s.ask)
  {
    hide Init, IsRun, Matcher.Step, Matcher.OutcomeOf, Posted, Matcher.Emitted, EncodeRequest, Matcher.TimestampOk,
         EventOf, OnlyAsked;
    ws, ss, x := CopyRun(g, w, a, b, s, r);
    ArrivesAs(g, x, s);
    NobodyWaits(map[], x);
    var third := Timed(ServerReceive(RequestOf(g, x, s), s.received), s.arrive);
    ServerRun(g, ws, ss, third, x);
    StaysAsked(w, ws[2], Served(g, ws[2], x), a, s.ask);
    ws, ss := ws + [Served(g, ws[2], x)], ss + [third];
  }

  lemma {:induction false} StaysAsked(w: World, u: World, v: World, k: PublicKey, ask: Instant)
    requires OnlyAsked(w, u, k, ask) && v.clients == u.clients
    ensures OnlyAsked(w, v, k, ask)
  {
  }

  lemma {:induction false} CopyRun(g: Setting, w: World, a: PublicKey, b: PublicKey, s: Trip, r: Addr)
    returns (ws: seq<World>, ss: seq<Timed>, x: Matcher.Event)
    requires g.Valid() && Init(g, w) && a in w.clients && Knows(w.clients[a], b) && w.clients[a].lastRequest == None
    requires TripOk(g, s) && w.now <= s.ask && r != g.home && r !in w.owner
    ensures IsRun(g, ws, ss) && |ws| == 3 && |ss| == 2 && ws[0] == w
    ensures ss[0].step.Ask? && ss[1].step.Outsider?
    ensures x == OnlyFor(w, a, b, s).(addr := r) && Sendable(g, x)
    ensures ws[2].server == Matcher.EMPTY && ws[2].owner == w.owner && ws[2].now == s.ask
    ensures RequestOf(g, x, s) in ws[2].net && OnlyAsked(w, ws[2], a, s.ask)
  {
    var u, e := FirstAsk(g, w, a, b, s);
    hide IsRun, EncodeRequest, Next, OnlyAsked, Matcher.TimestampOk;
    var p := RequestOf(g, e, s);
    var u1 := OutsiderStep(g, u, p, r);
    var first, second := TripSteps(g, e, s)[0], Timed(Outsider(p.(src := r)), s.ask);
    Extend(g, [w, u], [first], second, u1);
    ws, ss, x := [w, u] + [u1], [first] + [second], e.(addr := r);
    StaysAsked(w, u, u1, a, s.ask);
  }

  lemma {:induction false} FirstAsk(g: Setting, w: World, a: PublicKey, b: PublicKey, s: Trip)
    returns (u: World, e: Matcher.Event)
    requires g.Valid() && Init(g, w) && a in w.clients && Knows(w.clients[a], b) && w.clients[a].lastRequest == None
    requires TripOk(g, s) && w.now <= s.ask
    ensures e == OnlyFor(w, a, b, s) && Sendable(g, e)
    ensures IsRun(g, [w, u], [TripSteps(g, e, s)[0]])
    ensures u.server == Matcher.EMPTY && u.owner == w.owner && u.now == s.ask && RequestOf(g, e, s) in u.net
    ensures OnlyAsked(w, u, a, s.ask)
  {
    hide Init, IsRun, EncodeRequest, Client.NextPeers, Cursor.NextOffset, Matcher.TimestampOk;
    StartRun(g, w);
    AsksForOnly(w.clients[a], b, s.ask);
    u, e := AskRun(g, [w], [], a, s);
    var first := TripSteps(g, e, s)[0];
    assert [] + [first] == [first] && [w] + [u] == [w, u];
  }

  lemma {:induction false} OutsiderStep(g: Setting, w: World, p: Packet, r: Addr) returns (v: World)
    requires g.Valid() && w.clients.Keys == g.secrets.Keys && p in w.net && p.src != g.home
    requires r != g.home && r !in w.owner
    ensures v == w.(net := w.net + {p.(src := r)}) && Next(g, w, Timed(Outsider(p.(src := r)), w.now), v)
  {
    hide ParseRequest;
    v := Apply(g, w, Outsider(p.(src := r)), w.now);
  }
}
