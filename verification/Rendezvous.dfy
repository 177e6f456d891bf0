/** One server, any number of clients and a network, as a step system over datagram bytes.

    Datagrams that were sent stay in `net`: never receiving one is loss, receiving it twice is
    duplication, and nothing fixes an order. Source addresses are kept, and every new socket has an
    address nobody used before. Outsiders may send any bytes from their own addresses, including
    copies of what they have seen; what they cannot do is make a client's signature. */
module Rendezvous {
  import opened Bytes
  import opened Messages
  import Matcher
  import MatcherHistory
  import Client
  import ClientRuns
  import Punch

  datatype Packet = Packet(src: Addr, dst: Addr, bytes: seq<byte>)

  datatype Setting = Setting(env: Env, home: Addr, secrets: map<PublicKey, SecretKey>) {
    ghost predicate Valid()
    {
      env.Sound() && forall k :: k in secrets ==> env.publicKey(secrets[k]) == k
    }
  }

  /** A handshake a client started: with what notice, over which of its sockets. */
  datatype Attempt = Attempt(client: PublicKey, notice: Client.Notice, socket: Addr, result: Punch.Result)

  datatype World = World(
    server: Matcher.State,
    clients: map<PublicKey, Client.State>,
    owner: map<Addr, PublicKey>,
    net: set<Packet>,
    attempts: seq<Attempt>,
    now: Instant
  )

  datatype Step =
    | ServerReceive(p: Packet, utcNow: DateTime)
    | Manage(k: PublicKey, op: ClientRuns.Op)
    | Rebind(k: PublicKey, iface: Option<string>, socket: Addr)
    | Ask(k: PublicKey, utcNow: DateTime)
    | Receive(k: PublicKey, p: Packet, newSocket: Addr, newSession: u32, result: Punch.Result, end: Instant)
    | Outsider(p: Packet)

  ghost predicate Init(g: Setting, w: World)
  {
    && w.server == Matcher.EMPTY && w.net == {} && w.attempts == []
    && w.clients.Keys == g.secrets.Keys
    && g.home !in w.owner
    && forall k :: k in w.clients ==> w.clients[k].socket in w.owner && w.owner[w.clients[k].socket] == k
  }

  ghost predicate FreshAddr(g: Setting, w: World, a: Addr)
  {
    a != g.home && a !in w.owner && forall p :: p in w.net ==> p.src != a
  }

  /** A request that verifies under a client's key is one whose content that client has sent. */
  ghost predicate Unforged(g: Setting, w: World, bytes: seq<byte>)
  {
    var r := ParseRequest(g.env, bytes);
    r.Ok? && r.value.sender in w.clients ==>
      exists q :: q in w.net && q.src != g.home && ParseRequest(g.env, q.bytes) == r
  }

  ghost predicate Enabled(g: Setting, w: World, s: Step, now: Instant)
  {
    && w.now <= now
    && match s
       case ServerReceive(p, _) => p in w.net && p.dst == g.home
       case Manage(k, op) =>
         k in w.clients && (op.AddTrusted? || op.RemoveTrusted? || op.SetTrusted? || op.Closed?)
       case Rebind(k, _, socket) => k in w.clients && FreshAddr(g, w, socket)
       case Ask(k, utcNow) => k in w.clients && g.env.validMillis(Millis(utcNow))
       case Receive(k, p, newSocket, _, _, _) =>
         k in w.clients && p in w.net && p.dst == w.clients[k].socket && FreshAddr(g, w, newSocket)
       case Outsider(p) => p.src != g.home && p.src !in w.owner && Unforged(g, w, p.bytes)
  }

  ghost function Posted(home: Addr, out: seq<Matcher.Sent>): (ps: set<Packet>)
  {
    set s | s in out :: Packet(home, s.dst, EncodeServer(s.message))
  }

  /** The event a datagram is to the server, if it accepts it. */
  ghost function EventOf(g: Setting, p: Packet, utcNow: DateTime, now: Instant): (e: Option<Matcher.Event>)
  {
    match ParseRequest(g.env, p.bytes)
    case Ok(a) =>
      if Matcher.TimestampOk(utcNow, a.timestamp)
      then Some(Matcher.Event(a.sender, p.src, a.request.peers, a.request.session, now)) else None
    case Err(_) => None
  }

  ghost function NoticeIn(g: Setting, p: Packet): (n: Option<Client.Notice>)
  {
    Client.NoticeOf(g.home, Client.Datagram(p.src, p.bytes))
  }

  /** Receiving `p` makes client `k` start a handshake. */
  ghost predicate StartsPunch(g: Setting, w: World, k: PublicKey, p: Packet, now: Instant)
    requires k in w.clients
  {
    NoticeIn(g, p).Some? && Client.Accepts(w.clients[k], NoticeIn(g, p).value, now)
  }

  ghost function Apply(g: Setting, w: World, s: Step, now: Instant): (v: World)
    requires g.Valid() && w.clients.Keys == g.secrets.Keys && Enabled(g, w, s, now)
  {
    match s
    case ServerReceive(p, utcNow) =>
      (match EventOf(g, p, utcNow, now)
       case Some(e) =>
         w.(server := Matcher.Step(w.server, e),
            net := w.net + Posted(g.home, Matcher.Emitted(e, Matcher.OutcomeOf(w.server, e))), now := now)
       case None => w.(now := now))
    case Manage(k, op) => w.(clients := w.clients[k := ClientRuns.Apply(w.clients[k], op)], now := now)
    case Rebind(k, iface, socket) =>
      w.(clients := w.clients[k := Client.Rebound(w.clients[k], iface, socket)], owner := w.owner[socket := k],
         now := now)
    case Ask(k, utcNow) =>
      var c := w.clients[k];
      Client.AskedIsEncodable(c, now);
      (match Client.AskFor(c, now)
       case Some(q) =>
         w.(clients := w.clients[k := Client.Asked(c, now)],
            net := w.net + {Packet(c.socket, g.home, EncodeRequest(g.env, g.secrets[k], q, utcNow))}, now := now)
       case None => w.(now := now))
    case Receive(k, p, newSocket, newSession, result, end) =>
      var c := w.clients[k];
      if StartsPunch(g, w, k, p, now) then
        var n := NoticeIn(g, p).value;
        var op := ClientRuns.Notified(n, now, newSocket, newSession, result, end);
        w.(clients := w.clients[k := ClientRuns.Apply(c, op)],
           owner := w.owner[newSocket := k],
           attempts := w.attempts + [Attempt(k, n, c.socket, result)], now := now)
      else if p.src == g.home && ParseServer(p.bytes).Ok? && ParseServer(p.bytes).value.LostConnection? then
        w.(clients := w.clients[k := c.(session := newSession)], now := now)
      else w.(now := now)
    case Outsider(p) => w.(net := w.net + {p}, now := now)
  }

  datatype Timed = Timed(step: Step, now: Instant)

  ghost predicate Next(g: Setting, w: World, t: Timed, v: World)
    requires g.Valid()
  {
    w.clients.Keys == g.secrets.Keys && Enabled(g, w, t.step, t.now) && v == Apply(g, w, t.step, t.now)
  }

  ghost predicate StepAt(g: Setting, ws: seq<World>, ss: seq<Timed>, i: nat)
    requires g.Valid() && i < |ss| && |ws| == |ss| + 1
  {
    Next(g, ws[i], ss[i], ws[i + 1])
  }

  /** The worlds `ws` and the steps `ss` between them are a run from a beginning. */
  ghost predicate IsRun(g: Setting, ws: seq<World>, ss: seq<Timed>)
    requires g.Valid()
  {
    && |ws| == |ss| + 1
    && Init(g, ws[0])
    && forall i :: 0 <= i < |ss| ==> StepAt(g, ws, ss, i)
  }

  // ----- matches

  /** Step `at` of a run is a match: the request `later` arrives and meets the slot `stored`. */
  datatype Match = Match(at: nat, later: Matcher.Event, stored: Matcher.Pending)

  ghost predicate IsMatch(g: Setting, ws: seq<World>, ss: seq<Timed>, m: Match)
    requires |ws| == |ss| + 1
  {
    && m.at < |ss| && ss[m.at].step.ServerReceive?
    && EventOf(g, ss[m.at].step.p, ss[m.at].step.utcNow, ss[m.at].now) == Some(m.later)
    && Matcher.OutcomeOf(ws[m.at].server, m.later) == Matcher.Matched(m.stored)
  }

  /** The notice `n` at `dst` is one of the two that match `m` sends out; its receiver is `k`, with the
      request that carried `session`. The other notice goes to `n.address` and names `k`, `dst` and
      `session`, with the other role. */
  predicate Announces(m: Match, dst: Addr, n: Client.Notice, k: PublicKey, session: u32)
  {
    if n.isListener then
      && m.later.addr == dst && m.later.sender == k && m.later.session == session
      && n == Client.Notice(m.stored.requester, m.stored.addr, m.stored.session, true)
    else
      && m.stored.addr == dst && m.stored.requester == k && m.stored.session == session
      && n == Client.Notice(m.later.sender, m.later.addr, m.later.session, false)
  }

  // ----- who said what

  ghost predicate Says(g: Setting, bytes: seq<byte>, k: PublicKey, session: u32, target: PublicKey)
  {
    var r := ParseRequest(g.env, bytes);
    r.Ok? && r.value.sender == k && r.value.request.session == session && target in r.value.request.peers
  }

  /** A request of `k` with this session listing `target` was sent to the server from `src`. */
  ghost predicate Requested(g: Setting, net: set<Packet>, src: Addr, k: PublicKey, session: u32, target: PublicKey)
  {
    exists bytes :: Packet(src, g.home, bytes) in net && Says(g, bytes, k, session, target)
  }

  /** The server has introduced `peer` at `address` to whoever sits at `dst`: both had requested each
      other from these addresses, and the other side has been told the reverse, with the other role. */
  ghost predicate Introduced(g: Setting, net: set<Packet>, dst: Addr, n: Client.Notice, k: PublicKey, session: u32)
  {
    && Requested(g, net, n.address, n.peer, n.session, k)
    && Requested(g, net, dst, k, session, n.peer)
    && Packet(g.home, n.address, EncodeServer(InitiateConnection(k, dst, session, !n.isListener))) in net
  }

  ghost predicate Backed(g: Setting, net: set<Packet>, dst: Addr, n: Client.Notice)
  {
    exists k, session :: Introduced(g, net, dst, n, k, session)
  }

  /** Client `k` itself has sent a request with this content. */
  ghost predicate SentBy(g: Setting, w: World, a: Accepted)
  {
    exists q :: q in w.net && q.src in w.owner && w.owner[q.src] == a.sender && ParseRequest(g.env, q.bytes) == Ok(a)
  }

  // ----- what every step keeps

  ghost predicate OwnersOk(g: Setting, w: World)
  {
    && w.clients.Keys == g.secrets.Keys
    && g.home !in w.owner
    && (forall k :: k in w.clients ==> w.clients[k].socket in w.owner && w.owner[w.clients[k].socket] == k)
  }

  ghost predicate PacketOk(g: Setting, w: World, p: Packet)
  {
    && (p.src == g.home ==> p.dst != g.home)
    && (p.src in w.owner ==>
          ParseRequest(g.env, p.bytes).Ok? && ParseRequest(g.env, p.bytes).value.sender == w.owner[p.src])
    && (NoticeIn(g, p).Some? ==> Backed(g, w.net, p.dst, NoticeIn(g, p).value))
    && (var r := ParseRequest(g.env, p.bytes);
        p.src != g.home && r.Ok? && r.value.sender in w.clients ==> SentBy(g, w, r.value))
  }

  ghost predicate SlotsOk(g: Setting, w: World)
  {
    forall a, b :: Matcher.SlotAt(w.server.requests, a, b).Some? ==>
      var x := Matcher.SlotAt(w.server.requests, a, b).value;
      x.requester == a && Requested(g, w.net, x.addr, a, x.session, b)
  }

  ghost predicate SocketsOk(w: World)
  {
    && (forall i :: 0 <= i < |w.attempts| ==>
          var t := w.attempts[i];
          && t.socket in w.owner && w.owner[t.socket] == t.client && t.client in w.clients
          && w.clients[t.client].socket != t.socket)
    && (forall i, j :: 0 <= i < j < |w.attempts| ==> w.attempts[i].socket != w.attempts[j].socket)
  }

  ghost predicate Inv(g: Setting, w: World)
  {
    && OwnersOk(g, w)
    && (forall p :: p in w.net ==> PacketOk(g, w, p))
    && SlotsOk(g, w)
    && SocketsOk(w)
  }

  /** What was true of a packet stays true while the network and the address book grow. */
  lemma {:induction false} PacketStays(g: Setting, w: World, v: World, p: Packet)
    requires PacketOk(g, w, p)
    requires w.net <= v.net && w.clients.Keys == v.clients.Keys
    requires forall a :: a in w.owner ==> a in v.owner && v.owner[a] == w.owner[a]
    requires p.src in v.owner ==> p.src in w.owner
    ensures PacketOk(g, v, p)
  {
    hide ParseRequest, NoticeIn, Says, EncodeServer;
    if NoticeIn(g, p).Some? {
      var n := NoticeIn(g, p).value;
      var k, session :| Introduced(g, w.net, p.dst, n, k, session);
      assert Introduced(g, v.net, p.dst, n, k, session);
    }
    var r := ParseRequest(g.env, p.bytes);
    if p.src != g.home && r.Ok? && r.value.sender in w.clients {
      assert SentBy(g, w, r.value);
    }
  }

  lemma {:induction false} SlotsStay(g: Setting, w: World, v: World)
    requires SlotsOk(g, w) && w.net <= v.net && v.server == w.server
    ensures SlotsOk(g, v)
  {
    hide Says;
    forall a, b | Matcher.SlotAt(v.server.requests, a, b).Some?
      ensures var x := Matcher.SlotAt(v.server.requests, a, b).value;
              x.requester == a && Requested(g, v.net, x.addr, a, x.session, b)
    {
      var x := Matcher.SlotAt(w.server.requests, a, b).value;
      assert Requested(g, w.net, x.addr, a, x.session, b);
    }
  }

  lemma {:induction false} AcceptedIsRequested(g: Setting, w: World, p: Packet, utcNow: DateTime, now: Instant)
    requires p in w.net && p.dst == g.home && EventOf(g, p, utcNow, now).Some?
    ensures var e := EventOf(g, p, utcNow, now).value;
            forall b :: b in e.peers ==> Requested(g, w.net, e.addr, e.sender, e.session, b)
  {
    hide ParseRequest;
    var e := EventOf(g, p, utcNow, now).value;
    forall b | b in e.peers ensures Requested(g, w.net, e.addr, e.sender, e.session, b) {
      assert p == Packet(p.src, g.home, p.bytes);
      assert Says(g, p.bytes, e.sender, e.session, b);
    }
  }

  /** The server's slots after a step are backed by requests that were sent. */
  lemma {:induction false} ServerSlots(g: Setting, w: World, e: Matcher.Event)
    requires SlotsOk(g, w)
    requires forall b :: b in e.peers ==> Requested(g, w.net, e.addr, e.sender, e.session, b)
    ensures SlotsOk(g, w.(server := Matcher.Step(w.server, e)))
  {
    hide Requested;
    var r := Matcher.Step(w.server, e).requests;
    forall a, b | Matcher.SlotAt(r, a, b).Some?
      ensures var x := Matcher.SlotAt(r, a, b).value;
              x.requester == a && Requested(g, w.net, x.addr, a, x.session, b)
    {
      MatcherHistory.StepSlot(w.server, e, a, b);
      Matcher.CleanedSlot(w.server.requests, e.now, a, b);
    }
  }

  /** Every notification the server sends is backed, together with its counterpart. */
  lemma {:induction false} EmittedOk(g: Setting, w: World, e: Matcher.Event, x: Matcher.Pending)
    requires Matcher.OutcomeOf(w.server, e) == Matcher.Matched(x) && SlotsOk(g, w)
    requires forall b :: b in e.peers ==> Requested(g, w.net, e.addr, e.sender, e.session, b)
    ensures var net := w.net + Posted(g.home, Matcher.Emitted(e, Matcher.Matched(x)));
            && Introduced(g, net, x.addr, Client.Notice(e.sender, e.addr, e.session, false), x.requester, x.session)
            && Introduced(g, net, e.addr, Client.Notice(x.requester, x.addr, x.session, true), e.sender, e.session)
            && Backed(g, net, x.addr, Client.Notice(e.sender, e.addr, e.session, false))
            && Backed(g, net, e.addr, Client.Notice(x.requester, x.addr, x.session, true))
    ensures Requested(g, w.net, x.addr, x.requester, x.session, e.sender)
  {
    hide Says, EncodeServer;
    var out := Matcher.Emitted(e, Matcher.Matched(x));
    var net := w.net + Posted(g.home, out);
    MatcherHistory.MatchedSlot(w.server, e);
    assert Requested(g, w.net, x.addr, x.requester, x.session, e.sender);
    assert Requested(g, w.net, e.addr, e.sender, e.session, x.requester);
    assert out[0] in out && out[1] in out;
    assert Introduced(g, net, x.addr, Client.Notice(e.sender, e.addr, e.session, false), x.requester, x.session);
    assert Introduced(g, net, e.addr, Client.Notice(x.requester, x.addr, x.session, true), e.sender, e.session);
  }

  lemma {:induction false} NoticeOfEncoded(g: Setting, dst: Addr, m: ServerMessage)
    ensures NoticeIn(g, Packet(g.home, dst, EncodeServer(m)))
         == match m
            case InitiateConnection(peer, address, session, isListener) =>
              Some(Client.Notice(peer, address, session, isListener))
            case LostConnection(_, _) => None
  {
    ServerRoundTrip(m, []);
    hide ParseServer, EncodeServer;
  }

  lemma {:induction false} ServerPackets(g: Setting, w: World, e: Matcher.Event, p: Packet)
    requires SlotsOk(g, w) && OwnersOk(g, w) && (forall q :: q in w.net ==> PacketOk(g, w, q))
    requires e.addr != g.home
    requires forall b :: b in e.peers ==> Requested(g, w.net, e.addr, e.sender, e.session, b)
    requires p in Posted(g.home, Matcher.Emitted(e, Matcher.OutcomeOf(w.server, e)))
    ensures PacketOk(g, w.(net := w.net + Posted(g.home, Matcher.Emitted(e, Matcher.OutcomeOf(w.server, e)))), p)
  {
    hide Says, ParseRequest, NoticeIn, EncodeServer, Matcher.OutcomeOf, Backed;
    var o := Matcher.OutcomeOf(w.server, e);
    var s :| s in Matcher.Emitted(e, o) && p == Packet(g.home, s.dst, EncodeServer(s.message));
    NoticeOfEncoded(g, s.dst, s.message);
    if o.Matched? {
      EmittedOk(g, w, e, o.pending);
      var bytes :| Packet(o.pending.addr, g.home, bytes) in w.net;
      assert PacketOk(g, w, Packet(o.pending.addr, g.home, bytes));
    }
  }

  lemma {:induction false} ServerHandles(g: Setting, w: World, e: Matcher.Event, now: Instant)
    requires Inv(g, w) && e.addr != g.home
    requires forall b :: b in e.peers ==> Requested(g, w.net, e.addr, e.sender, e.session, b)
    ensures Inv(g, w.(server := Matcher.Step(w.server, e),
                      net := w.net + Posted(g.home, Matcher.Emitted(e, Matcher.OutcomeOf(w.server, e))), now := now))
  {
    hide PacketOk, SlotsOk, Requested, Matcher.Step, Matcher.OutcomeOf, Matcher.Emitted, Posted;
    var server, posted := Matcher.Step(w.server, e), Posted(g.home, Matcher.Emitted(e, Matcher.OutcomeOf(w.server, e)));
    var v := w.(server := server, net := w.net + posted, now := now);
    ServerSlots(g, w, e);
    SlotsStay(g, w.(server := server), v);
    forall q | q in v.net ensures PacketOk(g, v, q) {
      if q in w.net {
        PacketStays(g, w, v, q);
      } else {
        ServerPackets(g, w, e, q);
        PacketStays(g, w.(net := v.net), v, q);
      }
    }
  }

  lemma {:induction false} ServerStepKeeps(g: Setting, w: World, p: Packet, utcNow: DateTime, now: Instant)
    requires g.Valid() && Inv(g, w) && Enabled(g, w, ServerReceive(p, utcNow), now)
    ensures Inv(g, Apply(g, w, ServerReceive(p, utcNow), now))
  {
    assert p.src != g.home by { assert PacketOk(g, w, p); }
    hide PacketOk, SlotsOk, Requested, Matcher.Step, Matcher.OutcomeOf, Matcher.Emitted, Posted, ParseRequest;
    if EventOf(g, p, utcNow, now).Some? {
      AcceptedIsRequested(g, w, p, utcNow, now);
      ServerHandles(g, w, EventOf(g, p, utcNow, now).value, now);
    } else {
      var v := w.(now := now);
      SlotsStay(g, w, v);
      forall q | q in v.net ensures PacketOk(g, v, q) { PacketStays(g, w, v, q); }
    }
  }

  /** Steps that send nothing and at most give client `k` one new socket. */
  lemma {:induction false} QuietKeeps(g: Setting, w: World, v: World, k: PublicKey)
    requires Inv(g, w) && k in w.clients
    requires v.net == w.net && v.server == w.server && v.attempts == w.attempts
    requires k in v.clients && v.clients == w.clients[k := v.clients[k]]
    requires forall a :: a in w.owner ==> a in v.owner && v.owner[a] == w.owner[a]
    requires forall a :: a in v.owner && a !in w.owner ==> FreshAddr(g, w, a)
    requires v.clients[k].socket in v.owner && v.owner[v.clients[k].socket] == k
    requires v.clients[k].socket == w.clients[k].socket || v.clients[k].socket !in w.owner
    ensures Inv(g, v)
  {
    hide PacketOk, SlotsOk;
    SlotsStay(g, w, v);
    forall q | q in v.net ensures PacketOk(g, v, q) {
      PacketStays(g, w, v, q);
    }
  }

  /** Sending a good packet. */
  lemma {:induction false} PacketSent(g: Setting, w: World, p: Packet)
    requires Inv(g, w) && PacketOk(g, w.(net := w.net + {p}), p)
    ensures Inv(g, w.(net := w.net + {p}))
  {
    hide PacketOk, SlotsOk;
    var v := w.(net := w.net + {p});
    SlotsStay(g, w, v);
    forall q | q in v.net ensures PacketOk(g, v, q) {
      if q in w.net { PacketStays(g, w, v, q); }
    }
  }

  /** A packet that says what its client wants, from that client's socket. */
  lemma {:induction false} RequestPacket(g: Setting, w: World, k: PublicKey, request: Request, utcNow: DateTime)
    requires g.Valid() && OwnersOk(g, w) && k in w.clients
    requires Encodable(request) && g.env.validMillis(Millis(utcNow))
    ensures var p := Packet(w.clients[k].socket, g.home, EncodeRequest(g.env, g.secrets[k], request, utcNow));
            PacketOk(g, w.(net := w.net + {p}), p)
  {
    RequestRoundTrip(g.env, g.secrets[k], request, utcNow);
    hide ParseRequest, EncodeRequest, Requested, Backed, ParseServer;
  }

  lemma {:induction false} AskKeeps(g: Setting, w: World, k: PublicKey, utcNow: DateTime, now: Instant)
    requires g.Valid() && Inv(g, w) && Enabled(g, w, Ask(k, utcNow), now)
    ensures Inv(g, Apply(g, w, Ask(k, utcNow), now))
  {
    hide PacketOk, SlotsOk, SocketsOk, Client.AskFor, EncodeRequest;
    var v := Apply(g, w, Ask(k, utcNow), now);
    var c := w.clients[k];
    Client.AskedIsEncodable(c, now);
    var u := w.(clients := v.clients, now := now);
    assert v.clients == w.clients[k := v.clients[k]];
    QuietKeeps(g, w, u, k);
    if Client.AskFor(c, now).Some? {
      var q := Client.AskFor(c, now).value;
      RequestPacket(g, u, k, q, utcNow);
      PacketSent(g, u, Packet(c.socket, g.home, EncodeRequest(g.env, g.secrets[k], q, utcNow)));
    }
  }

  /** Starting a handshake uses up the current socket. */
  lemma {:induction false} StartKeeps(g: Setting, w: World, v: World, k: PublicKey, t: Attempt)
    requires Inv(g, w) && k in w.clients && t.client == k && t.socket == w.clients[k].socket
    requires Inv(g, v.(attempts := w.attempts)) && v.attempts == w.attempts + [t]
    requires w.owner.Keys <= v.owner.Keys && v.owner[t.socket] == k && v.clients.Keys == w.clients.Keys
    requires v.clients[k].socket !in w.owner
    ensures Inv(g, v)
  {
    hide PacketOk, SlotsOk;
    var u := v.(attempts := w.attempts);
    SlotsStay(g, u, v);
    forall q | q in v.net ensures PacketOk(g, v, q) { PacketStays(g, u, v, q); }
    assert SocketsOk(u) && SocketsOk(w);
    forall i | 0 <= i < |w.attempts| ensures w.attempts[i].socket != t.socket {
      assert w.owner[w.attempts[i].socket] == w.attempts[i].client;
    }
  }

  lemma {:induction false} ReceiveKeeps(g: Setting, w: World, s: Step, now: Instant)
    requires g.Valid() && Inv(g, w) && s.Receive? && Enabled(g, w, s, now)
    ensures Inv(g, Apply(g, w, s, now))
  {
    hide PacketOk, SlotsOk, ParseServer, Client.Accepts;
    var v := Apply(g, w, s, now);
    if StartsPunch(g, w, s.k, s.p, now) {
      var t := Attempt(s.k, NoticeIn(g, s.p).value, w.clients[s.k].socket, s.result);
      assert v.clients[s.k].socket == s.newSocket;
      QuietKeeps(g, w, v.(attempts := w.attempts), s.k);
      StartKeeps(g, w, v, s.k, t);
    } else {
      assert v.clients == w.clients[s.k := v.clients[s.k]];
      QuietKeeps(g, w, v, s.k);
    }
  }

  lemma {:induction false} StepKeeps(g: Setting, w: World, s: Step, now: Instant)
    requires g.Valid() && Inv(g, w) && Enabled(g, w, s, now)
    ensures Inv(g, Apply(g, w, s, now))
  {
    match s
    case ServerReceive(p, utcNow) => ServerStepKeeps(g, w, p, utcNow, now);
    case Ask(k, utcNow) => AskKeeps(g, w, k, utcNow, now);
    case Receive(_, _, _, _, _, _) => ReceiveKeeps(g, w, s, now);
    case Manage(k, op) =>
      hide PacketOk, SlotsOk;
      QuietKeeps(g, w, Apply(g, w, s, now), k);
    case Rebind(k, iface, socket) =>
      hide PacketOk, SlotsOk;
      QuietKeeps(g, w, Apply(g, w, s, now), k);
    case Outsider(p) =>
      OutsiderKeeps(g, w, p, now);
  }

  lemma {:induction false} OutsiderKeeps(g: Setting, w: World, p: Packet, now: Instant)
    requires g.Valid() && Inv(g, w) && Enabled(g, w, Outsider(p), now)
    ensures Inv(g, Apply(g, w, Outsider(p), now))
  {
    hide ParseRequest, ParseServer, Backed, Requested;
    var u := w.(now := now);
    SlotsStay(g, w, u);
    forall q | q in u.net ensures PacketOk(g, u, q) { PacketStays(g, w, u, q); }
    var r := ParseRequest(g.env, p.bytes);
    if r.Ok? && r.value.sender in w.clients {
      var q :| q in w.net && q.src != g.home && ParseRequest(g.env, q.bytes) == r;
      assert PacketOk(g, w, q);
    }
    PacketSent(g, u, p);
  }

  lemma {:induction false} RunKeeps(g: Setting, ws: seq<World>, ss: seq<Timed>, i: nat)
    requires g.Valid() && IsRun(g, ws, ss) && i < |ws|
    ensures Inv(g, ws[i])
  {
    hide Apply, Enabled, PacketOk;
    if i == 0 {
      assert SlotsOk(g, ws[0]);
    } else {
      RunKeeps(g, ws, ss, i - 1);
      assert StepAt(g, ws, ss, i - 1);
      StepKeeps(g, ws[i - 1], ss[i - 1].step, ss[i - 1].now);
    }
  }

  // ----- every notification comes from a match

  /** The match behind a notification, and that it is backed. */
  ghost predicate Explains(g: Setting, ws: seq<World>, ss: seq<Timed>, i: nat, m: Match, dst: Addr, n: Client.Notice,
                           k: PublicKey, session: u32)
    requires |ws| == |ss| + 1 && i < |ws|
  {
    && m.at < i && IsMatch(g, ws, ss, m) && Announces(m, dst, n, k, session)
    && Introduced(g, ws[i].net, dst, n, k, session)
  }

  /** Only a server step adds a notification; then it is one of the two of that step's match. */
  lemma {:induction false} NoticeEmitted(g: Setting, w: World, e: Matcher.Event, p: Packet) returns (x: Matcher.Pending)
    requires NoticeIn(g, p).Some?
    requires p in Posted(g.home, Matcher.Emitted(e, Matcher.OutcomeOf(w.server, e)))
    ensures Matcher.OutcomeOf(w.server, e) == Matcher.Matched(x)
    ensures var n := NoticeIn(g, p).value;
            if n.isListener then p.dst == e.addr && n == Client.Notice(x.requester, x.addr, x.session, true)
            else p.dst == x.addr && n == Client.Notice(e.sender, e.addr, e.session, false)
  {
    hide NoticeIn, EncodeServer, Matcher.OutcomeOf;
    var o := Matcher.OutcomeOf(w.server, e);
    var s :| s in Matcher.Emitted(e, o) && p == Packet(g.home, s.dst, EncodeServer(s.message));
    NoticeOfEncoded(g, s.dst, s.message);
    x := o.pending;
  }

  lemma {:induction false} ServerStepExplains(g: Setting, ws: seq<World>, ss: seq<Timed>, i: nat, p: Packet)
    returns (m: Match, k: PublicKey, session: u32)
    requires g.Valid() && IsRun(g, ws, ss) && i < |ss| && ss[i].step.ServerReceive?
    requires Inv(g, ws[i]) && p !in ws[i].net && p in ws[i + 1].net && NoticeIn(g, p).Some?
    ensures Explains(g, ws, ss, i + 1, m, p.dst, NoticeIn(g, p).value, k, session)
  {
    hide PacketOk, SlotsOk, NoticeIn, Requested, Matcher.Step, Matcher.OutcomeOf, Matcher.Emitted, Posted, ParseRequest;
    assert StepAt(g, ws, ss, i);
    var w, s, now := ws[i], ss[i].step, ss[i].now;
    var e := EventOf(g, s.p, s.utcNow, now).value;
    AcceptedIsRequested(g, w, s.p, s.utcNow, now);
    var x := NoticeEmitted(g, w, e, p);
    EmittedOk(g, w, e, x);
    m := Match(i, e, x);
    if NoticeIn(g, p).value.isListener {
      k, session := e.sender, e.session;
    } else {
      k, session := x.requester, x.session;
    }
  }

  /** Only the server sends from its own address. */
  lemma {:induction false} OthersSendNoNotice(g: Setting, w: World, s: Step, now: Instant, p: Packet)
    requires g.Valid() && OwnersOk(g, w) && Enabled(g, w, s, now) && !s.ServerReceive?
    requires p in Apply(g, w, s, now).net && p !in w.net
    ensures NoticeIn(g, p) == None
  {
    hide ParseServer, EncodeRequest, Unforged, StartsPunch;
  }

  /** Every notification in the network of a run was sent by a match of that run. */
  lemma {:induction false} NoticeExplained(g: Setting, ws: seq<World>, ss: seq<Timed>, i: nat, p: Packet)
    returns (m: Match, k: PublicKey, session: u32)
    requires g.Valid() && IsRun(g, ws, ss) && i < |ws| && p in ws[i].net && NoticeIn(g, p).Some?
    ensures Explains(g, ws, ss, i, m, p.dst, NoticeIn(g, p).value, k, session)
  {
    hide PacketOk, SlotsOk, SocketsOk, NoticeIn, IsMatch, Apply, Enabled, Says;
    assert i > 0;
    assert StepAt(g, ws, ss, i - 1);
    RunKeeps(g, ws, ss, i - 1);
    if p in ws[i - 1].net {
      m, k, session := NoticeExplained(g, ws, ss, i - 1, p);
      NetGrows(g, ws[i - 1], ss[i - 1].step, ss[i - 1].now);
    } else if ss[i - 1].step.ServerReceive? {
      m, k, session := ServerStepExplains(g, ws, ss, i - 1, p);
    } else {
      OthersSendNoNotice(g, ws[i - 1], ss[i - 1].step, ss[i - 1].now, p);
      assert false;
    }
  }

  lemma {:induction false} NetGrows(g: Setting, w: World, s: Step, now: Instant)
    requires g.Valid() && w.clients.Keys == g.secrets.Keys && Enabled(g, w, s, now)
    ensures w.net <= Apply(g, w, s, now).net
  {
  }

  // ----- main results

  /** Whenever, in any run, client `k` starts a handshake on receiving `p`: the peer is in its trusted
      set, and there is an earlier step of the run at which the server matched a request that `k` sent
      over the very socket it now punches from with a request of the peer that came from the announced
      address, each listing the other. The notice is one of the two that this step sent; the other went
      to the announced address and gives `k`, this socket, the session of `k`'s request and the opposite
      role. If the peer is one of the clients, it has sent its request itself; and if the announced
      address is a client's at all, it is the peer's. */
  lemma {:induction false} PunchProvenance(g: Setting, ws: seq<World>, ss: seq<Timed>, i: nat, k: PublicKey, p: Packet,
                                           now: Instant)
    requires g.Valid() && IsRun(g, ws, ss) && i < |ws|
    requires k in ws[i].clients && p in ws[i].net && p.dst == ws[i].clients[k].socket
    requires StartsPunch(g, ws[i], k, p, now)
    ensures var v, n := ws[i], NoticeIn(g, p).value;
            && n.peer in v.clients[k].trusted
            && v.clients[k].socket in v.owner && v.owner[v.clients[k].socket] == k
            && (exists m, session :: Explains(g, ws, ss, i, m, v.clients[k].socket, n, k, session))
            && (n.address in v.owner ==> v.owner[n.address] == n.peer)
            && (n.peer in v.clients ==>
                  exists a :: SentBy(g, v, a) && a.sender == n.peer && a.request.session == n.session
                              && k in a.request.peers)
  {
    hide IsRun, IsMatch, ParseRequest, NoticeIn, EncodeServer, SlotsOk;
    RunKeeps(g, ws, ss, i);
    var v, n := ws[i], NoticeIn(g, p).value;
    var m, c, session := NoticeExplained(g, ws, ss, i, p);
    var mine :| Packet(p.dst, g.home, mine) in v.net && Says(g, mine, c, session, n.peer);
    assert PacketOk(g, v, Packet(p.dst, g.home, mine));
    assert c == k;
    var theirs :| Packet(n.address, g.home, theirs) in v.net && Says(g, theirs, n.peer, n.session, k);
    assert PacketOk(g, v, Packet(n.address, g.home, theirs));
  }

  /** The two matches behind two handshakes over facing sockets. */
  ghost predicate Facing(g: Setting, ws: seq<World>, ss: seq<Timed>, i: nat, p: Packet, m: Match, j: nat, q: Packet,
                         r: Match)
    requires |ws| == |ss| + 1 && i < |ws| && j < |ws| && NoticeIn(g, p).Some? && NoticeIn(g, q).Some?
  {
    && (exists k, session :: Explains(g, ws, ss, i, m, p.dst, NoticeIn(g, p).value, k, session))
    && (exists k, session :: Explains(g, ws, ss, j, r, q.dst, NoticeIn(g, q).value, k, session))
  }

  /** Two notifications that send the receivers towards each other's sockets each come from a match, and
      they give opposite roles exactly when both matches had the same side stored and the same side later.
      So they do if one match is behind both. */
  lemma {:induction false} RolesOppositeIff(g: Setting, ws: seq<World>, ss: seq<Timed>, i: nat, p: Packet, j: nat,
                                            q: Packet)
    returns (m: Match, r: Match)
    requires g.Valid() && IsRun(g, ws, ss) && i < |ws| && j < |ws|
    requires p in ws[i].net && q in ws[j].net && NoticeIn(g, p).Some? && NoticeIn(g, q).Some?
    requires NoticeIn(g, p).value.address == q.dst && NoticeIn(g, q).value.address == p.dst && p.dst != q.dst
    ensures Facing(g, ws, ss, i, p, m, j, q, r)
    ensures {m.stored.addr, m.later.addr} == {r.stored.addr, r.later.addr} == {p.dst, q.dst}
    ensures NoticeIn(g, p).value.isListener != NoticeIn(g, q).value.isListener <==> m.stored.addr == r.stored.addr
  {
    hide IsRun, IsMatch, NoticeIn, Introduced;
    var k, session, l, session';
    m, k, session := NoticeExplained(g, ws, ss, i, p);
    r, l, session' := NoticeExplained(g, ws, ss, j, q);
  }

  /** In any run no socket serves two handshakes, so none is handed out twice; a socket once used for a
      handshake belongs to that client and is no longer the one it requests from. */
  lemma {:induction false} SocketsUsedOnce(g: Setting, ws: seq<World>, ss: seq<Timed>, i: nat)
    requires g.Valid() && IsRun(g, ws, ss) && i < |ws|
    ensures SocketsOk(ws[i])
  {
    hide IsRun;
    RunKeeps(g, ws, ss, i);
  }
}
