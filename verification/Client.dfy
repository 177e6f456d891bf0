/** The connection establisher (src/udp/client.rs): trusted peers, request placement, and the reaction
    to what the server sends. Times are in milliseconds; a socket is identified by the address the
    server sees it under. */
module Client {
  import opened Bytes
  import opened Messages
  import opened Cursor
  import Punch

  const INITIAL_TIMEOUT_MS: nat := 100
  const MAX_TIMEOUT_MS: nat := 5_000
  const REQUEST_PLACEMENT_INTERVAL: nat := 2

  type Socket = Addr

  datatype PeerStateKind = ConnectionActive | Enabled | DisabledUntil(until: Instant)

  datatype PeerState = PeerState(kind: PeerStateKind, retryMs: nat, lastSession: Option<u32>) {
    predicate DiscoveryEnabled(now: Instant)
    {
      match kind
      case ConnectionActive => false
      case DisabledUntil(i) => i < now
      case Enabled => true
    }
  }

  const DEFAULT := PeerState(Enabled, INITIAL_TIMEOUT_MS, None)

  type Trusted = map<PublicKey, PeerState>

  datatype State = State(
    trusted: Trusted,
    lastRequest: Option<Instant>,
    session: u32,
    socket: Socket,
    iface: Option<string>,
    offset: PublicKey
  )

  // ----- the trusted set

  function OrDefault(t: Trusted, k: PublicKey): (p: PeerState) { if k in t then t[k] else DEFAULT }

  function Add(t: Trusted, k: PublicKey): (r: Trusted) { t[k := OrDefault(t, k)] }

  function Remove(t: Trusted, k: PublicKey): (r: Trusted) { t - {k} }

  function SetTo(t: Trusted, ks: seq<PublicKey>): (r: Trusted) { map k | k in ks :: OrDefault(t, k) }

  function Close(t: Trusted, k: PublicKey): (r: Trusted) { t[k := OrDefault(t, k).(kind := Enabled)] }

  function EnabledKeys(t: Trusted, now: Instant): (ks: set<PublicKey>)
  {
    set k | k in t && t[k].DiscoveryEnabled(now)
  }

  // ----- placing requests

  predicate Due(s: State, now: Instant)
  {
    s.lastRequest.None? || Elapsed(now, s.lastRequest.value) / 1000 > REQUEST_PLACEMENT_INTERVAL
  }

  function NextPeers(s: State, now: Instant): (ks: seq<PublicKey>)
  {
    Select(s.trusted.Keys, EnabledKeys(s.trusted, now), s.offset)
  }

  /** The request to send now, if one is due and there is anybody to ask for. */
  function AskFor(s: State, now: Instant): (r: Option<Request>)
  {
    if Due(s, now) && NextPeers(s, now) != [] then Some(ConnectionRequest(NextPeers(s, now), s.session)) else None
  }

  function Asked(s: State, now: Instant): (t: State)
  {
    if AskFor(s, now).None? then s
    else s.(offset := NextOffset(s.trusted.Keys, NextPeers(s, now), s.offset), lastRequest := Some(now))
  }

  /** Every request that is sent can be encoded. */
  lemma {:induction false} AskedIsEncodable(s: State, now: Instant)
    ensures AskFor(s, now).Some? ==> Encodable(AskFor(s, now).value)
    ensures forall k :: k in NextPeers(s, now) ==> k in EnabledKeys(s.trusted, now)
  {
    SelectsNearest(s.trusted.Keys, EnabledKeys(s.trusted, now), s.offset);
  }

  /** A client with at most ten peers to look for asks for all of them. */
  lemma {:induction false} AsksForAll(s: State, now: Instant)
    requires |EnabledKeys(s.trusted, now)| <= 10
    ensures forall k :: k in EnabledKeys(s.trusted, now) ==> k in NextPeers(s, now)
  {
    hide Select, Arc;
    var enabled := EnabledKeys(s.trusted, now);
    var r := NextPeers(s, now);
    SelectsNearest(s.trusted.Keys, enabled, s.offset);
    ElementsCount(s.offset, r);
    forall k | k in enabled ensures k in r {
      if k !in r {
        SubsetCount(Elements(r) + {k}, enabled);
      }
    }
  }

  // ----- notifications

  datatype Notice = Notice(peer: PublicKey, address: Addr, session: u32, isListener: bool)

  /** A notification is acted on if its peer is trusted, currently sought, and not last seen with the
      same session id. */
  predicate Accepts(s: State, n: Notice, now: Instant)
  {
    && n.peer in s.trusted
    && s.trusted[n.peer].DiscoveryEnabled(now)
    && s.trusted[n.peer].lastSession != Some(n.session)
  }

  function Swapped(s: State, n: Notice, newSocket: Socket, newSession: u32): (t: State)
    requires n.peer in s.trusted
  {
    s.(trusted := s.trusted[n.peer := s.trusted[n.peer].(lastSession := Some(n.session))],
       socket := newSocket, session := newSession)
  }

  function Min(a: nat, b: nat): (m: nat) { if a < b then a else b }

  function NextTimeout(ms: nat): (r: nat) { Min(ms + Min(ms, 1000), MAX_TIMEOUT_MS) }

  /** The entry of a peer after an attempt that ended at `end`. */
  function Attempted(p: PeerState, r: Punch.Result, end: Instant): (q: PeerState)
  {
    match r
    case Punched(_) => p.(kind := ConnectionActive, retryMs := INITIAL_TIMEOUT_MS)
    case Failed(_, _) => p.(kind := DisabledUntil(end + p.retryMs), retryMs := NextTimeout(p.retryMs))
  }

  function Settled(s: State, peer: PublicKey, r: Punch.Result, end: Instant): (t: State)
    requires peer in s.trusted
  {
    s.(trusted := s.trusted[peer := Attempted(s.trusted[peer], r, end)], lastRequest := None)
  }

  // ----- one poll

  datatype Arrival = Nothing | ReceiveError | Datagram(src: Addr, bytes: seq<byte>)

  /** What the outside contributes to one poll: the current interface and a socket bound to it, the
      clocks, what arrives, a fresh socket and session id, and the course of the handshake. */
  datatype Input = Input(
    iface: Option<string>, ifaceSocket: Socket,
    utcNow: DateTime, askTime: Instant,
    arrival: Arrival, arrivalTime: Instant,
    newSocket: Socket, newSession: u32,
    wakes: seq<Punch.Wake>, drain: seq<Punch.Event>, endTime: Instant
  )

  datatype Connection = Connection(pubkey: PublicKey, remoteAddr: Addr, socket: Socket, isListener: bool)

  datatype PollResult =
    | NoNews
    | Connected(conn: Connection)
    | PunchFailed(gotPunch: bool, gotAck: bool)
    | Untrusted
    | ParseFailed(error: ParseError)
    | ReceiveFailed

  function Rebound(s: State, iface: Option<string>, socket: Socket): (t: State)
  {
    if iface != s.iface then s.(socket := socket, iface := iface) else s
  }

  /** An arrival in the server's name that is acted on, as the notice it carries. */
  function NoticeOf(server: Addr, a: Arrival): (n: Option<Notice>)
  {
    if a.Datagram? && a.src == server && ParseServer(a.bytes).Ok? && ParseServer(a.bytes).value.InitiateConnection? then
      var m := ParseServer(a.bytes).value;
      Some(Notice(m.peer, m.address, m.session, m.isListener))
    else None
  }

  ghost function PunchResult(n: Notice, i: Input): (r: Punch.Result)
  {
    Punch.Exchange(n.address, Punch.Seen(n.address, i.arrivalTime, i.wakes)).Verdict()
  }

  ghost function Handle(server: Addr, s: State, i: Input): (r: (State, PollResult))
  {
    match i.arrival
    case Nothing => (s, NoNews)
    case ReceiveError => (s, ReceiveFailed)
    case Datagram(src, bytes) =>
      if src != server then (s, NoNews)
      else if ParseServer(bytes).Err? then (s, ParseFailed(ParseServer(bytes).error))
      else if ParseServer(bytes).value.LostConnection? then (s.(session := i.newSession), NoNews)
      else
        var n := NoticeOf(server, i.arrival).value;
        if n.peer !in s.trusted then (s, Untrusted)
        else if !Accepts(s, n, i.arrivalTime) then (s, NoNews)
        else
          var t := Settled(Swapped(s, n, i.newSocket, i.newSession), n.peer, PunchResult(n, i), i.endTime);
          match PunchResult(n, i)
          case Punched(addr) => (t, Connected(Connection(n.peer, addr, s.socket, n.isListener)))
          case Failed(p, a) => (t, PunchFailed(p, a))
  }

  ghost function Poll(server: Addr, s: State, i: Input): (r: (State, PollResult))
  {
    var s := Rebound(s, i.iface, i.ifaceSocket);
    if Due(s, i.askTime) && AskFor(s, i.askTime).None? then (s, NoNews)
    else Handle(server, Asked(s, i.askTime), i)
  }

  /** What the handshake sends, if one takes place. */
  ghost function HandleSends(server: Addr, s: State, i: Input): (out: seq<Punch.Send>)
  {
    match NoticeOf(server, i.arrival)
    case Some(n) =>
      if Accepts(s, n, i.arrivalTime) then Punch.SentBy(n.address, Punch.Seen(n.address, i.arrivalTime, i.wakes))
      else []
    case None => []
  }

  ghost function PollSends(server: Addr, s: State, i: Input): (out: seq<Punch.Send>)
  {
    var s := Rebound(s, i.iface, i.ifaceSocket);
    if Due(s, i.askTime) && AskFor(s, i.askTime).None? then []
    else HandleSends(server, Asked(s, i.askTime), i)
  }

  class UdpConnectionEstablisher {
    const env: Env
    const key: SecretKey
    const server: Addr
    var trusted: Trusted
    var lastRequestTm: Option<Instant>
    var sessionId: u32
    var socket: Socket
    var curInterface: Option<string>
    var lastTrustedPeerOffset: PublicKey

    function Value(): (s: State) reads this
    {
      State(trusted, lastRequestTm, sessionId, socket, curInterface, lastTrustedPeerOffset)
    }

    constructor (env: Env, key: SecretKey, server: Addr, session: u32, socket: Socket, iface: Option<string>)
      ensures this.env == env && this.key == key && this.server == server
      ensures Value() == State(map[], None, session, socket, iface, seq(32, _ => 0))
    {
      this.env, this.key, this.server := env, key, server;
      trusted, lastRequestTm, sessionId := map[], None, session;
      this.socket, curInterface := socket, iface;
      lastTrustedPeerOffset := seq(32, _ => 0);
    }

    method AddTrustedRemote(k: PublicKey)
      modifies this`trusted
      ensures trusted == Add(old(trusted), k)
    {
      if k !in trusted {
        trusted := trusted[k := DEFAULT];
      }
    }

    method RemoveTrustedRemote(k: PublicKey)
      modifies this`trusted
      ensures trusted == Remove(old(trusted), k)
    {
      trusted := trusted - {k};
    }

    method SetTrustedRemoteList(ks: seq<PublicKey>)
      modifies this`trusted
      ensures trusted == SetTo(old(trusted), ks)
    {
      for i := 0 to |ks|
        invariant forall k :: k in trusted <==> k in old(trusted) || k in ks[..i]
        invariant forall k :: k in trusted ==> trusted[k] == OrDefault(old(trusted), k)
      {
        if ks[i] !in trusted {
          trusted := trusted[ks[i] := DEFAULT];
        }
      }
      trusted := map k | k in trusted && k in ks :: trusted[k];
    }

    method OnConnectionClosed(k: PublicKey)
      modifies this`trusted
      ensures trusted == Close(old(trusted), k)
    {
      if k !in trusted {
        trusted := trusted[k := DEFAULT];
      }
      trusted := trusted[k := trusted[k].(kind := Enabled)];
    }

    method NewAvailableRemotesList(now: Instant) returns (peers: seq<PublicKey>)
      modifies this`lastTrustedPeerOffset
      ensures peers == NextPeers(old(Value()), now)
      ensures lastTrustedPeerOffset == NextOffset(trusted.Keys, peers, old(lastTrustedPeerOffset))
    {
      peers := Select(trusted.Keys, EnabledKeys(trusted, now), lastTrustedPeerOffset);
      if peers != [] {
        var last := peers[|peers| - 1];
        var above := Above(trusted.Keys, last);
        lastTrustedPeerOffset := if above != {} then Least(above) else Least(trusted.Keys);
      }
    }

    /** Signs and sends a request from the current socket. */
    method PlaceConnectionRequests(peers: seq<PublicKey>, utcNow: DateTime, now: Instant)
      returns (datagram: seq<byte>)
      requires 1 <= |peers| <= 10
      modifies this`lastRequestTm
      ensures lastRequestTm == Some(now)
      ensures datagram == EncodeRequest(env, key, ConnectionRequest(peers, sessionId), utcNow)
    {
      datagram := ToBytes(env, key, ConnectionRequest(peers, sessionId), utcNow);
      lastRequestTm := Some(now);
    }

    /** Sends a request if one is due; `idle` if it is due and there is nobody to ask for. */
    method AskServer(utcNow: DateTime, now: Instant) returns (idle: bool, request: Option<(Socket, seq<byte>)>)
      modifies this
      ensures Value() == Asked(old(Value()), now)
      ensures idle <==> Due(old(Value()), now) && AskFor(old(Value()), now).None?
      ensures match AskFor(old(Value()), now)
              case None => request == None
              case Some(q) => Encodable(q) && request == Some((socket, EncodeRequest(env, key, q, utcNow)))
    {
      hide Select, Successor, EncodeRequest;
      AskedIsEncodable(Value(), now);
      idle, request := false, None;
      if Due(Value(), now) {
        var peers := NewAvailableRemotesList(now);
        if peers == [] {
          return true, None;
        }
        var datagram := PlaceConnectionRequests(peers, utcNow, now);
        request := Some((socket, datagram));
      }
    }

    method OnArrival(i: Input) returns (r: PollResult, punches: seq<Punch.Send>)
      modifies this
      ensures (Value(), r) == Handle(server, old(Value()), i)
      ensures punches == HandleSends(server, old(Value()), i)
    {
      punches := [];
      match i.arrival {
        case Nothing => r := NoNews;
        case ReceiveError => r := ReceiveFailed;
        case Datagram(src, bytes) =>
          if src != server { return NoNews, punches; }
          var parsed := ParseServer(bytes);
          match parsed {
            case Err(e) => r := ParseFailed(e);
            case Ok(LostConnection(_, _)) =>
              sessionId := i.newSession;
              r := NoNews;
            case Ok(InitiateConnection(peer, address, session, isListener)) =>
              r, punches := OnInitiate(Notice(peer, address, session, isListener), i);
          }
      }
    }

    /** One poll: the datagram sent to the server, if any, with the socket it leaves from; what the
        handshake sends; and the result. */
    method PollAccept(i: Input)
      returns (r: PollResult, request: Option<(Socket, seq<byte>)>, punches: seq<Punch.Send>)
      modifies this
      ensures (Value(), r) == Poll(server, old(Value()), i)
      ensures punches == PollSends(server, old(Value()), i)
      ensures var s := Rebound(old(Value()), i.iface, i.ifaceSocket);
              match AskFor(s, i.askTime)
              case None => request == None
              case Some(q) => Encodable(q) && request == Some((s.socket, EncodeRequest(env, key, q, i.utcNow)))
    {
      hide Select, AskFor, Due, Handle, HandleSends, EncodeRequest;
      if i.iface != curInterface {
        socket := i.ifaceSocket;
        curInterface := i.iface;
      }
      var idle;
      idle, request := AskServer(i.utcNow, i.askTime);
      if idle {
        return NoNews, request, [];
      }
      r, punches := OnArrival(i);
    }

    method OnInitiate(n: Notice, i: Input) returns (r: PollResult, punches: seq<Punch.Send>)
      requires NoticeOf(server, i.arrival) == Some(n)
      modifies this
      ensures (Value(), r) == Handle(server, old(Value()), i)
      ensures punches == HandleSends(server, old(Value()), i)
    {
      hide Punch.Exchange, Punch.SentBy, Punch.Seen;
      punches := [];
      if n.peer !in trusted { return Untrusted, punches; }
      if !trusted[n.peer].DiscoveryEnabled(i.arrivalTime) { return NoNews, punches; }
      if trusted[n.peer].lastSession == Some(n.session) { return NoNews, punches; }
      trusted := trusted[n.peer := trusted[n.peer].(lastSession := Some(n.session))];
      var used := socket;
      socket := i.newSocket;
      sessionId := i.newSession;
      var result, warnings;
      result, punches, warnings := Punch.HolePunch(n.address, i.arrivalTime, i.wakes, i.drain);
      var p := trusted[n.peer];
      match result {
        case Failed(gotPunch, gotAck) =>
          p := p.(kind := DisabledUntil(i.endTime + p.retryMs));
          p := p.(retryMs := p.retryMs + Min(p.retryMs, 1000));
          p := p.(retryMs := Min(p.retryMs, MAX_TIMEOUT_MS));
          trusted := trusted[n.peer := p];
          lastRequestTm := None;
          r := PunchFailed(gotPunch, gotAck);
        case Punched(addr) =>
          p := p.(kind := ConnectionActive);
          p := p.(retryMs := INITIAL_TIMEOUT_MS);
          trusted := trusted[n.peer := p];
          lastRequestTm := None;
          r := Connected(Connection(n.peer, addr, used, n.isListener));
      }
    }
  }
}
