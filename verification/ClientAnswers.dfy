/** What one client answers its caller and the network, over single polls and whole runs: what a poll
    hands out, when a request goes out and from which socket, and when a peer is sought. */
module ClientAnswers {
  import opened Bytes
  import opened Messages
  import opened Client
  import opened ClientRuns
  import Cursor
  import Punch

  // ----- what a poll answers

  /** A peer with this entry is sought at `now`: it is enabled, or its back-off lies behind. */
  predicate Sought(p: PeerState, now: Instant)
  {
    p.kind.Enabled? || (p.kind.DisabledUntil? && now > p.kind.until)
  }

  /** A request is due three seconds after the last one, or if there is none to wait for. */
  predicate IsDue(last: Option<Instant>, now: Instant)
  {
    last.None? || now >= last.value + 3000
  }

  /** The poll gets as far as listening: no request is due, or there is somebody to ask for. */
  ghost predicate Listens(s: State, i: Input)
  {
    IsDue(s.lastRequest, i.askTime) ==> exists k :: k in s.trusted && Sought(s.trusted[k], i.askTime)
  }

  /** The notice makes a client with these peers start a handshake. */
  ghost predicate Wanted(t: Trusted, n: Notice, now: Instant)
  {
    n.peer in t && Sought(t[n.peer], now) && t[n.peer].lastSession != Some(n.session)
  }

  /** A request goes out exactly when it is due and some trusted peer is sought. */
  lemma {:induction false} AsksIff(s: State, now: Instant)
    ensures AskFor(s, now).Some? <==>
              IsDue(s.lastRequest, now) && exists k :: k in s.trusted && Sought(s.trusted[k], now)
    ensures Due(s, now) <==> IsDue(s.lastRequest, now)
  {
    var enabled := EnabledKeys(s.trusted, now);
    Cursor.SelectsNearest(s.trusted.Keys, enabled, s.offset);
    hide Cursor.Select, Cursor.Past, Cursor.ArcAscending;
    var r := NextPeers(s, now);
    assert forall k :: k in enabled ==> k in r || |r| == 10;
    if r != [] { assert r[0] in r; }
  }

  lemma {:induction false} AcceptsIff(s: State, n: Notice, now: Instant)
    ensures Accepts(s, n, now) <==> Wanted(s.trusted, n, now)
  {
  }

  /** The socket a poll uses: a fresh one when the interface has changed. */
  function SocketOf(s: State, i: Input): (socket: Socket)
  {
    if i.iface == s.iface then s.socket else i.ifaceSocket
  }

  lemma {:induction false} AskedParts(s: State, i: Input)
    ensures var t := Asked(Rebound(s, i.iface, i.ifaceSocket), i.askTime);
            t.trusted == s.trusted && t.socket == SocketOf(s, i) && t.iface == i.iface
    ensures Listens(s, i) <==>
              var t := Rebound(s, i.iface, i.ifaceSocket); !(Due(t, i.askTime) && AskFor(t, i.askTime).None?)
  {
    AsksIff(Rebound(s, i.iface, i.ifaceSocket), i.askTime);
    hide AskFor, Due, Cursor.NextOffset, IsDue, Sought;
  }

  /** A connection handed out names the peer and the role of the notification; it has the socket in use until
      then; and its address is where the last punch came from. */
  ghost predicate RightConnection(s: State, i: Input, n: Notice, c: Connection)
  {
    var es := Punch.Seen(n.address, i.arrivalTime, i.wakes);
    && c.pubkey == n.peer && c.isListener == n.isListener && c.socket == SocketOf(s, i)
    && Punch.LastPunch(es) == Some(c.remoteAddr)
    && exists j :: 0 <= j < |es| && Punch.IsAck(es[j])
  }

  /** A failure says which of punch and ack came; not both did. */
  ghost predicate RightFailure(i: Input, n: Notice, gotPunch: bool, gotAck: bool)
  {
    var es := Punch.Seen(n.address, i.arrivalTime, i.wakes);
    && (gotPunch <==> exists j :: 0 <= j < |es| && Punch.IsPunch(es[j]))
    && (gotAck <==> exists j :: 0 <= j < |es| && Punch.IsAck(es[j]))
    && !(gotPunch && gotAck)
  }

  /** What a poll answers and what its handshake sends, for everything that can arrive. */
  lemma {:induction false} PollAnswers(server: Addr, s: State, i: Input)
    ensures var r, out := Poll(server, s, i).1, PollSends(server, s, i);
            if !Listens(s, i) then r == NoNews && out == []
            else match i.arrival
                 case Nothing => r == NoNews && out == []
                 case ReceiveError => r == ReceiveFailed && out == []
                 case Datagram(src, bytes) =>
                   if src != server then r == NoNews && out == []
                   else match ParseServer(bytes)
                        case Err(e) => r == ParseFailed(e) && out == []
                        case Ok(LostConnection(_, _)) => r == NoNews && out == []
                        case Ok(InitiateConnection(peer, address, session, isListener)) =>
                          var n := Notice(peer, address, session, isListener);
                          if peer !in s.trusted then r == Untrusted && out == []
                          else if !Wanted(s.trusted, n, i.arrivalTime) then r == NoNews && out == []
                          else
                            && out == Punch.SentBy(address, Punch.Seen(address, i.arrivalTime, i.wakes))
                            && if Punch.HasBoth(Punch.Seen(address, i.arrivalTime, i.wakes))
                               then r.Connected? && RightConnection(s, i, n, r.conn)
                               else r.PunchFailed? && RightFailure(i, n, r.gotPunch, r.gotAck)
  {
    hide ParseServer, AskFor, Due, Asked, Rebound, PunchResult, Accepts, Punch.Seen, Punch.SentBy, Settled, Swapped,
         Listens, RightConnection, RightFailure, Punch.HasBoth;
    AskedParts(s, i);
    var t := Asked(Rebound(s, i.iface, i.ifaceSocket), i.askTime);
    if NoticeOf(server, i.arrival).Some? {
      HandshakeAnswers(s, t, i, NoticeOf(server, i.arrival).value);
    }
  }

  lemma {:induction false} HandshakeAnswers(s: State, t: State, i: Input, n: Notice)
    requires t.trusted == s.trusted && t.socket == SocketOf(s, i)
    ensures Accepts(t, n, i.arrivalTime) <==> Wanted(s.trusted, n, i.arrivalTime)
    ensures PunchResult(n, i).Punched? <==> Punch.HasBoth(Punch.Seen(n.address, i.arrivalTime, i.wakes))
    ensures match PunchResult(n, i)
            case Punched(addr) => RightConnection(s, i, n, Connection(n.peer, addr, t.socket, n.isListener))
            case Failed(p, a) => RightFailure(i, n, p, a)
  {
    var es := Punch.Seen(n.address, i.arrivalTime, i.wakes);
    Punch.ResultMeaning(n.address, es);
    Punch.ExchangeMeaning(n.address, es);
    AcceptsIff(t, n, i.arrivalTime);
    hide Punch.Seen, Punch.Exchange, Accepts, Wanted, Punch.LastPunch;
  }

  // ----- when requests go out, and from where

  /** The latest operation before `j` that sent a request or started a handshake, or -1; between two of them
      the time of the last request stays. */
  lemma {:induction false} LastRequestOrigin(s: State, ops: seq<Op>, j: nat) returns (x: int)
    requires j <= |ops|
    ensures -1 <= x < j
    ensures At(s, ops, j).lastRequest
         == if x < 0 then s.lastRequest else if ops[x].Ask? then Some(ops[x].at) else None
    ensures x >= 0 ==> SendsAt(s, ops, x) || Starts(s, ops, x)
    ensures forall m :: x < m < j ==> !SendsAt(s, ops, m) && !Starts(s, ops, m)
  {
    hide Apply, AskFor, Accepts;
    x := -1;
    if j == 0 {
    } else {
      x := LastRequestOrigin(s, ops, j - 1);
      NextState(s, ops, j - 1);
      LastRequestStep(At(s, ops, j - 1), ops[j - 1]);
      if SendsAt(s, ops, j - 1) || Starts(s, ops, j - 1) { x := j - 1; }
    }
  }

  ghost predicate SendsAt(s: State, ops: seq<Op>, i: nat)
    requires i < |ops|
  {
    Sends(At(s, ops, i), ops[i])
  }

  /** Operation `i` starts a handshake, with whomever. */
  ghost predicate Starts(s: State, ops: seq<Op>, i: nat)
    requires i < |ops|
  {
    ops[i].Notified? && Accepts(At(s, ops, i), ops[i].notice, ops[i].at)
  }

  lemma {:induction false} LastRequestStep(s: State, op: Op)
    ensures Apply(s, op).lastRequest
         == if Sends(s, op) then Some(op.at)
            else if op.Notified? && Accepts(s, op.notice, op.at) then None
            else s.lastRequest
  {
    hide AskFor, Accepts;
  }

  /** In every run, asking sends a request exactly when some trusted peer is sought and the last request, if no
      handshake was started since, is three seconds old. */
  lemma {:induction false} RequestSentIff(s: State, ops: seq<Op>, j: nat) returns (x: int)
    requires j < |ops| && ops[j].Ask?
    ensures -1 <= x < j && (forall m :: x < m < j ==> !SendsAt(s, ops, m) && !Starts(s, ops, m))
    ensures x >= 0 ==> SendsAt(s, ops, x) || Starts(s, ops, x)
    ensures SendsAt(s, ops, j) <==>
              && (if x < 0 then IsDue(s.lastRequest, ops[j].at)
                  else Starts(s, ops, x) || ops[j].at >= ops[x].at + 3000)
              && exists k :: k in At(s, ops, j).trusted && Sought(At(s, ops, j).trusted[k], ops[j].at)
  {
    x := LastRequestOrigin(s, ops, j);
    AsksIff(At(s, ops, j), ops[j].at);
    hide Apply, AskFor, Accepts, Sought;
  }

  /** The interface in use before operation `j` is the one of the latest rebinding. */
  ghost function IfaceAt(s: State, ops: seq<Op>, j: nat): (iface: Option<string>)
    requires j <= |ops|
  {
    if j == 0 then s.iface else if ops[j - 1].Rebind? then ops[j - 1].iface else IfaceAt(s, ops, j - 1)
  }

  /** Operation `i` brings in a new socket: a handshake takes the old one, or the interface has changed. */
  ghost predicate NewSocketAt(s: State, ops: seq<Op>, i: nat)
    requires i < |ops|
  {
    Starts(s, ops, i) || (ops[i].Rebind? && ops[i].iface != IfaceAt(s, ops, i))
  }

  /** In every run the socket in use is the one that came in last; a rebinding brings one in exactly when the
      interface is another than that of the latest rebinding before. */
  lemma {:induction false} SocketOrigin(s: State, ops: seq<Op>, j: nat) returns (x: int)
    requires j <= |ops|
    ensures -1 <= x < j && (forall m :: x < m < j ==> !NewSocketAt(s, ops, m))
    ensures At(s, ops, j).iface == IfaceAt(s, ops, j)
    ensures if x < 0 then At(s, ops, j).socket == s.socket
            else NewSocketAt(s, ops, x)
                 && At(s, ops, j).socket == if ops[x].Rebind? then ops[x].ifaceSocket else ops[x].newSocket
  {
    hide Apply, Accepts;
    x := -1;
    if j == 0 {
    } else {
      x := SocketOrigin(s, ops, j - 1);
      NextState(s, ops, j - 1);
      SocketStep(At(s, ops, j - 1), ops[j - 1]);
      if NewSocketAt(s, ops, j - 1) { x := j - 1; }
    }
  }

  lemma {:induction false} SocketStep(s: State, op: Op)
    ensures Apply(s, op).iface == if op.Rebind? then op.iface else s.iface
    ensures Apply(s, op).socket
         == if op.Rebind? && op.iface != s.iface then op.ifaceSocket
            else if op.Notified? && Accepts(s, op.notice, op.at) then op.newSocket
            else s.socket
  {
    hide AskFor, Accepts;
  }

  // ----- who is trusted

  /** What an operation says about trusting `k`, if anything. */
  ghost function Says(op: Op, k: PublicKey): (trust: Option<bool>)
  {
    match op
    case AddTrusted(a) => if a == k then Some(true) else None
    case Closed(a) => if a == k then Some(true) else None
    case RemoveTrusted(a) => if a == k then Some(false) else None
    case SetTrusted(ks) => Some(k in ks)
    case _ => None
  }

  /** In every run a peer is trusted exactly as the latest operation that says anything about it has it. */
  lemma {:induction false} TrustedIff(s: State, ops: seq<Op>, j: nat, k: PublicKey) returns (x: int)
    requires j <= |ops|
    ensures -1 <= x < j && (forall m :: x < m < j ==> Says(ops[m], k).None?)
    ensures k in At(s, ops, j).trusted <==> if x < 0 then k in s.trusted else Says(ops[x], k) == Some(true)
    ensures x >= 0 ==> Says(ops[x], k).Some?
  {
    hide Apply, Says;
    x := -1;
    if j == 0 {
    } else {
      x := TrustedIff(s, ops, j - 1, k);
      NextState(s, ops, j - 1);
      TrustStep(At(s, ops, j - 1), ops[j - 1], k);
      if Says(ops[j - 1], k).Some? { x := j - 1; }
    }
  }

  lemma {:induction false} TrustStep(s: State, op: Op, k: PublicKey)
    ensures k in Apply(s, op).trusted <==> if Says(op, k).Some? then Says(op, k).value else k in s.trusted
    ensures k in Apply(s, op).trusted && k !in s.trusted ==>
              Apply(s, op).trusted[k] == PeerState(Enabled, 100, None)
  {
    hide AskFor;
  }

  // ----- when a peer is sought

  /** In every run, after an attempt on a peer and until it is closed, removed or attempted again: if the
      attempt succeeded, the peer is never sought; if it failed, it is sought at exactly the times after the
      end of the attempt plus the retry timeout before it. Then a due request with at most ten peers to ask
      for lists it, and a notification about it under a new session id starts an attempt. */
  lemma {:induction false} SoughtAgain(s: State, ops: seq<Op>, i: nat, j: nat, k: PublicKey, now: Instant)
    requires i < j <= |ops| && Attempts(s, ops, i, k)
    requires Quiet(s, ops, i + 1, j, k) && NotClosed(ops, i + 1, j, k)
    ensures k in At(s, ops, i).trusted && k in At(s, ops, j).trusted
    ensures var back := ops[i].punched.Failed? && now > ops[i].end + At(s, ops, i).trusted[k].retryMs;
            && (k in EnabledKeys(At(s, ops, j).trusted, now) <==> back)
            && (back && IsDue(At(s, ops, j).lastRequest, now) && |EnabledKeys(At(s, ops, j).trusted, now)| <= 10 ==>
                  AskFor(At(s, ops, j), now).Some? && k in AskFor(At(s, ops, j), now).value.peers)
            && (forall n: Notice :: n.peer == k ==>
                  (Accepts(At(s, ops, j), n, now) <==> back && n.session != ops[i].notice.session))
  {
    hide NextPeers, Due;
    AttemptEntry(s, ops, i, k);
    QuietEntry(s, ops, i + 1, j, k);
    EnabledIsListed(At(s, ops, j), k, now);
  }

  /** And from the moment it is closed, or newly trusted, it is sought until it is attempted or removed. */
  lemma {:induction false} SoughtAfterOpening(s: State, ops: seq<Op>, i: nat, j: nat, k: PublicKey, now: Instant)
    requires i < j <= |ops| && Quiet(s, ops, i + 1, j, k)
    requires ops[i] == Closed(k) || (k !in At(s, ops, i).trusted && k in At(s, ops, i + 1).trusted)
    ensures k in EnabledKeys(At(s, ops, j).trusted, now)
    ensures IsDue(At(s, ops, j).lastRequest, now) && |EnabledKeys(At(s, ops, j).trusted, now)| <= 10 ==>
              AskFor(At(s, ops, j), now).Some? && k in AskFor(At(s, ops, j), now).value.peers
  {
    hide NextPeers, Due;
    NextState(s, ops, i);
    TrustStep(At(s, ops, i), ops[i], k);
    StaysEnabled(s, ops, i + 1, j, k);
    EnabledIsListed(At(s, ops, j), k, now);
  }

  lemma {:induction false} EnabledIsListed(s: State, k: PublicKey, now: Instant)
    ensures k in EnabledKeys(s.trusted, now) && IsDue(s.lastRequest, now) && |EnabledKeys(s.trusted, now)| <= 10 ==>
              AskFor(s, now).Some? && k in AskFor(s, now).value.peers
  {
    AsksIff(s, now);
    if |EnabledKeys(s.trusted, now)| <= 10 { AsksForAll(s, now); }
    hide NextPeers;
  }

  lemma {:induction false} StaysEnabled(s: State, ops: seq<Op>, i: nat, j: nat, k: PublicKey)
    requires i <= j <= |ops| && k in At(s, ops, i).trusted && At(s, ops, i).trusted[k].kind == Enabled
    requires Quiet(s, ops, i, j, k)
    ensures k in At(s, ops, j).trusted && At(s, ops, j).trusted[k].kind == Enabled
    decreases j
  {
    if i == j {
    } else {
      StaysEnabled(s, ops, i, j - 1, k);
      NextState(s, ops, j - 1);
      assert !Removes(ops[j - 1], k) && !Attempts(s, ops, j - 1, k);
      EntryStays(At(s, ops, j - 1), ops[j - 1], k);
    }
  }
}
