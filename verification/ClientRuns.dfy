/** Whole runs of one client: every poll is a few elementary operations, and along any sequence of
    operations accepts, session ids and back-off behave as documented for the peer states. */
module ClientRuns {
  import opened Bytes
  import opened Messages
  import opened Cursor
  import opened Client
  import Punch

  datatype Op =
    | AddTrusted(k: PublicKey)
    | RemoveTrusted(k: PublicKey)
    | SetTrusted(ks: seq<PublicKey>)
    | Closed(k: PublicKey)
    | Rebind(iface: Option<string>, ifaceSocket: Socket)
    | Ask(at: Instant)
    | Notified(notice: Notice, at: Instant, newSocket: Socket, newSession: u32, punched: Punch.Result, end: Instant)
    | LostNotice(session: u32)

  ghost function Apply(s: State, op: Op): (t: State)
  {
    match op
    case AddTrusted(k) => s.(trusted := Add(s.trusted, k))
    case RemoveTrusted(k) => s.(trusted := Remove(s.trusted, k))
    case SetTrusted(ks) => s.(trusted := SetTo(s.trusted, ks))
    case Closed(k) => s.(trusted := Close(s.trusted, k))
    case Rebind(iface, socket) => Rebound(s, iface, socket)
    case Ask(at) => Asked(s, at)
    case Notified(n, at, newSocket, newSession, r, end) =>
      if Accepts(s, n, at) then Settled(Swapped(s, n, newSocket, newSession), n.peer, r, end) else s
    case LostNotice(session) => s.(session := session)
  }

  ghost function After(s: State, ops: seq<Op>): (t: State)
  {
    if ops == [] then s else Apply(After(s, ops[..|ops| - 1]), ops[|ops| - 1])
  }

  /** The operations one poll amounts to. */
  ghost function PollOps(server: Addr, s: State, i: Input): (ops: seq<Op>)
  {
    var s := Rebound(s, i.iface, i.ifaceSocket);
    [Rebind(i.iface, i.ifaceSocket), Ask(i.askTime)]
    + if Due(s, i.askTime) && AskFor(s, i.askTime).None? then []
      else match NoticeOf(server, i.arrival)
           case Some(n) => [Notified(n, i.arrivalTime, i.newSocket, i.newSession, PunchResult(n, i), i.endTime)]
           case None =>
             if i.arrival.Datagram? && i.arrival.src == server && ParseServer(i.arrival.bytes).Ok?
             then [LostNotice(i.newSession)] else []
  }

  lemma {:induction false} AfterAppend(s: State, ops: seq<Op>, op: Op)
    ensures After(s, ops + [op]) == Apply(After(s, ops), op)
  {
    assert (ops + [op])[..|ops|] == ops;
  }

  /** A poll changes the state as its operations do, and hands out a connection exactly when its
      notification is accepted and the handshake succeeds: then over the socket in use until now. */
  lemma {:induction false} PollIsOps(server: Addr, s: State, i: Input)
    ensures Poll(server, s, i).0 == After(s, PollOps(server, s, i))
    ensures Poll(server, s, i).1.Connected? <==>
              |PollOps(server, s, i)| == 3
              && var t := After(s, PollOps(server, s, i)[..2]); var op := PollOps(server, s, i)[2];
              op.Notified? && Accepts(t, op.notice, op.at) && op.punched.Punched?
    ensures Poll(server, s, i).1.Connected? ==>
              var conn := Poll(server, s, i).1.conn;
              var t := After(s, PollOps(server, s, i)[..2]);
              && conn.socket == t.socket
              && conn.pubkey in t.trusted
              && Poll(server, s, i).0.socket == i.newSocket
  {
    hide ParseServer, AskFor, Due, Rebound, PunchResult;
    var r, a := Rebind(i.iface, i.ifaceSocket), Ask(i.askTime);
    var ops := PollOps(server, s, i);
    AfterAppend(s, [], r);
    AfterAppend(s, [r], a);
    assert [] + [r] == [r] && [r] + [a] == [r, a];
    if |ops| == 3 {
      AfterAppend(s, [r, a], ops[2]);
      assert ops == [r, a] + [ops[2]] && ops[..2] == [r, a];
    } else {
      assert ops == [r, a];
    }
  }

  // ----- attempts

  ghost function At(s: State, ops: seq<Op>, i: nat): (t: State)
    requires i <= |ops|
  {
    After(s, ops[..i])
  }

  /** Operation `i` starts a handshake with `k`. */
  ghost predicate Attempts(s: State, ops: seq<Op>, i: nat, k: PublicKey)
    requires i < |ops|
  {
    ops[i].Notified? && ops[i].notice.peer == k && Accepts(At(s, ops, i), ops[i].notice, ops[i].at)
  }

  ghost predicate Removes(op: Op, k: PublicKey)
  {
    op == RemoveTrusted(k) || (op.SetTrusted? && k !in op.ks)
  }

  lemma {:induction false} NextState(s: State, ops: seq<Op>, i: nat)
    requires i < |ops|
    ensures At(s, ops, i + 1) == Apply(At(s, ops, i), ops[i])
  {
    assert ops[..i + 1] == ops[..i] + [ops[i]];
    AfterAppend(s, ops[..i], ops[i]);
  }

  /** The entry of `k` changes only by an attempt, a close or a removal. */
  lemma {:induction false} EntryStays(s: State, op: Op, k: PublicKey)
    requires k in s.trusted && !Removes(op, k)
    requires op.Notified? && op.notice.peer == k ==> !Accepts(s, op.notice, op.at)
    ensures k in Apply(s, op).trusted
    ensures Apply(s, op).trusted[k] == if op == Closed(k) then s.trusted[k].(kind := Enabled) else s.trusted[k]
  {
  }

  ghost predicate Quiet(s: State, ops: seq<Op>, i: nat, j: nat, k: PublicKey)
    requires i <= j <= |ops|
  {
    forall m :: i <= m < j ==> !Removes(ops[m], k) && !Attempts(s, ops, m, k)
  }

  ghost predicate NotClosed(ops: seq<Op>, i: nat, j: nat, k: PublicKey)
    requires i <= j <= |ops|
  {
    forall m :: i <= m < j ==> ops[m] != Closed(k)
  }

  lemma {:induction false} QuietEntry(s: State, ops: seq<Op>, i: nat, j: nat, k: PublicKey)
    requires i <= j <= |ops| && k in At(s, ops, i).trusted && Quiet(s, ops, i, j, k)
    ensures k in At(s, ops, j).trusted
    ensures At(s, ops, j).trusted[k].lastSession == At(s, ops, i).trusted[k].lastSession
    ensures NotClosed(ops, i, j, k) ==> At(s, ops, j).trusted[k] == At(s, ops, i).trusted[k]
    decreases j
  {
    if i == j {
    } else {
      QuietEntry(s, ops, i, j - 1, k);
      NextState(s, ops, j - 1);
      assert !Removes(ops[j - 1], k) && !Attempts(s, ops, j - 1, k);
      EntryStays(At(s, ops, j - 1), ops[j - 1], k);
    }
  }

  lemma {:induction false} AttemptEntry(s: State, ops: seq<Op>, i: nat, k: PublicKey)
    requires i < |ops| && Attempts(s, ops, i, k)
    ensures k in At(s, ops, i).trusted && k in At(s, ops, i + 1).trusted
    ensures At(s, ops, i + 1).trusted[k]
         == Attempted(At(s, ops, i).trusted[k].(lastSession := Some(ops[i].notice.session)), ops[i].punched, ops[i].end)
  {
    NextState(s, ops, i);
  }

  /** The first attempt on `k` in a stretch, if there is one and no removal precedes it. */
  lemma {:induction false} FirstAttempt(s: State, ops: seq<Op>, i: nat, j: nat, k: PublicKey) returns (m: nat)
    requires i <= j < |ops| && Attempts(s, ops, j, k)
    requires forall x :: i <= x < j ==> !Removes(ops[x], k)
    ensures i <= m <= j && Attempts(s, ops, m, k) && Quiet(s, ops, i, m, k)
    decreases j
  {
    m := j;
    if x :| i <= x < j && Attempts(s, ops, x, k) {
      m := FirstAttempt(s, ops, i, x, k);
    }
  }

  /** Between a successful handshake with a peer and the next attempt on it, the connection was
      reported closed or the peer was removed. */
  lemma {:induction false} SuccessesSeparated(s: State, ops: seq<Op>, i: nat, j: nat, k: PublicKey)
    requires i < j < |ops| && Attempts(s, ops, i, k) && ops[i].punched.Punched? && Attempts(s, ops, j, k)
    ensures exists m :: i < m < j && (ops[m] == Closed(k) || Removes(ops[m], k))
  {
    if forall m :: i < m < j ==> ops[m] != Closed(k) && !Removes(ops[m], k) {
      AttemptEntry(s, ops, i, k);
      var m := FirstAttempt(s, ops, i + 1, j, k);
      QuietEntry(s, ops, i + 1, m, k);
    }
  }

  /** Consecutive attempts on a peer that stays trusted answer different session ids. */
  lemma {:induction false} ConsecutiveSessionsDiffer(s: State, ops: seq<Op>, i: nat, j: nat, k: PublicKey)
    requires i < j < |ops| && Attempts(s, ops, i, k) && Attempts(s, ops, j, k)
    requires Quiet(s, ops, i + 1, j, k)
    ensures ops[i].notice.session != ops[j].notice.session
  {
    AttemptEntry(s, ops, i, k);
    QuietEntry(s, ops, i + 1, j, k);
  }

  ghost function TimeOf(op: Op): (t: Option<Instant>)
  {
    match op
    case Ask(at) => Some(at)
    case Notified(_, at, _, _, _, _) => Some(at)
    case _ => None
  }

  ghost predicate TimesUpTo(ops: seq<Op>, i: nat, j: nat, t: Instant)
    requires i <= j <= |ops|
  {
    forall m :: i <= m < j && TimeOf(ops[m]).Some? ==> TimeOf(ops[m]).value <= t
  }

  /** After a failed handshake, and unless the peer is closed, removed or set anew, nothing up to the
      end of its back-off requests the peer or attempts it again. */
  lemma {:induction false} BackoffRespected(s: State, ops: seq<Op>, i: nat, j: nat, k: PublicKey)
    requires i < j < |ops| && Attempts(s, ops, i, k) && ops[i].punched.Failed?
    requires NotClosed(ops, i + 1, j, k) && forall m :: i < m < j ==> !Removes(ops[m], k)
    requires TimesUpTo(ops, i + 1, j + 1, ops[i].end + At(s, ops, i).trusted[k].retryMs)
    ensures !Attempts(s, ops, j, k)
    ensures ops[j].Ask? && AskFor(At(s, ops, j), ops[j].at).Some? ==> k !in AskFor(At(s, ops, j), ops[j].at).value.peers
  {
    var until := ops[i].end + At(s, ops, i).trusted[k].retryMs;
    AttemptEntry(s, ops, i, k);
    forall m | i < m <= j ensures !Attempts(s, ops, m, k) {
      if Attempts(s, ops, m, k) {
        var f := FirstAttempt(s, ops, i + 1, m, k);
        QuietEntry(s, ops, i + 1, f, k);
      }
    }
    QuietEntry(s, ops, i + 1, j, k);
    assert At(s, ops, j).trusted[k].kind == DisabledUntil(until);
    if ops[j].Ask? {
      assert TimeOf(ops[j]).value <= until;
      AskedIsEncodable(At(s, ops, j), ops[j].at);
    }
  }

  // ----- session ids

  ghost predicate Sends(s: State, op: Op) { op.Ask? && AskFor(s, op.at).Some? }

  /** The session id an operation brings in, if it takes effect. */
  ghost function NewSession(s: State, op: Op): (x: Option<u32>)
  {
    match op
    case Notified(n, at, _, newSession, _, _) => if Accepts(s, n, at) then Some(newSession) else None
    case LostNotice(session) => Some(session)
    case _ => None
  }

  /** Random ids do not repeat: the ids brought in along the run differ from each other and from the
      first one. */
  ghost predicate DistinctIds(s: State, ops: seq<Op>)
  {
    && (forall i :: 0 <= i < |ops| ==> NewSession(At(s, ops, i), ops[i]) != Some(s.session))
    && (forall i, j :: 0 <= i < j < |ops| && Rotates(s, ops, i) ==>
          NewSession(At(s, ops, i), ops[i]) != NewSession(At(s, ops, j), ops[j]))
  }

  /** Operation `i` starts a handshake or reports a lost request. */
  ghost predicate Rotates(s: State, ops: seq<Op>, i: nat)
    requires i < |ops|
  {
    NewSession(At(s, ops, i), ops[i]).Some?
  }

  lemma {:induction false} SessionStep(s: State, op: Op)
    ensures Apply(s, op).session == match NewSession(s, op) case Some(x) => x case None => s.session
  {
  }

  /** The operation that brought in the id in use before operation `j`, or -1 for the first id. */
  lemma {:induction false} SessionOrigin(s: State, ops: seq<Op>, j: nat) returns (x: int)
    requires j <= |ops|
    ensures -1 <= x < j
    ensures if x < 0 then At(s, ops, j).session == s.session
            else NewSession(At(s, ops, x), ops[x]) == Some(At(s, ops, j).session)
    ensures forall m :: x < m < j ==> !Rotates(s, ops, m)
  {
    hide Apply, NewSession;
    x := -1;
    if j == 0 {
    } else {
      x := SessionOrigin(s, ops, j - 1);
      NextState(s, ops, j - 1);
      SessionStep(At(s, ops, j - 1), ops[j - 1]);
      if Rotates(s, ops, j - 1) { x := j - 1; }
    }
  }

  ghost function SentId(s: State, ops: seq<Op>, i: nat): (id: u32)
    requires i < |ops| && Sends(At(s, ops, i), ops[i])
  {
    AskFor(At(s, ops, i), ops[i].at).value.session
  }

  /** Two requests of a run carry the same session id exactly when no handshake was started and no lost
      request reported between them. */
  lemma {:induction false} RequestsShareIdIff(s: State, ops: seq<Op>, i: nat, j: nat)
    requires i < j < |ops| && DistinctIds(s, ops)
    requires Sends(At(s, ops, i), ops[i]) && Sends(At(s, ops, j), ops[j])
    ensures SentId(s, ops, i) == SentId(s, ops, j) <==> forall m :: i <= m < j ==> !Rotates(s, ops, m)
  {
    hide Apply, NewSession, Select, Due;
    var x := SessionOrigin(s, ops, i);
    var y := SessionOrigin(s, ops, j);
    assert x >= 0 ==> Rotates(s, ops, x);
    assert y >= 0 ==> Rotates(s, ops, y);
  }

  // ----- the back-off

  function Pow2(n: nat): (p: nat) { if n == 0 then 1 else 2 * Pow2(n - 1) }

  /** The retry timeout after `f` failures in a row. */
  function Backoff(f: nat): (ms: nat)
  {
    if f <= 4 then 100 * Pow2(f) else if f <= 7 then 1600 + 1000 * (f - 4) else 5000
  }

  lemma {:induction false} BackoffSteps(f: nat)
    ensures NextTimeout(Backoff(f)) == Backoff(f + 1)
    ensures INITIAL_TIMEOUT_MS <= Backoff(f) <= Backoff(f + 1) <= MAX_TIMEOUT_MS
  {
    assert Pow2(0) == 1 && Pow2(1) == 2 && Pow2(2) == 4 && Pow2(3) == 8 && Pow2(4) == 16;
    assert f == 0 || f == 1 || f == 2 || f == 3 || f >= 4;
  }

  /** Failures of `k` in a row after one more operation. */
  ghost function NextStreak(s: State, op: Op, k: PublicKey, before: nat): (n: nat)
  {
    if Removes(op, k) then 0
    else if op.Notified? && op.notice.peer == k && Accepts(s, op.notice, op.at) then
      if op.punched.Failed? then before + 1 else 0
    else before
  }

  /** Failed handshakes with `k` since the last success, removal or the start of the run. */
  ghost function Streak(s: State, ops: seq<Op>, k: PublicKey): (n: nat)
  {
    if ops == [] then 0
    else
      var n := |ops| - 1;
      NextStreak(After(s, ops[..n]), ops[n], k, Streak(s, ops[..n], k))
  }

  ghost predicate TimeoutFits(s: State, k: PublicKey, f: nat)
  {
    if k in s.trusted then s.trusted[k].retryMs == Backoff(f) else f == 0
  }

  lemma {:induction false} StepFits(s: State, op: Op, k: PublicKey, f: nat)
    requires TimeoutFits(s, k, f)
    ensures TimeoutFits(Apply(s, op), k, NextStreak(s, op, k, f))
  {
    assert Backoff(0) == 100;
    BackoffSteps(f);
    hide Backoff, NextTimeout;
  }

  /** In every run that starts without trusted peers, every peer's retry timeout is given by its
      number of consecutive failures, and stays between 100 and 5000 ms. */
  lemma {:induction false} TimeoutIsBackoff(s: State, ops: seq<Op>, k: PublicKey)
    requires s.trusted == map[]
    ensures TimeoutFits(After(s, ops), k, Streak(s, ops, k))
    ensures k in After(s, ops).trusted ==>
              INITIAL_TIMEOUT_MS <= After(s, ops).trusted[k].retryMs <= MAX_TIMEOUT_MS
  {
    BackoffSteps(Streak(s, ops, k));
    hide Backoff, Apply, NextStreak;
    if ops == [] {
    } else {
      var n := |ops| - 1;
      TimeoutIsBackoff(s, ops[..n], k);
      StepFits(After(s, ops[..n]), ops[n], k, Streak(s, ops[..n], k));
    }
  }

  // ----- nobody starves

  /** The trusted and enabled keys at each request sent. */
  ghost function Calls(s: State, ops: seq<Op>): (calls: seq<Call>)
  {
    if ops == [] then []
    else
      var n := |ops| - 1;
      var t := After(s, ops[..n]);
      Calls(s, ops[..n]) + if Sends(t, ops[n]) then [Call(t.trusted.Keys, EnabledKeys(t.trusted, ops[n].at))] else []
  }

  lemma {:induction false} CursorPrefix(o: PublicKey, calls: seq<Call>, more: seq<Call>, i: nat)
    requires i <= |calls|
    ensures CursorAt(o, calls + more, i) == CursorAt(o, calls, i)
  {
    hide NextOffset, Selected;
    if i == 0 {
    } else {
      CursorPrefix(o, calls, more, i - 1);
      assert (calls + more)[i - 1] == calls[i - 1];
    }
  }

  ghost predicate ListedAt(s: State, ops: seq<Op>, i: nat, peers: seq<PublicKey>)
    requires i < |ops|
  {
    Sends(At(s, ops, i), ops[i]) && AskFor(At(s, ops, i), ops[i].at).value.peers == peers
  }

  lemma {:induction false} AskMovesCursor(t: State, op: Op)
    ensures Apply(t, op).offset
         == if Sends(t, op) then NextOffset(t.trusted.Keys, NextPeers(t, op.at), t.offset) else t.offset
    ensures Sends(t, op) ==> AskFor(t, op.at).value.peers == NextPeers(t, op.at)
  {
  }

  lemma {:induction false} ListedStays(s: State, ops: seq<Op>, n: nat, i: nat, peers: seq<PublicKey>)
    requires i < n <= |ops| && ListedAt(s, ops[..n], i, peers)
    ensures ListedAt(s, ops, i, peers)
  {
    assert ops[..n][..i] == ops[..i];
  }

  ghost predicate Listed(s: State, ops: seq<Op>, peers: seq<PublicKey>)
  {
    exists i :: 0 <= i < |ops| && ListedAt(s, ops, i, peers)
  }

  lemma {:induction false} ListedLater(s: State, ops: seq<Op>, n: nat, peers: seq<PublicKey>)
    requires n <= |ops| && Listed(s, ops[..n], peers)
    ensures Listed(s, ops, peers)
  {
    var i :| 0 <= i < n && ListedAt(s, ops[..n], i, peers);
    ListedStays(s, ops, n, i, peers);
  }

  /** Only requests move the cursor. */
  lemma {:induction false} RequestsMoveCursor(s: State, ops: seq<Op>)
    ensures After(s, ops).offset == CursorAt(s.offset, Calls(s, ops), |Calls(s, ops)|)
  {
    hide Apply, NextOffset, Select;
    if ops == [] {
    } else {
      var n := |ops| - 1;
      var calls, t := Calls(s, ops[..n]), After(s, ops[..n]);
      RequestsMoveCursor(s, ops[..n]);
      AskMovesCursor(t, ops[n]);
      var c := Call(t.trusted.Keys, if ops[n].Ask? then EnabledKeys(t.trusted, ops[n].at) else {});
      CursorPrefix(s.offset, calls, [c], |calls|);
      assert Calls(s, ops) == if Sends(t, ops[n]) then calls + [c] else calls;
    }
  }

  /** Every request lists what the cursor selects. */
  lemma {:induction false} RequestsFollowCursor(s: State, ops: seq<Op>, m: nat)
    requires m < |Calls(s, ops)|
    ensures Listed(s, ops, Selected(CursorAt(s.offset, Calls(s, ops), m), Calls(s, ops)[m]))
    decreases |ops|
  {
    var n := |ops| - 1;
    var calls, t := Calls(s, ops[..n]), After(s, ops[..n]);
    var rest := Calls(s, ops)[|calls|..];
    assert Calls(s, ops) == calls + rest;
    CursorPrefix(s.offset, calls, rest, if m < |calls| then m else |calls|);
    if m < |calls| {
      RequestsFollowCursor(s, ops[..n], m);
      ListedLater(s, ops, n, Selected(CursorAt(s.offset, calls, m), calls[m]));
    } else {
      RequestsMoveCursor(s, ops[..n]);
      AskMovesCursor(t, ops[n]);
      assert ListedAt(s, ops, n, NextPeers(t, ops[n].at));
    }
  }

  /** In a run that sends requests at least a tenth as often as there are keys in `all`, a peer that
      is trusted and enabled at each of them is listed in one, whatever happens to the other peers. */
  lemma {:induction false} NobodyStarves(s: State, ops: seq<Op>, all: set<PublicKey>, k: PublicKey)
    requires Asks(Calls(s, ops), all, k)
    requires Calls(s, ops) != [] && 10 * |Calls(s, ops)| >= |all|
    ensures exists peers :: Listed(s, ops, peers) && k in peers
  {
    var calls := Calls(s, ops);
    ServedWithin(s.offset, calls, all, k);
    var m :| 0 <= m < |calls| && k in Selected(CursorAt(s.offset, calls, m), calls[m]);
    RequestsFollowCursor(s, ops, m);
  }

  /** The same without any bound on the other peers: a peer that is trusted and enabled at every request
      is listed before the requests outnumber its cyclic distance from the cursor. */
  lemma {:induction false} EventuallyListed(s: State, ops: seq<Op>, k: PublicKey)
    requires |Calls(s, ops)| > Arc(s.offset, k)
    requires forall i :: 0 <= i < |Calls(s, ops)| ==> k in Calls(s, ops)[i].keys && k in Calls(s, ops)[i].enabled
    ensures exists peers :: Listed(s, ops, peers) && k in peers
  {
    hide Arc;
    var calls := Calls(s, ops);
    NeverStarves(s.offset, calls, k);
    var m :| 0 <= m < |calls| && k in Selected(CursorAt(s.offset, calls, m), calls[m]);
    RequestsFollowCursor(s, ops, m);
  }
}
