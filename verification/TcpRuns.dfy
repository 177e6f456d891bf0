/** All interleavings of the TCP handlers (src/server.rs, handle_tcp_client) over the shared table.

    The table operations are atomic, as under the mutex. A service's handler first takes a request and
    later fires its channel. The requester's handler waits on the channel; after five seconds at the
    earliest its timer may win, and only a moment later does it drop its end of the channel; then it
    clears the slot of the session it asked for. */
module TcpRuns {
  import opened Bytes
  import opened TcpTable

  datatype Phase = Waiting | Confirmed | Expired | TimedOut | SenderGone | Died

  datatype Request = Request(
    session: Session,
    addr: Addr,
    inserted: Instant,
    taken: Option<Instant>,
    fired: Option<Instant>,
    phase: Phase,
    cleared: bool
  )

  datatype World = World(table: Table, requests: map<ChannelId, Request>, inHand: set<ChannelId>, now: Instant)

  const INIT := World(map[], map[], {}, 0)

  datatype Step =
    | Announce(data: Announcement, addr: Addr)
    | Fire(tx: ChannelId)
    | Place(session: Session, addr: Addr, tx: ChannelId)
    | Confirm(tx: ChannelId)
    | Expire(tx: ChannelId)
    | GiveUp(tx: ChannelId)
    | NoticeDrop(tx: ChannelId)
    | Die(tx: ChannelId)
    | Clear(tx: ChannelId)
    | Update

  predicate PendingAt(t: Table, k: Session, tx: ChannelId)
  {
    k in t && t[k].pending.Some? && t[k].pending.value.tx == tx
  }

  ghost predicate SenderAlive(w: World, tx: ChannelId)
  {
    tx in w.inHand || exists k :: PendingAt(w.table, k, tx)
  }

  /** The waiter polls its channel before its timer, so a channel fired before that poll wins. */
  ghost predicate Enabled(w: World, s: Step, now: Instant)
  {
    && w.now <= now
    && match s
       case Announce(_, _) => true
       case Fire(tx) => tx in w.inHand && tx in w.requests
       case Place(session, _, tx) => session in w.table && tx !in w.requests
       case Confirm(tx) => tx in w.requests && w.requests[tx].phase == Waiting && w.requests[tx].fired.Some?
       case Expire(tx) =>
         tx in w.requests && w.requests[tx].phase == Waiting && w.requests[tx].fired == None
         && now >= w.requests[tx].inserted + CONNECTION_REQUEST_TIMEOUT_MS
       case GiveUp(tx) => tx in w.requests && w.requests[tx].phase == Expired
       case NoticeDrop(tx) =>
         tx in w.requests && w.requests[tx].phase == Waiting && w.requests[tx].fired == None && !SenderAlive(w, tx)
       case Die(tx) => tx in w.requests && w.requests[tx].phase == Waiting
       case Clear(tx) =>
         tx in w.requests && w.requests[tx].phase in {Confirmed, TimedOut, SenderGone} && !w.requests[tx].cleared
       case Update => true
  }

  /** The request an announcement takes. */
  function Taken(w: World, data: Announcement, addr: Addr, now: Instant): (p: Option<Incoming>)
  {
    Announced(w.table, data, addr, now).1
  }

  ghost function Apply(w: World, s: Step, now: Instant): (v: World)
    requires Enabled(w, s, now)
  {
    match s
    case Announce(data, addr) =>
      var (table, taken) := Announced(w.table, data, addr, now);
      if taken.Some? && taken.value.tx in w.requests then
        var tx := taken.value.tx;
        World(table, w.requests[tx := w.requests[tx].(taken := Some(now))], w.inHand + {tx}, now)
      else w.(table := table, now := now)
    case Fire(tx) =>
      var r := w.requests[tx];
      w.(requests := w.requests[tx := r.(fired := if r.phase in {Waiting, Expired} then Some(now) else None)],
         inHand := w.inHand - {tx}, now := now)
    case Place(session, addr, tx) =>
      w.(table := Inserted(w.table, session, addr, tx, now),
         requests := w.requests[tx := Request(session, addr, now, None, None, Waiting, false)],
         now := now)
    case Confirm(tx) => w.(requests := w.requests[tx := w.requests[tx].(phase := Confirmed)], now := now)
    case Expire(tx) => w.(requests := w.requests[tx := w.requests[tx].(phase := Expired)], now := now)
    case GiveUp(tx) => w.(requests := w.requests[tx := w.requests[tx].(phase := TimedOut)], now := now)
    case NoticeDrop(tx) => w.(requests := w.requests[tx := w.requests[tx].(phase := SenderGone)], now := now)
    case Die(tx) => w.(requests := w.requests[tx := w.requests[tx].(phase := Died)], now := now)
    case Clear(tx) =>
      w.(table := Cleared(w.table, w.requests[tx].session),
         requests := w.requests[tx := w.requests[tx].(cleared := true)],
         now := now)
    case Update => w.(table := Recent(w.table, now), now := now)
  }

  // ----- what every step keeps

  /** A pending request sits under its own session, has not been taken, and expires 4500 ms after it
      was inserted. */
  ghost predicate PendingOk(w: World, k: Session)
    requires k in w.table && w.table[k].pending.Some?
  {
    var p := w.table[k].pending.value;
    && p.tx in w.requests && p.tx !in w.inHand
    && var r := w.requests[p.tx];
       r.session == k && r.addr == p.addr && r.taken == None && r.fired == None
       && p.deadline == r.inserted + 4500
  }

  ghost predicate RequestOk(w: World, tx: ChannelId)
    requires tx in w.requests
  {
    var r := w.requests[tx];
    && r.inserted <= w.now
    && (r.taken.Some? ==> r.inserted <= r.taken.value < r.inserted + 4500)
    && (r.taken.Some? ==> r.taken.value <= w.now)
    && (tx in w.inHand ==> r.taken.Some? && r.fired == None)
    && (r.fired.Some? ==> r.taken.Some? && r.taken.value <= r.fired.value && r.phase != SenderGone)
    && (r.fired.Some? && r.phase in {Expired, TimedOut} ==> r.fired.value >= r.inserted + 5000)
    && (r.phase == Confirmed ==> r.fired.Some?)
    && (r.phase in {Expired, TimedOut} ==> w.now >= r.inserted + 5000)
  }

  ghost predicate Inv(w: World)
  {
    && Keyed(w.table)
    && (forall k :: k in w.table && w.table[k].pending.Some? ==> PendingOk(w, k))
    && (forall tx :: tx in w.requests ==> RequestOk(w, tx))
    && (forall tx :: tx in w.inHand ==> tx in w.requests)
  }

  lemma {:induction false} StepKeeps(w: World, s: Step, now: Instant)
    requires Inv(w) && Enabled(w, s, now)
    ensures Inv(Apply(w, s, now))
  {
    var v := Apply(w, s, now);
    forall k | k in v.table && v.table[k].pending.Some? ensures PendingOk(v, k) {
      PendingKeeps(w, s, now, k);
    }
    forall tx | tx in v.requests ensures RequestOk(v, tx) {
      RequestKeeps(w, s, now, tx);
    }
  }

  lemma {:induction false} PendingKeeps(w: World, s: Step, now: Instant, k: Session)
    requires Inv(w) && Enabled(w, s, now)
    requires var t := Apply(w, s, now).table; k in t && t[k].pending.Some?
    ensures PendingOk(Apply(w, s, now), k)
  {
    if k in w.table && w.table[k].pending.Some? { assert PendingOk(w, k); }
    if s.Announce? && s.data.session in w.table && w.table[s.data.session].pending.Some? {
      assert PendingOk(w, s.data.session);
    }
  }

  lemma {:induction false} RequestKeeps(w: World, s: Step, now: Instant, tx: ChannelId)
    requires Inv(w) && Enabled(w, s, now) && tx in Apply(w, s, now).requests
    ensures RequestOk(Apply(w, s, now), tx)
  {
    hide SenderAlive, PendingOk, Keyed, Announced, Inserted, Cleared, Recent;
    var v := Apply(w, s, now);
    if s.Announce? {
      AnnounceKeepsRequests(w, s.data, s.addr, now, tx);
    } else if tx in w.requests {
      assert RequestOk(w, tx);
      if v.requests[tx] == w.requests[tx] { Untouched(w, v, tx); }
    }
  }

  lemma {:induction false} Untouched(w: World, v: World, tx: ChannelId)
    requires tx in w.requests && tx in v.requests && v.requests[tx] == w.requests[tx] && RequestOk(w, tx)
    requires (tx in v.inHand ==> tx in w.inHand) && w.now <= v.now
    ensures RequestOk(v, tx)
  {
  }

  lemma {:induction false} AnnounceKeepsRequests(w: World, data: Announcement, addr: Addr, now: Instant, tx: ChannelId)
    requires Inv(w) && w.now <= now && tx in Apply(w, Announce(data, addr), now).requests
    ensures RequestOk(Apply(w, Announce(data, addr), now), tx)
  {
    if tx in w.requests { assert RequestOk(w, tx); }
    if data.session in w.table && w.table[data.session].pending.Some? { assert PendingOk(w, data.session); }
  }

  datatype Timed = Timed(step: Step, now: Instant)

  /** The world after a run, if every step of it was possible. */
  ghost function Run(ss: seq<Timed>): (w: Option<World>)
  {
    if ss == [] then Some(INIT)
    else
      var n := |ss| - 1;
      var before := Run(ss[..n]);
      if before.Some? && Enabled(before.value, ss[n].step, ss[n].now)
      then Some(Apply(before.value, ss[n].step, ss[n].now)) else None
  }

  lemma {:induction false} RunKeeps(ss: seq<Timed>)
    requires Run(ss).Some?
    ensures Inv(Run(ss).value)
  {
    if ss == [] {
    } else {
      RunKeeps(ss[..|ss| - 1]);
      StepKeeps(Run(ss[..|ss| - 1]).value, ss[|ss| - 1].step, ss[|ss| - 1].now);
    }
  }

  lemma {:induction false} PrefixRuns(ss: seq<Timed>, i: nat)
    requires Run(ss).Some? && i <= |ss|
    ensures Run(ss[..i]).Some?
    decreases |ss|
  {
    hide Apply, Enabled;
    if i < |ss| {
      PrefixRuns(ss[..|ss| - 1], i);
      assert ss[..|ss| - 1][..i] == ss[..i];
    } else {
      assert ss[..i] == ss;
    }
  }

  /** Step `i` of the run takes request `tx` for a service. */
  ghost predicate Takes(ss: seq<Timed>, i: nat, tx: ChannelId)
    requires i < |ss|
  {
    && Run(ss[..i]).Some? && ss[i].step.Announce?
    && var p := Taken(Run(ss[..i]).value, ss[i].step.data, ss[i].step.addr, ss[i].now);
       p.Some? && p.value.tx == tx
  }

  /** A request is taken less than 4500 ms after it was placed, while it was never taken before and its
      requester has not given up. */
  lemma {:induction false} TakenInTime(ss: seq<Timed>, i: nat, tx: ChannelId)
    requires Run(ss).Some? && i < |ss| && Takes(ss, i, tx)
    ensures var w := Run(ss[..i]).value;
            && tx in w.requests
            && w.requests[tx].taken == None
            && ss[i].now < w.requests[tx].inserted + 4500
            && w.requests[tx].phase !in {Expired, TimedOut}
    ensures var v := Run(ss[..i + 1]);
            v.Some? && tx in v.value.requests && v.value.requests[tx].taken == Some(ss[i].now)
  {
    PrefixRuns(ss, i + 1);
    RunKeeps(ss[..i]);
    assert ss[..i + 1][..i] == ss[..i];
    var w := Run(ss[..i]).value;
    assert PendingOk(w, ss[i].step.data.session);
    assert RequestOk(w, tx);
  }

  lemma {:induction false} TakenStays(w: World, s: Step, now: Instant, tx: ChannelId)
    requires Inv(w) && Enabled(w, s, now) && tx in w.requests && w.requests[tx].taken.Some?
    ensures tx in Apply(w, s, now).requests && Apply(w, s, now).requests[tx].taken == w.requests[tx].taken
  {
    if s.Announce? {
      var p := Taken(w, s.data, s.addr, now);
      if p.Some? { assert PendingOk(w, s.data.session); }
    }
  }

  lemma {:induction false} TakenForever(ss: seq<Timed>, i: nat, j: nat, tx: ChannelId)
    requires Run(ss).Some? && i <= j <= |ss|
    requires Run(ss[..i]).Some? && tx in Run(ss[..i]).value.requests && Run(ss[..i]).value.requests[tx].taken.Some?
    ensures Run(ss[..j]).Some? && tx in Run(ss[..j]).value.requests && Run(ss[..j]).value.requests[tx].taken.Some?
    decreases j
  {
    hide Apply, Enabled, Inv;
    PrefixRuns(ss, j);
    if i == j {
    } else {
      TakenForever(ss, i, j - 1, tx);
      assert ss[..j][..j - 1] == ss[..j - 1];
      RunKeeps(ss[..j - 1]);
      TakenStays(Run(ss[..j - 1]).value, ss[j - 1].step, ss[j - 1].now, tx);
    }
  }

  /** No request is handed to services twice. */
  lemma {:induction false} TakenOnce(ss: seq<Timed>, i: nat, j: nat, tx: ChannelId)
    requires Run(ss).Some? && i < j < |ss| && Takes(ss, i, tx)
    ensures !Takes(ss, j, tx)
  {
    hide Apply, Enabled, Taken;
    TakenInTime(ss, i, tx);
    TakenForever(ss, i + 1, j, tx);
    if Takes(ss, j, tx) {
      TakenInTime(ss, j, tx);
    }
  }

  /** The two ends agree: when a service was told to connect, its requester has been or will be told so
      too, unless its handler died or the service's handler let more than 500 ms pass between taking the
      request and firing its channel. A confirmed requester's service was told. No channel that is still
      pending or in hand was fired. */
  lemma {:induction false} EndsAgree(ss: seq<Timed>, tx: ChannelId)
    requires Run(ss).Some? && tx in Run(ss).value.requests
    ensures var r := Run(ss).value.requests[tx];
            && (r.fired.Some? ==> r.taken.Some? && !SenderAlive(Run(ss).value, tx))
            && (r.fired.Some? && r.fired.value < r.inserted + 5000 ==>
                  r.phase in {Waiting, Confirmed, Died})
            && (r.fired.Some? && r.fired.value <= r.taken.value + 500 ==> r.phase in {Waiting, Confirmed, Died})
            && (r.phase == Confirmed ==> r.fired.Some?)
            && (r.phase == SenderGone ==> r.fired == None)
  {
    RunKeeps(ss);
    assert RequestOk(Run(ss).value, tx);
    if k :| PendingAt(Run(ss).value.table, k, tx) {
      assert PendingOk(Run(ss).value, k);
    }
  }

  lemma {:induction false} Extend(ss: seq<Timed>, t: Timed)
    requires Run(ss).Some? && Enabled(Run(ss).value, t.step, t.now)
    ensures Run(ss + [t]) == Some(Apply(Run(ss).value, t.step, t.now))
  {
    assert (ss + [t])[..|ss|] == ss;
  }

  /** A service announces itself, a requester places a request with it, and the service takes it. */
  function Placed(data: Announcement, service: Addr, requester: Addr, tx: ChannelId, start: Instant, take: Instant)
    : (ss: seq<Timed>)
  {
    [Timed(Announce(data, service), start), Timed(Place(data.session, requester, tx), start), Timed(Update, take),
     Timed(Announce(data, service), take)]
  }

  lemma {:induction false} RequestTaken(ss: seq<Timed>, data: Announcement, service: Addr, requester: Addr,
                                        tx: ChannelId, take: Instant)
    requires Run(ss).Some? && tx !in Run(ss).value.requests
    requires Run(ss).value.now <= take <= Run(ss).value.now + 3000
    ensures var w := Run(ss + Placed(data, service, requester, tx, Run(ss).value.now, take));
            && w.Some? && w.value.now == take && tx in w.value.inHand && tx in w.value.requests
            && w.value.requests[tx]
            == Request(data.session, requester, Run(ss).value.now, Some(take), None, Waiting, false)
  {
    RunKeeps(ss);
    hide Run, Inv, SenderAlive;
    var start := Run(ss).value.now;
    var all := Placed(data, service, requester, tx, start, take);
    Extend(ss, all[0]);
    Extend(ss + [all[0]], all[1]);
    Extend(ss + [all[0]] + [all[1]], all[2]);
    Extend(ss + [all[0]] + [all[1]] + [all[2]], all[3]);
    assert ss + all == ss + [all[0]] + [all[1]] + [all[2]] + [all[3]];
  }

  /** That exception is real. Any run can go on like this: a service announces itself, a request is placed
      with it, and it comes back within its three seconds and takes the request; but its handler fires the
      channel only when the requester's timer has won and its end of the channel is not dropped yet. Then
      the service has been told to connect and its requester has timed out. */
  lemma {:induction false} LateFireMissed(ss: seq<Timed>, data: Announcement, service: Addr, requester: Addr,
                                          tx: ChannelId, take: Instant, late: Instant)
    returns (rs: seq<Timed>)
    requires Run(ss).Some? && tx !in Run(ss).value.requests
    requires Run(ss).value.now <= take <= Run(ss).value.now + 3000
    requires late >= Run(ss).value.now + 5000
    ensures rs == ss + Placed(data, service, requester, tx, Run(ss).value.now, take)
                  + [Timed(Expire(tx), late)] + [Timed(Fire(tx), late)] + [Timed(GiveUp(tx), late)]
    ensures Run(rs).Some? && tx in Run(rs).value.requests
    ensures Run(rs).value.requests[tx].fired == Some(late) && Run(rs).value.requests[tx].phase == TimedOut
  {
    RequestTaken(ss, data, service, requester, tx, take);
    hide Run, Inv, SenderAlive, Placed;
    rs := ss + Placed(data, service, requester, tx, Run(ss).value.now, take);
    Extend(rs, Timed(Expire(tx), late));
    rs := rs + [Timed(Expire(tx), late)];
    Extend(rs, Timed(Fire(tx), late));
    rs := rs + [Timed(Fire(tx), late)];
    Extend(rs, Timed(GiveUp(tx), late));
    rs := rs + [Timed(GiveUp(tx), late)];
  }

  // ----- addresses

  /** The latest step before `i` at which session `k` was announced, or -1. */
  ghost function LatestAnnounce(ss: seq<Timed>, i: nat, k: Session): (a: int)
    requires i <= |ss|
    ensures -1 <= a < i
    ensures a >= 0 ==> ss[a].step.Announce? && ss[a].step.data.session == k
    ensures forall m :: a < m < i && ss[m].step.Announce? ==> ss[m].step.data.session != k
  {
    if i == 0 then -1
    else if ss[i - 1].step.Announce? && ss[i - 1].step.data.session == k then i - 1
    else LatestAnnounce(ss, i - 1, k)
  }

  lemma {:induction false} NextWorld(ss: seq<Timed>, i: nat)
    requires i < |ss| && Run(ss[..i + 1]).Some?
    ensures Run(ss[..i]).Some? && Enabled(Run(ss[..i]).value, ss[i].step, ss[i].now)
    ensures Run(ss[..i + 1]).value == Apply(Run(ss[..i]).value, ss[i].step, ss[i].now)
  {
    hide Enabled, Apply;
    assert ss[..i + 1][..i] == ss[..i];
  }

  /** In every interleaving a session is listed exactly when it was announced and no update since has come
      more than three seconds after its latest announcement; its entry is what that announcement said, with
      the address it came from. */
  lemma {:induction false} EntryIff(ss: seq<Timed>, i: nat, k: Session)
    requires i <= |ss| && Run(ss[..i]).Some?
    ensures var t, a := Run(ss[..i]).value.table, LatestAnnounce(ss, i, k);
            && (k in t <==>
                  a >= 0 && forall m :: a < m < i && ss[m].step.Update? ==> ss[m].now <= ss[a].now + 3000)
            && (k in t ==>
                  t[k].addr == ss[a].step.addr && t[k].data == ss[a].step.data && t[k].lastAnnouncement == ss[a].now)
  {
    hide Run, Apply, Enabled, LatestAnnounce;
    if i == 0 {
      EmptyTable(ss);
    } else {
      NextWorld(ss, i - 1);
      NextAnnounce(ss, i, k);
      EntryIff(ss, i - 1, k);
      EntryStep(Run(ss[..i - 1]).value, ss[i - 1].step, ss[i - 1].now, k);
    }
  }

  lemma {:induction false} EmptyTable(ss: seq<Timed>)
    ensures Run(ss[..0]) == Some(INIT) && forall k :: LatestAnnounce(ss, 0, k) == -1
  {
  }

  lemma {:induction false} NextAnnounce(ss: seq<Timed>, i: nat, k: Session)
    requires 0 < i <= |ss|
    ensures LatestAnnounce(ss, i, k)
         == if ss[i - 1].step.Announce? && ss[i - 1].step.data.session == k then i - 1
            else LatestAnnounce(ss, i - 1, k)
  {
  }

  /** What one step does to the entry of a session, its pending request aside. */
  lemma {:induction false} EntryStep(w: World, s: Step, now: Instant, k: Session)
    requires Enabled(w, s, now)
    ensures var t := Apply(w, s, now).table;
            if s.Announce? && s.data.session == k then
              k in t && t[k].addr == s.addr && t[k].data == s.data && t[k].lastAnnouncement == now
            else
              && (k in t <==> k in w.table && (s.Update? ==> now <= w.table[k].lastAnnouncement + 3000))
              && (k in t ==> t[k].(pending := None) == w.table[k].(pending := None))
  {
  }

  lemma {:induction false} RequestStep(w: World, s: Step, now: Instant, tx: ChannelId)
    requires Enabled(w, s, now) && tx in Apply(w, s, now).requests
    ensures var r := Apply(w, s, now).requests[tx];
            if tx in w.requests then
              var q := w.requests[tx];
              r.session == q.session && r.addr == q.addr && r.inserted == q.inserted
            else s == Place(r.session, r.addr, tx) && now == r.inserted
  {
    hide SenderAlive, Announced, Inserted, Cleared, Recent;
  }

  /** Where a request came from. */
  lemma {:induction false} PlacedBy(ss: seq<Timed>, i: nat, tx: ChannelId) returns (j: nat)
    requires i <= |ss| && Run(ss[..i]).Some? && tx in Run(ss[..i]).value.requests
    ensures var r := Run(ss[..i]).value.requests[tx];
            j < i && ss[j].step == Place(r.session, r.addr, tx) && ss[j].now == r.inserted
  {
    if i == 0 {
      assert false;
    } else {
      NextWorld(ss, i - 1);
      var w := Run(ss[..i - 1]).value;
      RequestStep(w, ss[i - 1].step, ss[i - 1].now, tx);
      hide Run, Apply, Enabled;
      if tx in w.requests {
        j := PlacedBy(ss, i - 1, tx);
      } else {
        j := i - 1;
      }
    }
  }

  /** In every interleaving, what is handed to a service that takes request `tx` is the address from which
      that request was placed, less than 4500 ms before, for the session the service announces. */
  lemma {:induction false} TakenAddress(ss: seq<Timed>, i: nat, tx: ChannelId) returns (j: nat)
    requires Run(ss).Some? && i < |ss| && Takes(ss, i, tx)
    ensures j < i && ss[j].step.Place? && ss[j].step.tx == tx && ss[j].step.session == ss[i].step.data.session
    ensures Taken(Run(ss[..i]).value, ss[i].step.data, ss[i].step.addr, ss[i].now).value.addr == ss[j].step.addr
    ensures ss[i].now < ss[j].now + 4500
  {
    TakenInTime(ss, i, tx);
    RunKeeps(ss[..i]);
    var w := Run(ss[..i]).value;
    assert PendingOk(w, ss[i].step.data.session);
    hide Run, Apply, Enabled;
    j := PlacedBy(ss, i, tx);
  }

  /** The address a requester is answered with: that of the entry it names. */
  function Answered(t: Table, session: Session): (addr: Addr)
    requires session in t
  {
    t[session].addr
  }

  /** In every interleaving a requester is answered with the address its service announced itself from last. */
  lemma {:induction false} PlaceAnswered(ss: seq<Timed>, i: nat)
    requires Run(ss).Some? && i < |ss| && ss[i].step.Place?
    ensures var session := ss[i].step.session;
            var a := LatestAnnounce(ss, i, session);
            && Run(ss[..i]).Some? && session in Run(ss[..i]).value.table && a >= 0
            && Answered(Run(ss[..i]).value.table, session) == ss[a].step.addr
  {
    PrefixRuns(ss, i + 1);
    NextWorld(ss, i);
    EntryIff(ss, i, ss[i].step.session);
    hide Run, LatestAnnounce;
  }

  // ----- exactly when a request is pending, and taken

  /** What each step does to a pending request: it ends by an announcement in time, another request for the
      session, the clearing of the session by whomever, or an update that drops the entry; not otherwise. */
  lemma {:induction false} PendingIff(w: World, s: Step, now: Instant, k: Session, tx: ChannelId)
    requires Inv(w) && Enabled(w, s, now)
    ensures PendingAt(Apply(w, s, now).table, k, tx) <==>
            match s
            case Announce(data, _) =>
              PendingAt(w.table, k, tx) && !(k == data.session && now < w.requests[tx].inserted + 4500)
            case Place(session, _, x) => if k == session then tx == x else PendingAt(w.table, k, tx)
            case Clear(x) => PendingAt(w.table, k, tx) && k != w.requests[x].session
            case Update => PendingAt(w.table, k, tx) && now <= w.table[k].lastAnnouncement + 3000
            case _ => PendingAt(w.table, k, tx)
  {
    hide SenderAlive;
    if k in w.table && w.table[k].pending.Some? { assert PendingOk(w, k); }
  }

  /** An announcement takes a request exactly when it is pending at its session and was placed less than
      4500 ms ago. */
  lemma {:induction false} TakesIff(w: World, data: Announcement, addr: Addr, now: Instant, tx: ChannelId)
    requires Inv(w)
    ensures (Taken(w, data, addr, now).Some? && Taken(w, data, addr, now).value.tx == tx) <==>
              PendingAt(w.table, data.session, tx) && now < w.requests[tx].inserted + 4500
  {
    if data.session in w.table && w.table[data.session].pending.Some? { assert PendingOk(w, data.session); }
  }

  // ----- clearing is by session, not by request

  lemma {:induction false} PendingUnderOwnSession(w: World, tx: ChannelId)
    requires Inv(w)
    ensures forall k :: PendingAt(w.table, k, tx) ==> tx in w.requests && k == w.requests[tx].session
  {
    forall k | PendingAt(w.table, k, tx) ensures tx in w.requests && k == w.requests[tx].session {
      assert PendingOk(w, k);
    }
  }

  /** Clearing after request `tx` drops the pending request of another requester exactly when the
      slot of the session holds another one by then. */
  lemma {:induction false} ClearDropsOtherIff(w: World, tx: ChannelId, other: ChannelId, now: Instant)
    requires Inv(w) && Enabled(w, Clear(tx), now) && other in w.requests && other != tx
    ensures SenderAlive(w, other) && !SenderAlive(Apply(w, Clear(tx), now), other)
       <==> PendingAt(w.table, w.requests[tx].session, other)
  {
    var v := Apply(w, Clear(tx), now);
    var session := w.requests[tx].session;
    PendingUnderOwnSession(w, other);
    assert forall k :: PendingAt(v.table, k, other) <==> k != session && PendingAt(w.table, k, other);
    if PendingAt(w.table, session, other) {
      assert PendingOk(w, session);
    }
  }

  /** This does happen. Any run can go on like this: a service announces itself, two requests are placed
      for its session, the second displacing the first; the first requester sees its channel dropped and
      clears the slot, and with it the second request. */
  lemma {:induction false} SecondRequestLost(ss: seq<Timed>, data: Announcement, service: Addr, a: Addr, b: Addr,
                                             x: ChannelId, y: ChannelId)
    returns (rs: seq<Timed>)
    requires Run(ss).Some? && x !in Run(ss).value.requests && y !in Run(ss).value.requests && x != y
    ensures var now := Run(ss).value.now;
            rs == ss + [Timed(Announce(data, service), now)] + [Timed(Place(data.session, a, x), now)]
                  + [Timed(Place(data.session, b, y), now)] + [Timed(NoticeDrop(x), now)]
    ensures Run(rs).Some? && Enabled(Run(rs).value, Clear(x), Run(rs).value.now) && SenderAlive(Run(rs).value, y)
    ensures var end := Run(rs + [Timed(Clear(x), Run(rs).value.now)]);
            end.Some? && y in end.value.requests && end.value.requests[y].taken == None && !SenderAlive(end.value, y)
  {
    RunKeeps(ss);
    var now := Run(ss).value.now;
    hide Run;
    rs := ss + [Timed(Announce(data, service), now)];
    Extend(ss, Timed(Announce(data, service), now));
    Extend(rs, Timed(Place(data.session, a, x), now));
    rs := rs + [Timed(Place(data.session, a, x), now)];
    Extend(rs, Timed(Place(data.session, b, y), now));
    rs := rs + [Timed(Place(data.session, b, y), now)];
    RunKeeps(rs);
    PendingUnderOwnSession(Run(rs).value, x);
    assert !PendingAt(Run(rs).value.table, data.session, x);
    Extend(rs, Timed(NoticeDrop(x), now));
    rs := rs + [Timed(NoticeDrop(x), now)];
    RunKeeps(rs);
    var w := Run(rs).value;
    assert PendingAt(w.table, data.session, y);
    ClearDropsOtherIff(w, x, y, now);
    Extend(rs, Timed(Clear(x), now));
  }
}
