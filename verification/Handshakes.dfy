/** The handshakes of a run of the system: what starts them, what a client makes of their results, and how
    the results of two that face each other fit together. */
module Handshakes {
  import opened Bytes
  import opened Messages
  import opened Rendezvous
  import Client
  import ClientRuns
  import Punch
  import PunchDuo

  /** Receiving a datagram changes a client as the dispatch of one poll does, when the result is that of its
      handshake. */
  lemma {:induction false} ReceiveIsHandle(g: Setting, w: World, s: Step, now: Instant, i: Client.Input)
    requires g.Valid() && w.clients.Keys == g.secrets.Keys && s.Receive? && Enabled(g, w, s, now)
    requires i.arrival == Client.Datagram(s.p.src, s.p.bytes) && i.arrivalTime == now
    requires i.newSocket == s.newSocket && i.newSession == s.newSession && i.endTime == s.end
    requires NoticeIn(g, s.p).Some? ==> s.result == Client.PunchResult(NoticeIn(g, s.p).value, i)
    ensures Apply(g, w, s, now).clients[s.k] == Client.Handle(g.home, w.clients[s.k], i).0
  {
    hide Client.PunchResult, ParseServer, FreshAddr, Client.Settled;
  }

  // ----- what started a handshake

  /** Any handshake of a run was started on a notification that had been sent to the socket it uses. */
  lemma {:induction false} AttemptNoticed(g: Setting, ws: seq<World>, ss: seq<Timed>, i: nat, n: nat)
    returns (p: Packet)
    requires g.Valid() && IsRun(g, ws, ss) && i < |ws| && n < |ws[i].attempts|
    ensures p in ws[i].net && p.dst == ws[i].attempts[n].socket && NoticeIn(g, p) == Some(ws[i].attempts[n].notice)
  {
    hide NoticeIn, Enabled, Apply;
    assert i > 0;
    assert StepAt(g, ws, ss, i - 1);
    AttemptsGrow(g, ws[i - 1], ss[i - 1].step, ss[i - 1].now);
    NetGrows(g, ws[i - 1], ss[i - 1].step, ss[i - 1].now);
    if n < |ws[i - 1].attempts| {
      p := AttemptNoticed(g, ws, ss, i - 1, n);
    } else {
      p := ss[i - 1].step.p;
    }
  }

  lemma {:induction false} AttemptsGrow(g: Setting, w: World, s: Step, now: Instant)
    requires g.Valid() && w.clients.Keys == g.secrets.Keys && Enabled(g, w, s, now)
    ensures var v := Apply(g, w, s, now);
            || v.attempts == w.attempts
            || (s.Receive? && s.p in w.net && s.p.dst == w.clients[s.k].socket && NoticeIn(g, s.p).Some?
                && v.attempts == w.attempts + [Attempt(s.k, NoticeIn(g, s.p).value, s.p.dst, s.result)])
  {
    hide NoticeIn, ParseServer, EventOf, Unforged, FreshAddr, Client.Accepts;
  }

  // ----- two handshakes that face each other

  /** The handshake had this result after handling the events `es`. */
  ghost predicate Ran(t: Attempt, es: seq<Punch.Event>)
  {
    t.result == Punch.Exchange(t.notice.address, es).Verdict()
  }

  /** Each punch and each ack among `es` was sent by the other side, from whatever address it shows. */
  ghost predicate OnlyFrom(sent: seq<Punch.Send>, es: seq<Punch.Event>)
  {
    && (forall i :: 0 <= i < |es| && Punch.IsPunch(es[i]) ==> Sent(sent, Punch.Punch))
    && (forall i :: 0 <= i < |es| && Punch.IsAck(es[i]) ==> Sent(sent, Punch.PunchAck))
  }

  ghost predicate Sent(sent: seq<Punch.Send>, body: Punch.Body)
  {
    exists x :: x in sent && x.body == body
  }

  /** An ack received on one side means a punch handled on the other. */
  lemma {:induction false} AckMeansPunch(a: Addr, es: seq<Punch.Event>, b: Addr, fs: seq<Punch.Event>)
    requires OnlyFrom(Punch.SentBy(b, fs), es)
    ensures Punch.Exchange(a, es).gotAck ==> Punch.Exchange(b, fs).gotPunch
  {
    Punch.ExchangeMeaning(a, es);
    Punch.ExchangeMeaning(b, fs);
    Punch.SendsMeaning(b, fs);
    hide Punch.Exchange, Punch.SentBy;
  }

  /** In any run of the system, two handshakes over sockets that face each other, each of which hears punches
      and acks from the other alone, end compatibly: if one side has seen an ack, the other has seen a punch,
      so a failed side whose partner succeeded saw a punch and no ack. Both come from matches of the run,
      and the roles are opposite exactly when the same side waited in both matches. */
  lemma {:induction false} FacingHandshakes(g: Setting, ws: seq<World>, ss: seq<Timed>, i: nat, a: nat, b: nat,
                                            es: seq<Punch.Event>, fs: seq<Punch.Event>)
    returns (m: Match, r: Match)
    requires g.Valid() && IsRun(g, ws, ss) && i < |ws| && a < |ws[i].attempts| && b < |ws[i].attempts| && a != b
    requires ws[i].attempts[a].notice.address == ws[i].attempts[b].socket
    requires ws[i].attempts[b].notice.address == ws[i].attempts[a].socket
    requires Ran(ws[i].attempts[a], es) && Ran(ws[i].attempts[b], fs)
    requires OnlyFrom(Punch.SentBy(ws[i].attempts[b].notice.address, fs), es)
    requires OnlyFrom(Punch.SentBy(ws[i].attempts[a].notice.address, es), fs)
    ensures PunchDuo.Compatible(ws[i].attempts[a].result, ws[i].attempts[b].result)
    ensures IsMatch(g, ws, ss, m) && IsMatch(g, ws, ss, r)
    ensures {m.stored.addr, m.later.addr} == {r.stored.addr, r.later.addr}
         == {ws[i].attempts[a].socket, ws[i].attempts[b].socket}
    ensures ws[i].attempts[a].notice.isListener != ws[i].attempts[b].notice.isListener
       <==> m.stored.addr == r.stored.addr
  {
    hide StepAt, IsMatch, NoticeIn, Introduced, OnlyFrom, Punch.Exchange, Punch.SentBy, Init;
    var t, u := ws[i].attempts[a], ws[i].attempts[b];
    SocketsUsedOnce(g, ws, ss, i);
    assert t.socket != u.socket;
    var p := AttemptNoticed(g, ws, ss, i, a);
    var q := AttemptNoticed(g, ws, ss, i, b);
    m, r := RolesOppositeIff(g, ws, ss, i, p, i, q);
    AckMeansPunch(t.notice.address, es, u.notice.address, fs);
    AckMeansPunch(u.notice.address, fs, t.notice.address, es);
  }
}
