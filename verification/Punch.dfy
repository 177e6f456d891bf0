/** The hole punch handshake (src/udp/client.rs, hole_punch), for one side and for two. */
module Punch {
  import opened Bytes

  const PUNCH_TIMEOUT_MS := 500

  /** What a received datagram says; anything but the two known texts is `Unexpected`. */
  datatype Body = Punch | PunchAck | Unexpected

  datatype Send = Send(dst: Addr, body: Body)

  /** What wakes the exchange loop: its 20 ms timer, a datagram, or a receive error. */
  datatype Event = Tick | Received(src: Addr, body: Body) | RecvError

  /** One turn of the loop: `now` is the clock as read at the top of the turn, before the event is awaited,
      so an event that arrives after the deadline is still handled in the turn that began before it. */
  datatype Wake = Wake(now: Instant, event: Event)

  datatype Result = Punched(addr: Addr) | Failed(gotPunch: bool, gotAck: bool)

  datatype Side = Side(dst: Addr, gotPunch: bool, gotAck: bool) {
    predicate Complete() { gotPunch && gotAck }

    function Verdict(): (r: Result) { if Complete() then Punched(dst) else Failed(gotPunch, gotAck) }

    function On(e: Event): (s: Side)
    {
      match e
      case Received(src, Punch) => Side(src, true, gotAck)
      case Received(_, PunchAck) => this.(gotAck := true)
      case _ => this
    }

    function Sends(e: Event): (out: seq<Send>)
    {
      match e
      case Tick => [Send(dst, Punch)]
      case Received(src, Punch) => [Send(src, PunchAck)]
      case _ => []
    }
  }

  function Start(peer: Addr): (s: Side) { Side(peer, false, false) }

  // ----- one side: the state and the sends after a sequence of events

  ghost function Exchange(peer: Addr, es: seq<Event>): (s: Side)
  {
    if es == [] then Start(peer) else Exchange(peer, es[..|es| - 1]).On(es[|es| - 1])
  }

  ghost function SentBy(peer: Addr, es: seq<Event>): (out: seq<Send>)
  {
    if es == [] then []
    else SentBy(peer, es[..|es| - 1]) + Exchange(peer, es[..|es| - 1]).Sends(es[|es| - 1])
  }

  ghost function Events(wakes: seq<Wake>): (es: seq<Event>)
    ensures |es| == |wakes| && forall i :: 0 <= i < |es| ==> es[i] == wakes[i].event
  {
    seq(|wakes|, i requires 0 <= i < |wakes| => wakes[i].event)
  }

  predicate IsPunch(e: Event) { e.Received? && e.body.Punch? }
  predicate IsAck(e: Event) { e.Received? && e.body.PunchAck? }

  /** The source of the last punch received, if any. */
  ghost function LastPunch(es: seq<Event>): (src: Option<Addr>)
  {
    if es == [] then None
    else if IsPunch(es[|es| - 1]) then Some(es[|es| - 1].src)
    else LastPunch(es[..|es| - 1])
  }

  /** The loop has handled exactly the wakes `wakes[..n]`: it went on while the deadline was ahead and
      a flag missing, and stopped for one of these reasons or because nothing more came in time. */
  ghost predicate StopsAfter(peer: Addr, deadline: Instant, wakes: seq<Wake>, n: nat)
  {
    && n <= |wakes|
    && (forall i :: 0 <= i < n ==> wakes[i].now < deadline && !Exchange(peer, Events(wakes)[..i]).Complete())
    && (n < |wakes| ==> wakes[n].now >= deadline || Exchange(peer, Events(wakes)[..n]).Complete())
  }

  /** How many of the wakes the loop handles, counted from `i` on. */
  ghost function Handled(peer: Addr, deadline: Instant, wakes: seq<Wake>, i: nat): (n: nat)
    requires i <= |wakes|
    requires forall k :: 0 <= k < i ==> wakes[k].now < deadline && !Exchange(peer, Events(wakes)[..k]).Complete()
    ensures StopsAfter(peer, deadline, wakes, n)
    decreases |wakes| - i
  {
    if i == |wakes| || wakes[i].now >= deadline || Exchange(peer, Events(wakes)[..i]).Complete() then i
    else Handled(peer, deadline, wakes, i + 1)
  }

  /** The events the handshake acts on. */
  ghost function Seen(peer: Addr, start: Instant, wakes: seq<Wake>): (es: seq<Event>)
  {
    Events(wakes)[..Handled(peer, start + PUNCH_TIMEOUT_MS, wakes, 0)]
  }

  lemma {:induction false} StopUnique(peer: Addr, deadline: Instant, wakes: seq<Wake>, n: nat, m: nat)
    requires StopsAfter(peer, deadline, wakes, n) && StopsAfter(peer, deadline, wakes, m)
    ensures n == m
  {
  }

  /** How often draining warns: at receive errors and at datagrams that are neither punch nor ack. */
  ghost function Strays(es: seq<Event>): (n: nat)
  {
    if es == [] then 0
    else
      var e := es[|es| - 1];
      Strays(es[..|es| - 1]) + if e.RecvError? || (e.Received? && e.body == Unexpected) then 1 else 0
  }

  lemma {:induction false} StraysCount(es: seq<Event>)
    ensures Strays(es) == |set i | 0 <= i < |es| && (es[i].RecvError? || (es[i].Received? && es[i].body == Unexpected))|
  {
    var all := set i | 0 <= i < |es| && (es[i].RecvError? || (es[i].Received? && es[i].body == Unexpected));
    if es == [] {
      assert all == {};
    } else {
      var n, f := |es| - 1, es[..|es| - 1];
      StraysCount(f);
      var front := set i | 0 <= i < |f| && (f[i].RecvError? || (f[i].Received? && f[i].body == Unexpected));
      assert all == if n in all then front + {n} else front;
    }
  }

  method Drain(es: seq<Event>) returns (warnings: nat)
    ensures warnings == Strays(es)
  {
    warnings := 0;
    for i := 0 to |es|
      invariant warnings == Strays(es[..i])
    {
      assert es[..i + 1][..i] == es[..i];
      match es[i] {
        case Tick =>
        case Received(_, body) =>
          if body != Punch && body != PunchAck { warnings := warnings + 1; }
        case RecvError => warnings := warnings + 1;
      }
    }
    assert es[..|es|] == es;
  }

  /** The handshake, given what the socket will bring. `drain` is what arrives in the 200 ms after a
      completed exchange; it is only looked through for strays, which are warned about. */
  method HolePunch(peer: Addr, start: Instant, wakes: seq<Wake>, drain: seq<Event>)
    returns (r: Result, sent: seq<Send>, warnings: nat)
    ensures r == Exchange(peer, Seen(peer, start, wakes)).Verdict()
    ensures sent == SentBy(peer, Seen(peer, start, wakes))
    ensures warnings == if r.Punched? then Strays(drain) else 0
  {
    hide Events, Handled;
    var dst, gotPunch, gotAck := peer, false, false;
    var deadline := start + PUNCH_TIMEOUT_MS;
    sent := [];
    var i := 0;
    while i < |wakes|
      invariant 0 <= i <= |wakes|
      invariant Side(dst, gotPunch, gotAck) == Exchange(peer, Events(wakes)[..i])
      invariant sent == SentBy(peer, Events(wakes)[..i])
      invariant forall k :: 0 <= k < i ==> wakes[k].now < deadline && !Exchange(peer, Events(wakes)[..k]).Complete()
    {
      if wakes[i].now >= deadline { break; }
      if gotPunch && gotAck { break; }
      assert Events(wakes)[..i + 1][..i] == Events(wakes)[..i];
      match wakes[i].event {
        case Tick =>
          sent := sent + [Send(dst, Punch)];
        case Received(src, body) =>
          if body == Punch {
            if src != dst { dst := src; }
            sent := sent + [Send(src, PunchAck)];
            gotPunch := true;
          } else if body == PunchAck {
            gotAck := true;
          }
        case RecvError =>
      }
      i := i + 1;
    }
    StopUnique(peer, deadline, wakes, i, Handled(peer, deadline, wakes, 0));
    warnings := 0;
    if !gotPunch || !gotAck {
      return Failed(gotPunch, gotAck), sent, warnings;
    }
    warnings := Drain(drain);
    r := Punched(dst);
  }

  /** The flags say which datagrams came; the destination is the source of the last punch, and the
      server-reported address before the first one. */
  lemma {:induction false} ExchangeMeaning(peer: Addr, es: seq<Event>)
    ensures var s := Exchange(peer, es);
            && (s.gotPunch <==> exists i :: 0 <= i < |es| && IsPunch(es[i]))
            && (s.gotAck <==> exists i :: 0 <= i < |es| && IsAck(es[i]))
            && s.dst == (match LastPunch(es) case None => peer case Some(src) => src)
            && (LastPunch(es).Some? <==> s.gotPunch)
  {
    if es == [] {
    } else {
      var n := |es| - 1;
      ExchangeMeaning(peer, es[..n]);
      assert forall i :: 0 <= i < n ==> es[i] == es[..n][i];
      assert IsPunch(es[n]) ==> Exchange(peer, es).gotPunch;
    }
  }

  /** The handshake succeeds with an address exactly when a punch and an ack were handled and the
      last punch came from there; otherwise it fails and says which of the two it saw. */
  lemma {:induction false} ResultMeaning(peer: Addr, es: seq<Event>)
    ensures forall a :: Exchange(peer, es).Verdict() == Punched(a)
                   <==> LastPunch(es) == Some(a) && exists i :: 0 <= i < |es| && IsAck(es[i])
    ensures forall p, k :: Exchange(peer, es).Verdict() == Failed(p, k)
                      <==> && (p <==> LastPunch(es).Some?)
                           && (k <==> exists i :: 0 <= i < |es| && IsAck(es[i]))
                           && !(p && k)
  {
    ExchangeMeaning(peer, es);
  }

  /** Both a punch and an ack are among the events. */
  ghost predicate HasBoth(es: seq<Event>)
  {
    (exists i :: 0 <= i < |es| && IsPunch(es[i])) && exists i :: 0 <= i < |es| && IsAck(es[i])
  }

  /** The events acted on are a first part of those that come: each turn began less than 500 ms after the
      start and with a punch or an ack still missing, and the next one did not, or there is none. */
  lemma {:induction false} SeenMeaning(peer: Addr, start: Instant, wakes: seq<Wake>)
    ensures var n := |Seen(peer, start, wakes)|;
            && n <= |wakes|
            && Seen(peer, start, wakes) == Events(wakes)[..n]
            && (forall i :: 0 <= i < n ==> wakes[i].now < start + 500 && !HasBoth(Events(wakes)[..i]))
            && (n < |wakes| ==> wakes[n].now >= start + 500 || HasBoth(Events(wakes)[..n]))
  {
    forall i | 0 <= i <= |wakes|
      ensures HasBoth(Events(wakes)[..i]) <==> Exchange(peer, Events(wakes)[..i]).Complete()
    {
      ExchangeMeaning(peer, Events(wakes)[..i]);
    }
    hide HasBoth, Exchange, Handled;
  }

  /** What each event makes the handshake send: a tick, a punch to the source of the last punch or, before
      there is one, to the reported address; a punch, an ack to where it came from; anything else, nothing. */
  lemma {:induction false} SendsByEvent(peer: Addr, es: seq<Event>, i: nat)
    requires i < |es|
    ensures var before, after := SentBy(peer, es[..i]), SentBy(peer, es[..i + 1]);
            match es[i]
            case Tick =>
              after == before + [Send(if LastPunch(es[..i]).Some? then LastPunch(es[..i]).value else peer, Punch)]
            case Received(src, Punch) => after == before + [Send(src, PunchAck)]
            case _ => after == before
  {
    ExchangeMeaning(peer, es[..i]);
    hide LastPunch, Exchange;
    assert es[..i + 1][..i] == es[..i];
  }

  ghost function Punches(es: seq<Event>): (n: nat)
  {
    if es == [] then 0 else Punches(es[..|es| - 1]) + if IsPunch(es[|es| - 1]) then 1 else 0
  }

  ghost function Acks(out: seq<Send>): (n: nat)
  {
    if out == [] then 0 else Acks(out[..|out| - 1]) + if out[|out| - 1].body.PunchAck? then 1 else 0
  }

  ghost predicate CameFrom(es: seq<Event>, src: Addr)
  {
    exists i :: 0 <= i < |es| && IsPunch(es[i]) && es[i].src == src
  }

  lemma {:induction false} LastPunchCame(es: seq<Event>)
    ensures LastPunch(es).Some? ==> CameFrom(es, LastPunch(es).value)
  {
    if es == [] || IsPunch(es[|es| - 1]) {
    } else {
      var n := |es| - 1;
      LastPunchCame(es[..n]);
      assert forall i :: 0 <= i < n ==> es[i] == es[..n][i];
    }
  }

  lemma {:induction false} CameFromGrows(es: seq<Event>)
    requires es != []
    ensures forall a :: CameFrom(es[..|es| - 1], a) ==> CameFrom(es, a)
    ensures IsPunch(es[|es| - 1]) ==> CameFrom(es, es[|es| - 1].src)
  {
    var front := es[..|es| - 1];
    forall a | CameFrom(front, a) ensures CameFrom(es, a) {
      var i :| 0 <= i < |front| && IsPunch(front[i]) && front[i].src == a;
      assert es[i] == front[i];
    }
  }

  lemma {:induction false} AckPerPunch(peer: Addr, es: seq<Event>)
    ensures Acks(SentBy(peer, es)) == Punches(es)
  {
    hide Exchange, Acks;
    if es == [] {
      AcksJoin([], []);
    } else {
      var n := |es| - 1;
      AckPerPunch(peer, es[..n]);
      AcksJoin(SentBy(peer, es[..n]), Exchange(peer, es[..n]).Sends(es[n]));
    }
  }

  lemma {:induction false} AcksJoin(out: seq<Send>, more: seq<Send>)
    requires |more| <= 1
    ensures Acks(out + more) == Acks(out) + if more != [] && more[0].body.PunchAck? then 1 else 0
    ensures Acks([]) == 0
  {
    if more == [] {
      assert out + more == out;
    } else {
      assert (out + more)[..|out|] == out;
    }
  }

  /** Nothing is sent anywhere but to the server-reported address and to sources of punches; before
      the first punch only punches to the reported address; and every punch is acknowledged once. */
  lemma {:induction false} SendsMeaning(peer: Addr, es: seq<Event>)
    ensures forall x :: x in SentBy(peer, es) ==>
              && !x.body.Unexpected?
              && (x.dst == peer || CameFrom(es, x.dst))
              && (x.body.PunchAck? ==> CameFrom(es, x.dst))
    ensures LastPunch(es).None? ==> forall x :: x in SentBy(peer, es) ==> x == Send(peer, Punch)
    ensures Acks(SentBy(peer, es)) == Punches(es)
  {
    hide CameFrom, Acks, Punches;
    AckPerPunch(peer, es);
    if es == [] {
    } else {
      var front := es[..|es| - 1];
      SendsMeaning(peer, front);
      ExchangeMeaning(peer, front);
      LastPunchCame(front);
      CameFromGrows(es);
    }
  }
}
