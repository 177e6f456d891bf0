/** The hole punch handshake between two clients over a network that may lose, repeat and reorder
    datagrams, and whose address translation may show any source address.

    The two parties are `true` and `false`. A sent datagram stays in `net`: delivering it never is
    loss, delivering it again is duplication.
 */
module PunchDuo {
  import opened Bytes
  import opened Punch

  datatype Party = Party(side: Side, result: Option<Result>)

  datatype Flight = Flight(sender: bool, send: Send)

  datatype World = World(parties: map<bool, Party>, net: set<Flight>) {
    ghost predicate Valid() { forall who: bool :: who in parties }
  }

  datatype Step =
    | Timer(who: bool)
    | Deliver(flight: Flight, shownSrc: Addr)
    | Noise(who: bool, event: Event)
    | Stop(who: bool)

  function Init(reported: map<bool, Addr>): (w: World)
    requires true in reported && false in reported
  {
    World(map[true := Party(Start(reported[true]), None), false := Party(Start(reported[false]), None)], {})
  }

  /** Still in the exchange loop, which is left as soon as both flags are set. */
  ghost predicate Running(w: World, who: bool)
    requires w.Valid()
  {
    w.parties[who].result == None && !w.parties[who].side.Complete()
  }

  ghost predicate Enabled(w: World, s: Step)
    requires w.Valid()
  {
    match s
    case Timer(who) => Running(w, who)
    case Deliver(f, _) => f in w.net && Running(w, !f.sender)
    case Noise(who, e) => Running(w, who) && (e == RecvError || (e.Received? && e.body == Unexpected))
    case Stop(who) => w.parties[who].result == None
  }

  ghost function Handle(w: World, who: bool, e: Event): (t: World)
    requires w.Valid()
    ensures t.Valid()
  {
    var p := w.parties[who];
    World(w.parties[who := p.(side := p.side.On(e))], w.net + (set x | x in p.side.Sends(e) :: Flight(who, x)))
  }

  ghost function Apply(w: World, s: Step): (t: World)
    requires w.Valid()
    ensures t.Valid()
  {
    match s
    case Timer(who) => Handle(w, who, Tick)
    case Deliver(f, src) => Handle(w, !f.sender, Received(src, f.send.body))
    case Noise(who, e) => Handle(w, who, e)
    case Stop(who) =>
      var p := w.parties[who];
      w.(parties := w.parties[who := p.(result := Some(p.side.Verdict()))])
  }

  ghost predicate Steps(w: World, ss: seq<Step>, t: World)
    requires w.Valid()
    decreases |ss|
  {
    if ss == [] then t == w
    else Enabled(w, ss[0]) && Steps(Apply(w, ss[0]), ss[1..], t)
  }

  ghost predicate SentKind(w: World, who: bool, body: Body)
  {
    exists dst :: Flight(who, Send(dst, body)) in w.net
  }

  // ----- what every step keeps

  ghost predicate Consistent(w: World)
    requires w.Valid()
  {
    forall who: bool ::
      && (SentKind(w, who, PunchAck) ==> w.parties[who].side.gotPunch)
      && (w.parties[who].side.gotPunch ==> SentKind(w, !who, Punch))
      && (w.parties[who].side.gotAck ==> SentKind(w, !who, PunchAck))
      && (w.parties[who].result.Some? ==> w.parties[who].result.value == w.parties[who].side.Verdict())
  }

  lemma {:induction false} HandleKeeps(w: World, who: bool, e: Event)
    requires w.Valid() && Consistent(w)
    requires IsPunch(e) ==> SentKind(w, !who, Punch)
    requires IsAck(e) ==> SentKind(w, !who, PunchAck)
    requires w.parties[who].result == None
    ensures Consistent(Handle(w, who, e))
  {
    var t := Handle(w, who, e);
    assert forall x, body :: SentKind(w, x, body) ==> SentKind(t, x, body) by {
      assert w.net <= t.net;
    }
    assert SentKind(t, !who, PunchAck) ==> SentKind(w, !who, PunchAck);
    assert SentKind(t, who, PunchAck) ==> SentKind(w, who, PunchAck) || IsPunch(e);
  }

  lemma {:induction false} StepKeeps(w: World, s: Step)
    requires w.Valid() && Consistent(w) && Enabled(w, s)
    ensures Consistent(Apply(w, s))
  {
    match s
    case Timer(who) => HandleKeeps(w, who, Tick);
    case Deliver(f, src) =>
      assert f == Flight(f.sender, Send(f.send.dst, f.send.body));
      assert SentKind(w, f.sender, f.send.body);
      HandleKeeps(w, !f.sender, Received(src, f.send.body));
    case Noise(who, e) => HandleKeeps(w, who, e);
    case Stop(who) =>
      var t := Apply(w, s);
      assert forall x, body :: SentKind(w, x, body) <==> SentKind(t, x, body) by {
        assert w.net == t.net;
      }
  }

  lemma {:induction false} RunKeeps(w: World, ss: seq<Step>, t: World)
    requires w.Valid() && Consistent(w) && Steps(w, ss, t)
    ensures t.Valid() && Consistent(t)
    decreases |ss|
  {
    if ss == [] {
    } else {
      StepKeeps(w, ss[0]);
      RunKeeps(Apply(w, ss[0]), ss[1..], t);
    }
  }

  // ----- joint outcomes

  predicate Finished(w: World) requires true in w.parties && false in w.parties
  {
    w.parties[true].result.Some? && w.parties[false].result.Some?
  }

  function SawPunch(r: Result): (b: bool) { r.Punched? || r.gotPunch }
  function SawAck(r: Result): (b: bool) { r.Punched? || r.gotAck }

  /** An acknowledgement seen on one side means a punch seen on the other. */
  predicate Compatible(r: Result, q: Result)
  {
    (SawAck(r) ==> SawPunch(q)) && (SawAck(q) ==> SawPunch(r))
  }

  /** In every run, if one side succeeds the other has seen a punch, and if that other side fails its
      error is exactly "punch but no ack". */
  lemma {:induction false} OneSidedSuccess(reported: map<bool, Addr>, ss: seq<Step>, t: World, who: bool)
    requires true in reported && false in reported
    requires Steps(Init(reported), ss, t)
    ensures t.Valid()
    ensures t.parties[who].result.Some? && t.parties[who].result.value.Punched? ==>
              t.parties[!who].side.gotPunch
              && (t.parties[!who].result.Some? && t.parties[!who].result.value.Failed? ==>
                    t.parties[!who].result == Some(Failed(true, false)))
    ensures Finished(t) ==> Compatible(t.parties[who].result.value, t.parties[!who].result.value)
  {
    RunKeeps(Init(reported), ss, t);
    assert forall x: bool :: SentKind(t, x, PunchAck) ==> t.parties[x].side.gotPunch;
  }

  // ----- and all compatible outcomes do occur

  /** A way through an open network: every datagram goes to the other party's own address and shows
      its sender's own address. */
  ghost predicate Open(addr: map<bool, Addr>, s: Step)
    requires true in addr && false in addr
  {
    s.Deliver? ==> s.flight.send.dst == addr[!s.flight.sender] && s.shownSrc == addr[s.flight.sender]
  }

  lemma {:induction false} Append(w: World, ss: seq<Step>, t: World, s: Step)
    requires w.Valid() && Steps(w, ss, t) && t.Valid() && Enabled(t, s)
    ensures Steps(w, ss + [s], Apply(t, s))
    decreases |ss|
  {
    if ss == [] {
      assert Steps(Apply(t, s), [], Apply(t, s));
      assert ([s])[1..] == [];
    } else {
      Append(Apply(w, ss[0]), ss[1..], t, s);
      assert (ss + [s])[1..] == ss[1..] + [s];
    }
  }

  ghost function Reported(addr: map<bool, Addr>): (r: map<bool, Addr>)
    requires true in addr && false in addr
  {
    map[true := addr[false], false := addr[true]]
  }

  /** The step if it is wanted, else nothing. */
  lemma {:induction false} Maybe(addr: map<bool, Addr>, ss: seq<Step>, t: World, wanted: bool, s: Step)
    returns (ss': seq<Step>, t': World)
    requires true in addr && false in addr
    requires Steps(Init(Reported(addr)), ss, t) && t.Valid() && (forall x :: x in ss ==> Open(addr, x))
    requires wanted ==> Enabled(t, s) && Open(addr, s)
    ensures Steps(Init(Reported(addr)), ss', t') && t'.Valid() && (forall x :: x in ss' ==> Open(addr, x))
    ensures t' == if wanted then Apply(t, s) else t
  {
    ss', t' := ss, t;
    if wanted {
      Append(Init(Reported(addr)), ss, t, s);
      ss', t' := ss + [s], Apply(t, s);
    }
  }

  /** Both sides have punched; each has then received what the flags say. */
  lemma {:induction false} Exchanged(addr: map<bool, Addr>, pa: bool, pb: bool, ka: bool, kb: bool)
    returns (ss: seq<Step>, t: World)
    requires true in addr && false in addr
    requires (ka ==> pb) && (kb ==> pa)
    ensures Steps(Init(Reported(addr)), ss, t) && t.Valid() && (forall x :: x in ss ==> Open(addr, x))
    ensures t.parties[true] == Party(Side(addr[false], pa, ka), None)
    ensures t.parties[false] == Party(Side(addr[true], pb, kb), None)
  {
    var a, b := addr[true], addr[false];
    ss, t := PunchesDelivered(addr, pa, pb);
    ss, t := Maybe(addr, ss, t, ka, Deliver(Flight(false, Send(a, PunchAck)), b));
    ss, t := Maybe(addr, ss, t, kb, Deliver(Flight(true, Send(b, PunchAck)), a));
  }

  lemma {:induction false} PunchesDelivered(addr: map<bool, Addr>, pa: bool, pb: bool)
    returns (ss: seq<Step>, t: World)
    requires true in addr && false in addr
    ensures Steps(Init(Reported(addr)), ss, t) && t.Valid() && (forall x :: x in ss ==> Open(addr, x))
    ensures t.parties[true] == Party(Side(addr[false], pa, false), None)
    ensures t.parties[false] == Party(Side(addr[true], pb, false), None)
    ensures pa ==> Flight(true, Send(addr[false], PunchAck)) in t.net
    ensures pb ==> Flight(false, Send(addr[true], PunchAck)) in t.net
  {
    var a, b := addr[true], addr[false];
    ss, t := BothPunch(addr);
    ss, t := Maybe(addr, ss, t, pa, Deliver(Flight(false, Send(a, Punch)), b));
    ss, t := Maybe(addr, ss, t, pb, Deliver(Flight(true, Send(b, Punch)), a));
  }

  lemma {:induction false} BothPunch(addr: map<bool, Addr>) returns (ss: seq<Step>, t: World)
    requires true in addr && false in addr
    ensures Steps(Init(Reported(addr)), ss, t) && t.Valid() && (forall x :: x in ss ==> Open(addr, x))
    ensures t.parties[true] == Party(Side(addr[false], false, false), None)
    ensures t.parties[false] == Party(Side(addr[true], false, false), None)
    ensures Flight(true, Send(addr[false], Punch)) in t.net && Flight(false, Send(addr[true], Punch)) in t.net
  {
    ss, t := [], Init(Reported(addr));
    ss, t := Maybe(addr, ss, t, true, Timer(true));
    ss, t := Maybe(addr, ss, t, true, Timer(false));
  }

  /** Every compatible pair of results is the outcome of some run, even over an open network. */
  lemma {:induction false} CompatibleOccurs(addr: map<bool, Addr>, r: Result, q: Result)
    returns (ss: seq<Step>, t: World)
    requires true in addr && false in addr
    requires Compatible(r, q)
    requires if r.Punched? then r.addr == addr[false] else !(r.gotPunch && r.gotAck)
    requires if q.Punched? then q.addr == addr[true] else !(q.gotPunch && q.gotAck)
    ensures Steps(Init(Reported(addr)), ss, t) && (forall x :: x in ss ==> Open(addr, x))
    ensures t.Valid() && t.parties[true].result == Some(r) && t.parties[false].result == Some(q)
  {
    ss, t := Exchanged(addr, SawPunch(r), SawPunch(q), SawAck(r), SawAck(q));
    ss, t := Maybe(addr, ss, t, true, Stop(true));
    ss, t := Maybe(addr, ss, t, true, Stop(false));
  }
}
