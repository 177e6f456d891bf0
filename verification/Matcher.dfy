/** The rendezvous server's UDP matcher (src/server/udp.rs).

    A request either meets a waiting slot of one of the peers it lists, or is stored as a slot
    towards each of them. Time is one value per step, in milliseconds; it never goes back along a run.
 */
module Matcher {
  import opened Bytes
  import opened Messages

  const REQUEST_TIMEOUT_S := 10
  const SIGNED_MSG_VALID_S := 30

  /** Under ten seconds old, counted in whole seconds. */
  predicate Fresh(now: Instant, since: Instant): (young: bool)
    ensures young <==> now < since + 10_000
  {
    Elapsed(now, since) / 1000 < REQUEST_TIMEOUT_S
  }

  datatype Pending = Pending(requester: PublicKey, addr: Addr, session: u32, tm: Instant)
  datatype ActiveSession = ActiveSession(session: u32, addr: Addr, peer: PublicKey)

  type Slots = map<PublicKey, map<PublicKey, Pending>>

  datatype State = State(requests: Slots, lastSessions: map<PublicKey, ActiveSession>)

  const EMPTY := State(map[], map[])

  /** An accepted connection request, as the receive loop sees it. */
  datatype Event = Event(sender: PublicKey, addr: Addr, peers: seq<PublicKey>, session: u32, now: Instant)

  datatype Outcome =
    | Lost(active: ActiveSession)
    | Matched(pending: Pending)
    | Stored

  datatype Sent = Sent(dst: Addr, message: ServerMessage)

  /** The slot in which `a` waits for `b`. */
  function SlotAt(r: Slots, a: PublicKey, b: PublicKey): (p: Option<Pending>)
  {
    if a in r && b in r[a] then Some(r[a][b]) else None
  }

  function RetainFresh(slots: map<PublicKey, Pending>, now: Instant): (r: map<PublicKey, Pending>)
  {
    map b | b in slots && Fresh(now, slots[b].tm) :: slots[b]
  }

  function Cleaned(r: Slots, now: Instant): (c: Slots)
  {
    map a | a in r && RetainFresh(r[a], now) != map[] :: RetainFresh(r[a], now)
  }

  lemma {:induction false} CleanedSlot(r: Slots, now: Instant, a: PublicKey, b: PublicKey)
    ensures SlotAt(Cleaned(r, now), a, b)
         == var p := SlotAt(r, a, b); if p.Some? && now < p.value.tm + 10_000 then p else None
  {
    if a in r && b in r[a] && Fresh(now, r[a][b].tm) {
      assert b in RetainFresh(r[a], now);
    }
  }

  /** The first listed peer that waits for `sender`, as an index into `peers`; `|peers|` if none. */
  function FirstWaiting(r: Slots, sender: PublicKey, peers: seq<PublicKey>): (i: nat)
    ensures i <= |peers|
    ensures forall j :: 0 <= j < i ==> SlotAt(r, peers[j], sender).None?
    ensures i < |peers| ==> SlotAt(r, peers[i], sender).Some?
  {
    if peers == [] then 0
    else if SlotAt(r, peers[0], sender).Some? then 0
    else 1 + FirstWaiting(r, sender, peers[1..])
  }

  function RemoveSlot(r: Slots, a: PublicKey, b: PublicKey): (c: Slots)
    requires a in r
  {
    if r[a] - {b} == map[] then r - {a} else r[a := r[a] - {b}]
  }

  lemma {:induction false} RemovedSlot(r: Slots, a: PublicKey, b: PublicKey, x: PublicKey, y: PublicKey)
    requires a in r
    ensures SlotAt(RemoveSlot(r, a, b), x, y) == if (x, y) == (a, b) then None else SlotAt(r, x, y)
  {
    if x == a && y != b && y in r[a] {
      assert y in r[a] - {b};
    }
  }

  function NewSlots(e: Event): (slots: map<PublicKey, Pending>)
  {
    map b | b in e.peers :: Pending(e.sender, e.addr, e.session, e.now)
  }

  function OutcomeOf(s: State, e: Event): (o: Outcome)
  {
    if e.sender in s.lastSessions && s.lastSessions[e.sender].session == e.session then
      Lost(s.lastSessions[e.sender])
    else
      var r := Cleaned(s.requests, e.now);
      var i := FirstWaiting(r, e.sender, e.peers);
      if i < |e.peers| then Matched(r[e.peers[i]][e.sender]) else Stored
  }

  function Step(s: State, e: Event): (t: State)
  {
    var r := Cleaned(s.requests, e.now);
    match OutcomeOf(s, e)
    case Lost(_) => State(r, s.lastSessions)
    case Matched(p) =>
      var i := FirstWaiting(r, e.sender, e.peers);
      State(RemoveSlot(r, e.peers[i], e.sender) - {e.sender},
            s.lastSessions[e.sender := ActiveSession(p.session, p.addr, p.requester)])
    case Stored => State(r[e.sender := NewSlots(e)], s.lastSessions)
  }

  function Emitted(e: Event, o: Outcome): (out: seq<Sent>)
  {
    match o
    case Lost(a) => [Sent(e.addr, LostConnection(a.peer, a.addr))]
    case Matched(p) =>
      [Sent(p.addr, InitiateConnection(e.sender, e.addr, e.session, false)),
       Sent(e.addr, InitiateConnection(p.requester, p.addr, p.session, true))]
    case Stored => []
  }

  // ----- the imperative server

  function TruncSeconds(d: int): (s: int)
  {
    if d >= 0 then d / 1_000_000_000 else -(-d / 1_000_000_000)
  }

  /** Replay protection: whole seconds, truncated towards zero, at most 30 apart. */
  predicate TimestampOk(utcNow: DateTime, tm: DateTime)
  {
    -SIGNED_MSG_VALID_S <= TruncSeconds(utcNow - tm) <= SIGNED_MSG_VALID_S
  }

  /** In effect the two clocks may differ by just under 31 seconds either way; so a message signed half
      a minute ago is still accepted. */
  lemma {:induction false} TimestampWindow(utcNow: DateTime, tm: DateTime)
    ensures TimestampOk(utcNow, tm) <==> -31_000_000_000 < utcNow - tm < 31_000_000_000
    ensures TimestampOk(tm + 30_500_000_000, tm)
  {
  }

  class UdpState {
    var requests: Slots
    var lastSessions: map<PublicKey, ActiveSession>

    function Value(): (s: State) reads this { State(requests, lastSessions) }

    constructor ()
      ensures Value() == EMPTY
    {
      requests, lastSessions := map[], map[];
    }

    /** Visits every inner map, drops its outdated slots, and drops the map if that empties it. */
    method Cleanup(now: Instant)
      modifies this`requests
      ensures requests == Cleaned(old(requests), now)
    {
      var todo := requests.Keys;
      while todo != {}
        invariant todo <= old(requests).Keys
        invariant forall a :: a in todo ==> a in requests && requests[a] == old(requests)[a]
        invariant forall a :: a !in todo ==> (a in requests <==> a in Cleaned(old(requests), now))
        invariant forall a :: a !in todo && a in requests ==> requests[a] == RetainFresh(old(requests)[a], now)
        decreases todo
      {
        var a :| a in todo;
        var inner := DropOutdated(requests[a], now);
        requests := if inner == map[] then requests - {a} else requests[a := inner];
        todo := todo - {a};
      }
    }

    static method DropOutdated(slots: map<PublicKey, Pending>, now: Instant) returns (left: map<PublicKey, Pending>)
      ensures left == RetainFresh(slots, now)
    {
      left := slots;
      var todo := slots.Keys;
      while todo != {}
        invariant todo <= left.Keys <= slots.Keys
        invariant forall b :: b in left ==> left[b] == slots[b]
        invariant forall b :: b in slots && b !in todo ==> (b in left <==> Fresh(now, slots[b].tm))
        decreases todo
      {
        var b :| b in todo;
        if !Fresh(now, left[b].tm) {
          left := left - {b};
        }
        todo := todo - {b};
      }
    }

    /** Searches the listed peers in order and takes the first slot that waits for `sender`. */
    method TakeWaiting(sender: PublicKey, peers: seq<PublicKey>) returns (found: Option<Pending>)
      modifies this`requests
      ensures var i := FirstWaiting(old(requests), sender, peers);
              if i < |peers| then
                found == SlotAt(old(requests), peers[i], sender)
                && requests == RemoveSlot(old(requests), peers[i], sender)
              else found == None && requests == old(requests)
    {
      found := None;
      var i := 0;
      while i < |peers|
        invariant 0 <= i <= |peers|
        invariant found == None && requests == old(requests)
        invariant forall j :: 0 <= j < i ==> SlotAt(requests, peers[j], sender).None?
      {
        var peer := peers[i];
        if peer in requests && sender in requests[peer] {
          found := Some(requests[peer][sender]);
          requests := requests[peer := requests[peer] - {sender}];
          break;
        }
        i := i + 1;
      }
      if found.Some? && requests[peers[i]] == map[] {
        requests := requests - {peers[i]};
      }
    }

    /** Handles one accepted request and returns what the socket sends. */
    method HandleRequest(e: Event) returns (out: seq<Sent>)
      modifies this
      ensures Value() == Step(old(Value()), e)
      ensures out == Emitted(e, OutcomeOf(old(Value()), e))
    {
      Cleanup(e.now);
      if e.sender in lastSessions && lastSessions[e.sender].session == e.session {
        var active := lastSessions[e.sender];
        return [Sent(e.addr, LostConnection(active.peer, active.addr))];
      }
      var found := TakeWaiting(e.sender, e.peers);
      if found.Some? {
        var pending := found.value;
        out := [Sent(pending.addr, InitiateConnection(e.sender, e.addr, e.session, false)),
                Sent(e.addr, InitiateConnection(pending.requester, pending.addr, pending.session, true))];
        lastSessions := lastSessions[e.sender := ActiveSession(pending.session, pending.addr, pending.requester)];
        requests := requests - {e.sender};
      } else {
        requests := requests[e.sender := NewSlots(e)];
        out := [];
      }
    }

    /** One turn of the receive loop on a datagram from an IPv4 address. */
    method OnDatagram(env: Env, bytes: seq<byte>, from: Addr, utcNow: DateTime, now: Instant)
      returns (out: seq<Sent>)
      modifies this
      ensures match ParseRequest(env, bytes)
              case Ok(a) =>
                if TimestampOk(utcNow, a.timestamp) then
                  var e := Event(a.sender, from, a.request.peers, a.request.session, now);
                  Value() == Step(old(Value()), e) && out == Emitted(e, OutcomeOf(old(Value()), e))
                else Value() == old(Value()) && out == []
              case Err(_) => Value() == old(Value()) && out == []
    {
      out := [];
      var parsed := TryParse(env, bytes);
      if parsed.Ok? {
        var a := parsed.value;
        if TimestampOk(utcNow, a.timestamp) {
          out := HandleRequest(Event(a.sender, from, a.request.peers, a.request.session, now));
        }
      }
    }
  }
}
