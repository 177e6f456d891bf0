/** Slots are conserved: what becomes of every slot the matcher ever places. */
module MatcherLedger {
  import opened Bytes
  import opened Messages
  import opened Matcher
  import opened MatcherHistory

  type Pair = (PublicKey, PublicKey)

  // ----- conservation

  /** The pairs (requester, target) that hold a slot. */
  ghost function SlotSet(r: Slots): (pairs: set<Pair>)
  {
    set a, b | a in r && b in r[a] :: (a, b)
  }

  lemma {:induction false} InSlotSet(r: Slots, a: PublicKey, b: PublicKey)
    ensures (a, b) in SlotSet(r) <==> SlotAt(r, a, b).Some?
  {
  }

  /** Slots the cleanup at the start of the step drops. */
  ghost function ExpiredAt(s: State, e: Event): (pairs: set<Pair>)
  {
    set ab | ab in SlotSet(s.requests) && ab.0 in s.requests && ab.1 in s.requests[ab.0]
             && e.now >= s.requests[ab.0][ab.1].tm + 10_000
  }

  /** The slot whose requester is introduced to the sender. */
  ghost function MatchedAt(s: State, e: Event): (pairs: set<Pair>)
  {
    match OutcomeOf(s, e)
    case Matched(p) => {(p.requester, e.sender)}
    case _ => {}
  }

  /** The sender's own remaining slots, which any request of its own that is not lost replaces. */
  ghost function SupersededAt(s: State, e: Event): (pairs: set<Pair>)
  {
    if OutcomeOf(s, e).Lost? then {}
    else (set ab | ab in SlotSet(s.requests) && ab.0 == e.sender) - ExpiredAt(s, e) - MatchedAt(s, e)
  }

  ghost function PlacedAt(s: State, e: Event): (pairs: set<Pair>)
  {
    if OutcomeOf(s, e).Stored? then set b | b in e.peers :: (e.sender, b) else {}
  }

  lemma {:induction false} MatchedSlotExists(s: State, e: Event)
    requires Owned(s.requests)
    ensures MatchedAt(s, e) <= SlotSet(s.requests) - ExpiredAt(s, e)
  {
    if OutcomeOf(s, e).Matched? {
      var p := OutcomeOf(s, e).pending;
      var r := Cleaned(s.requests, e.now);
      var peer := e.peers[FirstWaiting(r, e.sender, e.peers)];
      CleanedSlot(s.requests, e.now, peer, e.sender);
      assert p.requester == peer;
      InSlotSet(s.requests, peer, e.sender);
    }
  }

  /** One step removes exactly the three kinds and then adds the placed slots. */
  lemma {:induction false} StepSlotSet(s: State, e: Event)
    requires Owned(s.requests)
    ensures SlotSet(Step(s, e).requests)
         == SlotSet(s.requests) - ExpiredAt(s, e) - MatchedAt(s, e) - SupersededAt(s, e) + PlacedAt(s, e)
    ensures PlacedAt(s, e) !! SlotSet(s.requests) - ExpiredAt(s, e) - MatchedAt(s, e) - SupersededAt(s, e)
  {
    var left := SlotSet(s.requests) - ExpiredAt(s, e) - MatchedAt(s, e) - SupersededAt(s, e);
    forall a, b
      ensures (a, b) in SlotSet(Step(s, e).requests) <==> (a, b) in left + PlacedAt(s, e)
    {
      StepSlot(s, e, a, b);
      CleanedSlot(s.requests, e.now, a, b);
      InSlotSet(s.requests, a, b);
      InSlotSet(Step(s, e).requests, a, b);
    }
    assert forall ab :: ab in SlotSet(Step(s, e).requests) <==> ab in left + PlacedAt(s, e) by {
      forall ab ensures ab in SlotSet(Step(s, e).requests) <==> ab in left + PlacedAt(s, e) {
        assert ab == (ab.0, ab.1);
      }
    }
  }

  lemma {:induction false} StepConserves(s: State, e: Event)
    requires Owned(s.requests)
    ensures |SlotSet(s.requests)| + |PlacedAt(s, e)|
         == |SlotSet(Step(s, e).requests)| + |ExpiredAt(s, e)| + |MatchedAt(s, e)| + |SupersededAt(s, e)|
  {
    var all, expired, matched, superseded := SlotSet(s.requests), ExpiredAt(s, e), MatchedAt(s, e), SupersededAt(s, e);
    StepSlotSet(s, e);
    MatchedSlotExists(s, e);
    Remove(all, expired);
    Remove(all - expired, matched);
    Remove(all - expired - matched, superseded);
  }

  lemma {:induction false} Remove<T>(s: set<T>, part: set<T>)
    requires part <= s
    ensures |s - part| == |s| - |part|
  {
    assert s == (s - part) + part;
  }

  datatype Ledger = Ledger(placed: nat, matched: nat, expired: nat, superseded: nat)

  /** What has become of slots before request `n`. */
  ghost function Tally(ss: seq<State>, es: seq<Event>, n: nat): (l: Ledger)
    requires n <= |es| <= |ss|
  {
    if n == 0 then Ledger(0, 0, 0, 0)
    else
      var l, s, e := Tally(ss, es, n - 1), ss[n - 1], es[n - 1];
      Ledger(l.placed + |PlacedAt(s, e)|, l.matched + |MatchedAt(s, e)|,
             l.expired + |ExpiredAt(s, e)|, l.superseded + |SupersededAt(s, e)|)
  }

  /** Along every run: slots placed = slots still held + matched + expired + superseded. */
  lemma {:induction false} SlotsConserved(ss: seq<State>, es: seq<Event>, n: nat)
    requires IsRun(ss, es) && n <= |es|
    ensures var l := Tally(ss, es, n);
            l.placed == |SlotSet(ss[n].requests)| + l.matched + l.expired + l.superseded
  {
    hide Step, PlacedAt, MatchedAt, ExpiredAt, SupersededAt;
    if n == 0 {
      assert SlotSet(EMPTY.requests) == {};
    } else {
      SlotsConserved(ss, es, n - 1);
      RunOwned(ss, es, n - 1);
      assert StepAt(ss, es, n - 1);
      StepConserves(ss[n - 1], es[n - 1]);
    }
  }

  // ----- how often one request can be matched

  /** Times do not go back. */
  ghost predicate Timely(h: seq<Entry>)
  {
    forall i, j :: 0 <= i < j < |h| ==> h[i].event.now <= h[j].event.now
  }

  ghost predicate MatchedTwice(h: seq<Entry>, i: nat)
  {
    exists j, k :: i < j < k < |h| && h[j].verdict == WasMatched(i) && h[k].verdict == WasMatched(i)
  }

  ghost predicate TwoPeers(peers: seq<PublicKey>)
  {
    exists i, j :: 0 <= i < j < |peers| && peers[i] != peers[j]
  }

  function OtherSession(session: u32): (r: u32)
    ensures r != session
  {
    if session == 0 then 1 else 0
  }

  /** While `a` waits for `b`, a request of `b` that names `a` alone is matched with `a`'s. */
  lemma {:induction false} NextMatch(h: seq<Entry>, a: PublicKey, b: PublicKey, now: Instant) returns (e: Event)
    requires Judged(h) && Waits(h, a, b, now)
    ensures e.sender == b && e.now == now
    ensures Judged(h + [Entry(e, WasMatched(LatestKept(h, a)))])
  {
    var m := LatestMatch(h, b);
    var session := if m >= 0 then OtherSession(h[h[m].verdict.with].event.session) else 0;
    e := Event(b, Addr((0, 0, 0, 0), 0), [a], session, now);
    assert Judge(h, e) == WasMatched(LatestKept(h, a));
    ExtendJudged(h, e);
  }

  /** A match by one target leaves `a` waiting for the others. */
  lemma {:induction false} StillWaits(h: seq<Entry>, x: Entry, a: PublicKey, c: PublicKey, now: Instant)
    requires Waits(h, a, c, now) && x.event.sender != a && x.event.sender != c
    ensures LatestKept(h + [x], a) == LatestKept(h, a) && Waits(h + [x], a, c, now)
  {
    ExtendLatest(h, x, a);
    ExtendConsumed(h, x, LatestKept(h, a), c);
  }

  /** So a request that lists two distinct peers can be matched with both. */
  lemma {:induction false} BothMatch(h: seq<Entry>, b: PublicKey, c: PublicKey) returns (more: seq<Entry>)
    requires Judged(h) && h != [] && h[|h| - 1].verdict.WasStored?
    requires var e := h[|h| - 1].event; b in e.peers && c in e.peers && b != c && b != e.sender
    ensures Judged(h + more) && MatchedTwice(h + more, |h| - 1)
    ensures forall x :: x in more ==> x.event.now == h[|h| - 1].event.now
  {
    var n := |h| - 1;
    var a, now := h[n].event.sender, h[n].event.now;
    var x := NextMatch(h, a, b, now);
    var g := h + [Entry(x, WasMatched(n))];
    StillWaits(h, Entry(x, WasMatched(n)), a, c, now);
    var y := NextMatch(g, a, c, now);
    more := [Entry(x, WasMatched(n)), Entry(y, WasMatched(n))];
    assert h + more == g + [Entry(y, WasMatched(n))];
    assert (h + more)[n + 1].verdict == (h + more)[n + 2].verdict == WasMatched(n);
  }

  /** Two matches with one request come from two distinct peers it listed. */
  lemma {:induction false} TwoMatchesTwoPeers(h: seq<Entry>, i: nat)
    requires Judged(h) && i < |h| && MatchedTwice(h, i)
    ensures TwoPeers(h[i].event.peers)
  {
    var j, k :| i < j < k < |h| && h[j].verdict == WasMatched(i) && h[k].verdict == WasMatched(i);
    MatchesAreMutualAndUnique(h, j);
    MatchesAreMutualAndUnique(h, k);
    var peers := h[i].event.peers;
    var x :| 0 <= x < |peers| && peers[x] == h[j].event.sender;
    var y :| 0 <= y < |peers| && peers[y] == h[k].event.sender;
    assert peers[if x < y then x else y] != peers[if x < y then y else x];
  }

  /** A just-stored request, and so its session id, can be matched twice in some continuation of the
      run exactly when it lists two distinct peers. */
  lemma {:induction false} MatchableTwiceIff(h: seq<Entry>)
    requires Judged(h) && Timely(h) && h != [] && h[|h| - 1].verdict.WasStored?
    ensures (exists more :: Judged(h + more) && Timely(h + more) && MatchedTwice(h + more, |h| - 1))
       <==> TwoPeers(h[|h| - 1].event.peers)
  {
    var n := |h| - 1;
    if more :| Judged(h + more) && Timely(h + more) && MatchedTwice(h + more, n) {
      assert (h + more)[n] == h[n];
      TwoMatchesTwoPeers(h + more, n);
    }
    var peers := h[n].event.peers;
    if i, j :| 0 <= i < j < |peers| && peers[i] != peers[j] {
      var b, c := peers[i], peers[j];
      var more;
      if b != h[n].event.sender { more := BothMatch(h, b, c); } else { more := BothMatch(h, c, b); }
      assert forall x :: 0 <= x < |more| ==> more[x] in more;
    }
  }
}
