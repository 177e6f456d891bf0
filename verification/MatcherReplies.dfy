/** What the matcher's clients see over whole runs: what each request is answered with, how long a stored
    request can be met, and that no empty inner map is left behind. */
module MatcherReplies {
  import opened Bytes
  import opened Messages
  import opened Matcher
  import opened MatcherHistory

  // ----- what is sent

  /** The request whose sender is remembered for `a`: the one that `a`'s latest own match was with. */
  ghost function RememberedFor(h: seq<Entry>, a: PublicKey): (e: Event)
    requires Sane(h) && LatestMatch(h, a) >= 0
  {
    h[h[LatestMatch(h, a)].verdict.with].event
  }

  /** Along every run, what is sent on a request, field by field, in terms of the requests themselves: to
      nobody if it is stored; if it is lost, to its own address, naming the other side of its sender's latest
      own match; if it is matched, to the earlier request's address about the later one, and to the later
      request's address about the earlier one. */
  lemma {:induction false} RepliesByHistory(ss: seq<State>, es: seq<Event>, h: seq<Entry>, j: nat)
    requires IsRun(ss, es) && Ordered(es) && Judged(h) && Describes(h, es) && j < |es|
    ensures var out, e := Emitted(es[j], OutcomeOf(ss[j], es[j])), es[j];
            match h[j].verdict
            case WasStored => out == []
            case WasLost =>
              && LatestMatch(h[..j], e.sender) >= 0
              && var other := RememberedFor(h[..j], e.sender);
                 out == [Sent(e.addr, LostConnection(other.sender, other.addr))]
            case WasMatched(i) =>
              && i < j
              && out == [Sent(es[i].addr, InitiateConnection(e.sender, e.addr, e.session, false)),
                         Sent(e.addr, InitiateConnection(es[i].sender, es[i].addr, es[i].session, true))]
  {
    hide Step, OutcomeOf, Judge, LatestMatch;
    ServerJudgesByHistory(ss, es, h, j);
    assert JudgedAt(h, j);
    if h[j].verdict.WasMatched? {
      assert h[..j][h[j].verdict.with] == h[h[j].verdict.with];
    }
  }

  // ----- how long a stored request can be met

  /** The request is not of `a`, and if it is of `b` it does not list `a`. */
  ghost predicate LeavesAlone(e: Event, a: PublicKey, b: PublicKey)
  {
    e.sender != a && (e.sender == b ==> a !in e.peers)
  }

  lemma {:induction false} SlotStays(ss: seq<State>, es: seq<Event>, i: nat, k: nat, now: Instant, b: PublicKey)
    requires IsRun(ss, es) && Ordered(es) && i < k <= |es|
    requires OutcomeOf(ss[i], es[i]) == Stored && b in es[i].peers
    requires forall m :: i < m < k ==> LeavesAlone(es[m], es[i].sender, b)
    requires es[k - 1].now <= now < es[i].now + 10_000
    ensures SlotAt(ss[k].requests, es[i].sender, b) == Some(PendingOf(es[i]))
  {
    hide Step, OutcomeOf;
    var s, e, a := ss[k - 1], es[k - 1], es[i].sender;
    RunOwned(ss, es, k - 1);
    assert StepAt(ss, es, k - 1);
    StepSlot(s, e, a, b);
    if i == k - 1 {
    } else {
      SlotStays(ss, es, i, k - 1, now, b);
      CleanedSlot(s.requests, e.now, a, b);
      assert LeavesAlone(e, a, b);
      if OutcomeOf(s, e).Matched? { MatchedSlot(s, e); }
    }
  }

  /** One of the first `n` peers listed waits for the sender. */
  ghost predicate FoundBefore(s: State, e: Event, n: nat)
    requires n <= |e.peers|
  {
    exists m :: 0 <= m < n && SlotAt(s.requests, e.peers[m], e.sender).Some?
                && e.now < SlotAt(s.requests, e.peers[m], e.sender).value.tm + 10_000
  }

  /** Along every run: request `i` was stored for the sender of request `j`, nothing else was heard of its
      sender since, nor any request of the other that lists it; request `j` is not lost, lists the sender of
      request `i`, and no peer listed earlier waits for it. Then the two are matched exactly when less than
      10000 ms lie between them. */
  lemma {:induction false} MetWithinTenSeconds(ss: seq<State>, es: seq<Event>, i: nat, j: nat, n: nat)
    requires IsRun(ss, es) && Ordered(es) && i < j < |es|
    requires OutcomeOf(ss[i], es[i]) == Stored && es[j].sender in es[i].peers
    requires n < |es[j].peers| && es[j].peers[n] == es[i].sender
    requires forall m :: i < m < j ==> LeavesAlone(es[m], es[i].sender, es[j].sender)
    requires !RepeatsSession(ss[j], es[j]) && !FoundBefore(ss[j], es[j], n)
    ensures OutcomeOf(ss[j], es[j]) == Matched(PendingOf(es[i])) <==> es[j].now < es[i].now + 10_000
    ensures es[j].now < es[i].now + 10_000 ==>
              Emitted(es[j], OutcomeOf(ss[j], es[j]))
              == [Sent(es[i].addr, InitiateConnection(es[j].sender, es[j].addr, es[j].session, false)),
                  Sent(es[j].addr, InitiateConnection(es[i].sender, es[i].addr, es[i].session, true))]
  {
    hide Step, OutcomeOf, RepeatsSession;
    RunOwned(ss, es, j);
    if es[j].now < es[i].now + 10_000 {
      SlotStays(ss, es, i, j, es[j].now, es[j].sender);
      OutcomeIff(ss[j], es[j]);
      assert Live(ss[j], es[j].peers[n], es[j].sender, es[j].now);
    } else if OutcomeOf(ss[j], es[j]).Matched? {
      MatchedSlot(ss[j], es[j]);
    }
  }

  // ----- no empty inner map

  ghost predicate NoneEmpty(r: Slots)
  {
    forall a :: a in r ==> r[a] != map[]
  }

  /** Requests list somebody, so in every reachable state each client the map knows holds some slot. */
  lemma {:induction false} InnerMapsNotEmpty(ss: seq<State>, es: seq<Event>, i: nat)
    requires IsRun(ss, es) && i <= |es| && forall k :: 0 <= k < |es| ==> es[k].peers != []
    ensures NoneEmpty(ss[i].requests)
  {
    hide OutcomeOf;
    if i == 0 {
    } else {
      InnerMapsNotEmpty(ss, es, i - 1);
      assert StepAt(ss, es, i - 1);
      var e := es[i - 1];
      assert e.peers[0] in NewSlots(e);
      NoneEmptyAfter(ss[i - 1], e);
    }
  }

  lemma {:induction false} NoneEmptyAfter(s: State, e: Event)
    requires NewSlots(e) != map[]
    ensures NoneEmpty(Step(s, e).requests)
  {
    var r := Cleaned(s.requests, e.now);
    assert NoneEmpty(r);
  }
}
