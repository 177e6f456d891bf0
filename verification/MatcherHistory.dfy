/** What the matcher's nested slot map means over whole runs.

    A judged history gives every request a verdict from the requests before it alone, without any slot
    map; `RunRefinesHistory` shows that the server computes the same verdicts and the same slots.
 */
module MatcherHistory {
  import opened Bytes
  import opened Messages
  import opened Matcher

  // ----- runs

  ghost predicate Ordered(es: seq<Event>)
  {
    forall i, j :: 0 <= i < j < |es| ==> es[i].now <= es[j].now
  }

  ghost predicate StepAt(ss: seq<State>, es: seq<Event>, i: nat)
    requires i < |es| && |ss| == |es| + 1
  {
    ss[i + 1] == Step(ss[i], es[i])
  }

  /** The server goes through the states `ss` on the requests `es`. */
  ghost predicate IsRun(ss: seq<State>, es: seq<Event>)
  {
    && |ss| == |es| + 1
    && ss[0] == EMPTY
    && forall i :: 0 <= i < |es| ==> StepAt(ss, es, i)
  }

  /** The time of the latest cleanup before request `i`. */
  ghost function TimeBefore(es: seq<Event>, i: nat): (now: Instant)
    requires i <= |es|
  {
    if i == 0 then 0 else es[i - 1].now
  }

  function PendingOf(e: Event): (p: Pending) { Pending(e.sender, e.addr, e.session, e.now) }

  /** Every slot carries the key of the requester it is filed under. */
  ghost predicate Owned(r: Slots)
  {
    forall a, b :: SlotAt(r, a, b).Some? ==> SlotAt(r, a, b).value.requester == a
  }

  /** One step, slot by slot. */
  lemma {:induction false} StepSlot(s: State, e: Event, a: PublicKey, b: PublicKey)
    requires Owned(s.requests)
    ensures SlotAt(Step(s, e).requests, a, b) ==
            var kept := SlotAt(Cleaned(s.requests, e.now), a, b);
            match OutcomeOf(s, e)
            case Lost(_) => kept
            case Matched(p) => if a == e.sender || (a, b) == (p.requester, e.sender) then None else kept
            case Stored => if a != e.sender then kept else if b in e.peers then Some(PendingOf(e)) else None
  {
    var r := Cleaned(s.requests, e.now);
    if OutcomeOf(s, e).Matched? {
      var peer := e.peers[FirstWaiting(r, e.sender, e.peers)];
      CleanedSlot(s.requests, e.now, peer, e.sender);
      RemovedSlot(r, peer, e.sender, a, b);
    }
  }

  /** A match is with a slot of a listed peer that waits for the sender. */
  lemma {:induction false} MatchedSlot(s: State, e: Event)
    requires Owned(s.requests) && OutcomeOf(s, e).Matched?
    ensures var p := OutcomeOf(s, e).pending;
            p.requester in e.peers && SlotAt(s.requests, p.requester, e.sender) == Some(p) && e.now < p.tm + 10_000
  {
    var r := Cleaned(s.requests, e.now);
    var peer := e.peers[FirstWaiting(r, e.sender, e.peers)];
    CleanedSlot(s.requests, e.now, peer, e.sender);
  }

  lemma {:induction false} StepOwned(s: State, e: Event)
    requires Owned(s.requests)
    ensures Owned(Step(s, e).requests)
  {
    forall a, b | SlotAt(Step(s, e).requests, a, b).Some?
      ensures SlotAt(Step(s, e).requests, a, b).value.requester == a
    {
      StepSlot(s, e, a, b);
      CleanedSlot(s.requests, e.now, a, b);
    }
  }

  lemma {:induction false} RunOwned(ss: seq<State>, es: seq<Event>, i: nat)
    requires IsRun(ss, es) && i < |ss|
    ensures Owned(ss[i].requests)
  {
    if i == 0 {
    } else {
      RunOwned(ss, es, i - 1);
      assert StepAt(ss, es, i - 1);
      StepOwned(ss[i - 1], es[i - 1]);
    }
  }

  // ----- no two clients wait for each other

  ghost predicate NoMutualWaiting(r: Slots)
  {
    forall a, b :: a != b ==> SlotAt(r, a, b).None? || SlotAt(r, b, a).None?
  }

  lemma {:induction false} StepKeepsApart(s: State, e: Event)
    requires Owned(s.requests) && NoMutualWaiting(s.requests)
    ensures NoMutualWaiting(Step(s, e).requests)
  {
    forall a, b | a != b
      ensures SlotAt(Step(s, e).requests, a, b).None? || SlotAt(Step(s, e).requests, b, a).None?
    {
      StepSlot(s, e, a, b);
      StepSlot(s, e, b, a);
      CleanedSlot(s.requests, e.now, a, b);
      CleanedSlot(s.requests, e.now, b, a);
    }
  }

  /** In every reachable state, of two distinct clients that name each other at most one waits: the
      second request always finds the first. */
  lemma {:induction false} NeverMutualWaiting(ss: seq<State>, es: seq<Event>, i: nat)
    requires IsRun(ss, es) && i < |ss|
    ensures NoMutualWaiting(ss[i].requests)
  {
    hide Step, NoMutualWaiting;
    if i == 0 {
      EmptyApart();
    } else {
      NeverMutualWaiting(ss, es, i - 1);
      RunOwned(ss, es, i - 1);
      assert StepAt(ss, es, i - 1);
      StepKeepsApart(ss[i - 1], es[i - 1]);
    }
  }

  lemma {:induction false} EmptyApart()
    ensures NoMutualWaiting(EMPTY.requests)
  {
  }

  // ----- the history specification

  /** A verdict names the request it was matched with by its position in the history. */
  datatype Verdict = WasLost | WasMatched(with: nat) | WasStored

  datatype Entry = Entry(event: Event, verdict: Verdict)

  /** Matches point back. */
  ghost predicate Sane(h: seq<Entry>)
  {
    forall j :: 0 <= j < |h| && h[j].verdict.WasMatched? ==> h[j].verdict.with < j
  }

  /** The position of `a`'s latest request that was not lost, or -1. */
  ghost function LatestKept(h: seq<Entry>, a: PublicKey): (i: int)
    ensures -1 <= i < |h|
    ensures i >= 0 ==> h[i].event.sender == a && !h[i].verdict.WasLost?
    ensures forall j :: i < j < |h| && h[j].event.sender == a ==> h[j].verdict.WasLost?
  {
    if h == [] then -1
    else
      var n := |h| - 1;
      if h[n].event.sender == a && !h[n].verdict.WasLost? then n else LatestKept(h[..n], a)
  }

  /** The position of the latest request with which `a` itself completed a match, or -1. */
  ghost function LatestMatch(h: seq<Entry>, a: PublicKey): (i: int)
    ensures -1 <= i < |h|
    ensures i >= 0 ==> h[i].event.sender == a && h[i].verdict.WasMatched?
    ensures forall j :: i < j < |h| && h[j].event.sender == a ==> !h[j].verdict.WasMatched?
  {
    if h == [] then -1
    else
      var n := |h| - 1;
      if h[n].event.sender == a && h[n].verdict.WasMatched? then n else LatestMatch(h[..n], a)
  }

  ghost predicate ConsumedBy(h: seq<Entry>, i: nat, b: PublicKey)
  {
    exists j :: i < j < |h| && h[j].event.sender == b && h[j].verdict == WasMatched(i)
  }

  /** At time `now`, `a` waits for `b`: `a`'s latest request that was not lost was stored, listed
      `b`, is under ten seconds old, and no later request of `b` was matched with it. */
  ghost predicate Waits(h: seq<Entry>, a: PublicKey, b: PublicKey, now: Instant)
  {
    var i := LatestKept(h, a);
    && i >= 0
    && h[i].verdict.WasStored?
    && b in h[i].event.peers
    && now < h[i].event.now + 10_000
    && !ConsumedBy(h, i, b)
  }

  /** The stored request of the first listed peer that waits for `sender`, or -1. */
  ghost function FirstMatch(h: seq<Entry>, sender: PublicKey, peers: seq<PublicKey>, now: Instant): (i: int)
    ensures -1 <= i < |h|
  {
    if peers == [] then -1
    else if Waits(h, peers[0], sender, now) then LatestKept(h, peers[0])
    else FirstMatch(h, sender, peers[1..], now)
  }

  ghost function Judge(h: seq<Entry>, e: Event): (v: Verdict)
    requires Sane(h)
    ensures v.WasMatched? ==> v.with < |h|
  {
    var m := LatestMatch(h, e.sender);
    if m >= 0 && h[h[m].verdict.with].event.session == e.session then WasLost
    else
      var i := FirstMatch(h, e.sender, e.peers, e.now);
      if i >= 0 then WasMatched(i) else WasStored
  }

  ghost predicate JudgedAt(h: seq<Entry>, j: nat)
    requires Sane(h) && j < |h|
  {
    h[j].verdict == Judge(h[..j], h[j].event)
  }

  /** Every verdict is the one the entries before it call for. */
  ghost predicate Judged(h: seq<Entry>)
  {
    Sane(h) && forall j :: 0 <= j < |h| ==> JudgedAt(h, j)
  }

  ghost predicate Describes(h: seq<Entry>, es: seq<Event>)
  {
    |h| == |es| && forall i :: 0 <= i < |h| ==> h[i].event == es[i]
  }

  lemma {:induction false} ExtendJudged(h: seq<Entry>, e: Event)
    requires Judged(h)
    ensures Judged(h + [Entry(e, Judge(h, e))])
  {
    var g := h + [Entry(e, Judge(h, e))];
    forall j | 0 <= j < |g| ensures JudgedAt(g, j) {
      if j < |h| {
        assert JudgedAt(h, j);
        assert g[..j] == h[..j];
      } else {
        assert g[..j] == h;
      }
    }
  }

  /** Every sequence of requests has a history. */
  lemma {:induction false} HistoryExists(es: seq<Event>) returns (h: seq<Entry>)
    ensures Judged(h) && Describes(h, es)
  {
    hide Judge;
    h := [];
    if es == [] {
    } else {
      var n := |es| - 1;
      h := HistoryExists(es[..n]);
      ExtendJudged(h, es[n]);
      h := h + [Entry(es[n], Judge(h, es[n]))];
    }
  }

  /** And only one. */
  lemma {:induction false} HistoryUnique(h: seq<Entry>, g: seq<Entry>, es: seq<Event>, n: nat)
    requires Judged(h) && Judged(g) && Describes(h, es) && Describes(g, es) && n <= |es|
    ensures h[..n] == g[..n]
  {
    hide Judge;
    if n == 0 {
    } else {
      HistoryUnique(h, g, es, n - 1);
      assert JudgedAt(h, n - 1) && JudgedAt(g, n - 1);
      assert h[..n] == h[..n - 1] + [h[n - 1]] && g[..n] == g[..n - 1] + [g[n - 1]];
    }
  }

  // ----- refinement

  /** An outcome of the server and a verdict of the history say the same. */
  ghost predicate Agree(o: Outcome, v: Verdict, h: seq<Entry>, sender: PublicKey)
    requires Sane(h)
  {
    match o
    case Stored => v.WasStored?
    case Matched(p) => v.WasMatched? && v.with < |h| && p == PendingOf(h[v.with].event)
    case Lost(a) =>
      && v.WasLost?
      && LatestMatch(h, sender) >= 0
      && a == ActiveOf(h, LatestMatch(h, sender))
  }

  ghost function ActiveOf(h: seq<Entry>, m: nat): (a: ActiveSession)
    requires Sane(h) && m < |h| && h[m].verdict.WasMatched?
  {
    var e := h[h[m].verdict.with].event;
    ActiveSession(e.session, e.addr, e.sender)
  }

  ghost function WaitingSlot(h: seq<Entry>, now: Instant, a: PublicKey, b: PublicKey): (p: Option<Pending>)
  {
    if Waits(h, a, b, now) then Some(PendingOf(h[LatestKept(h, a)].event)) else None
  }

  ghost predicate SlotsRefine(r: Slots, h: seq<Entry>, now: Instant)
  {
    forall a, b :: SlotAt(r, a, b) == WaitingSlot(h, now, a, b)
  }

  ghost predicate SessionsRefine(s: State, h: seq<Entry>)
    requires Sane(h)
  {
    forall a ::
      && (a in s.lastSessions <==> LatestMatch(h, a) >= 0)
      && (a in s.lastSessions ==> s.lastSessions[a] == ActiveOf(h, LatestMatch(h, a)))
  }

  lemma {:induction false} CleanedRefines(r: Slots, h: seq<Entry>, before: Instant, now: Instant)
    requires SlotsRefine(r, h, before) && before <= now
    ensures SlotsRefine(Cleaned(r, now), h, now)
  {
    forall a, b ensures SlotAt(Cleaned(r, now), a, b) == WaitingSlot(h, now, a, b) {
      CleanedSlot(r, now, a, b);
      assert SlotAt(r, a, b) == WaitingSlot(h, before, a, b);
    }
  }

  lemma {:induction false} SearchRefines(r: Slots, h: seq<Entry>, sender: PublicKey, peers: seq<PublicKey>,
                                         now: Instant)
    requires SlotsRefine(r, h, now)
    ensures var i := FirstWaiting(r, sender, peers);
            if i < |peers| then
              var k := FirstMatch(h, sender, peers, now);
              && k >= 0
              && k == LatestKept(h, peers[i])
              && Waits(h, peers[i], sender, now)
              && SlotAt(r, peers[i], sender) == Some(PendingOf(h[k].event))
            else FirstMatch(h, sender, peers, now) == -1
  {
    if peers == [] {
    } else {
      assert SlotAt(r, peers[0], sender) == WaitingSlot(h, now, peers[0], sender);
      SearchRefines(r, h, sender, peers[1..], now);
    }
  }

  lemma {:induction false} OutcomeRefines(s: State, h: seq<Entry>, before: Instant, e: Event)
    requires Sane(h) && SlotsRefine(s.requests, h, before) && SessionsRefine(s, h) && before <= e.now
    ensures Agree(OutcomeOf(s, e), Judge(h, e), h, e.sender)
  {
    CleanedRefines(s.requests, h, before, e.now);
    SearchRefines(Cleaned(s.requests, e.now), h, e.sender, e.peers, e.now);
  }

  lemma {:induction false} ExtendLatest(h: seq<Entry>, x: Entry, a: PublicKey)
    ensures LatestKept(h + [x], a) == if x.event.sender == a && !x.verdict.WasLost? then |h| else LatestKept(h, a)
    ensures LatestMatch(h + [x], a) == if x.event.sender == a && x.verdict.WasMatched? then |h| else LatestMatch(h, a)
  {
    assert (h + [x])[..|h|] == h;
  }

  lemma {:induction false} ExtendConsumed(h: seq<Entry>, x: Entry, i: nat, b: PublicKey)
    requires i < |h|
    ensures ConsumedBy(h + [x], i, b) <==> ConsumedBy(h, i, b) || (x.event.sender == b && x.verdict == WasMatched(i))
  {
    var g := h + [x];
    if ConsumedBy(h, i, b) {
      var j :| i < j < |h| && h[j].event.sender == b && h[j].verdict == WasMatched(i);
      assert g[j] == h[j];
    }
    if x.event.sender == b && x.verdict == WasMatched(i) {
      assert g[|h|] == x;
    }
  }

  /** The slots after a step are those the extended history describes. */
  lemma {:induction false} SlotStepRefines(s: State, h: seq<Entry>, before: Instant, e: Event, a: PublicKey,
                                           b: PublicKey)
    requires Owned(s.requests) && Sane(h)
    requires SlotsRefine(s.requests, h, before) && SessionsRefine(s, h) && before <= e.now
    ensures SlotAt(Step(s, e).requests, a, b) == WaitingSlot(h + [Entry(e, Judge(h, e))], e.now, a, b)
  {
    var x := Entry(e, Judge(h, e));
    var g := h + [x];
    OutcomeRefines(s, h, before, e);
    StepSlot(s, e, a, b);
    CleanedRefines(s.requests, h, before, e.now);
    var kept := SlotAt(Cleaned(s.requests, e.now), a, b);
    assert kept == WaitingSlot(h, e.now, a, b);
    ExtendLatest(h, x, a);
    var i := LatestKept(h, a);
    if a == e.sender && !x.verdict.WasLost? {
      assert g[|h|] == x;
      assert !ConsumedBy(g, |h|, b);
    } else if i >= 0 {
      assert g[i] == h[i];
      ExtendConsumed(h, x, i, b);
      if x.verdict.WasMatched? && b == e.sender {
        assert h[x.verdict.with].event.sender == OutcomeOf(s, e).pending.requester;
        MatchIsLatest(h, e);
      }
    }
  }

  /** A request is matched with the latest kept request of its sender. */
  lemma {:induction false} FirstMatchIsLatest(h: seq<Entry>, sender: PublicKey, peers: seq<PublicKey>, now: Instant)
    requires FirstMatch(h, sender, peers, now) >= 0
    ensures var i := FirstMatch(h, sender, peers, now);
            i == LatestKept(h, h[i].event.sender) && Waits(h, h[i].event.sender, sender, now)
            && h[i].event.sender in peers
  {
    if Waits(h, peers[0], sender, now) {
    } else {
      FirstMatchIsLatest(h, sender, peers[1..], now);
    }
  }

  lemma {:induction false} MatchIsLatest(h: seq<Entry>, e: Event)
    requires Sane(h) && Judge(h, e).WasMatched?
    ensures var i := Judge(h, e).with;
            i == LatestKept(h, h[i].event.sender) && Waits(h, h[i].event.sender, e.sender, e.now)
            && h[i].event.sender in e.peers
  {
    FirstMatchIsLatest(h, e.sender, e.peers, e.now);
  }

  lemma {:induction false} StepSessions(s: State, e: Event)
    ensures Step(s, e).lastSessions
         == match OutcomeOf(s, e)
            case Matched(p) => s.lastSessions[e.sender := ActiveSession(p.session, p.addr, p.requester)]
            case _ => s.lastSessions
  {
  }

  lemma {:induction false} ExtendSane(h: seq<Entry>, x: Entry)
    requires Sane(h) && (x.verdict.WasMatched? ==> x.verdict.with < |h|)
    ensures Sane(h + [x])
    ensures forall m :: 0 <= m < |h| && h[m].verdict.WasMatched? ==> ActiveOf(h + [x], m) == ActiveOf(h, m)
  {
  }

  lemma {:induction false} SessionStepRefines(s: State, h: seq<Entry>, before: Instant, e: Event)
    requires Sane(h)
    requires SlotsRefine(s.requests, h, before) && SessionsRefine(s, h) && before <= e.now
    ensures Sane(h + [Entry(e, Judge(h, e))])
    ensures SessionsRefine(Step(s, e), h + [Entry(e, Judge(h, e))])
  {
    OutcomeRefines(s, h, before, e);
    StepSessions(s, e);
    ExtendSessions(s, h, Step(s, e), Entry(e, Judge(h, e)), OutcomeOf(s, e));
  }

  lemma {:induction false} ExtendSessions(s: State, h: seq<Entry>, t: State, x: Entry, o: Outcome)
    requires Sane(h) && SessionsRefine(s, h) && Agree(o, x.verdict, h, x.event.sender)
    requires t.lastSessions
         == match o
            case Matched(p) => s.lastSessions[x.event.sender := ActiveSession(p.session, p.addr, p.requester)]
            case _ => s.lastSessions
    ensures Sane(h + [x]) && SessionsRefine(t, h + [x])
  {
    ExtendSane(h, x);
    forall a
      ensures a in t.lastSessions <==> LatestMatch(h + [x], a) >= 0
      ensures a in t.lastSessions ==> t.lastSessions[a] == ActiveOf(h + [x], LatestMatch(h + [x], a))
    {
      ExtendLatest(h, x, a);
    }
  }

  /** Along every run with non-decreasing times, `a` holds a slot for `b` exactly when the history so
      far says that `a` waits for `b`, with the contents of `a`'s stored request; and the remembered
      session of a client is that of the request its own latest match was made with. */
  lemma {:induction false} RunRefinesHistory(ss: seq<State>, es: seq<Event>, h: seq<Entry>, i: nat)
    requires IsRun(ss, es) && Ordered(es) && Judged(h) && Describes(h, es) && i <= |es|
    ensures SlotsRefine(ss[i].requests, h[..i], TimeBefore(es, i))
    ensures SessionsRefine(ss[i], h[..i])
  {
    hide Step, Judge;
    if i == 0 {
    } else {
      var s, g, e := ss[i - 1], h[..i - 1], es[i - 1];
      RunRefinesHistory(ss, es, h, i - 1);
      RunOwned(ss, es, i - 1);
      assert StepAt(ss, es, i - 1) && JudgedAt(h, i - 1);
      assert h[..i] == g + [Entry(e, Judge(g, e))];
      SlotsStepRefine(s, g, TimeBefore(es, i - 1), e);
      SessionStepRefines(s, g, TimeBefore(es, i - 1), e);
    }
  }

  lemma {:induction false} SlotsStepRefine(s: State, h: seq<Entry>, before: Instant, e: Event)
    requires Owned(s.requests) && Sane(h)
    requires SlotsRefine(s.requests, h, before) && SessionsRefine(s, h) && before <= e.now
    ensures SlotsRefine(Step(s, e).requests, h + [Entry(e, Judge(h, e))], e.now)
  {
    hide Step, Judge;
    forall a, b
      ensures SlotAt(Step(s, e).requests, a, b) == WaitingSlot(h + [Entry(e, Judge(h, e))], e.now, a, b)
    {
      SlotStepRefines(s, h, before, e, a, b);
    }
  }

  /** At every point of a run the server's decision is the one the history judges, so whom it
      introduces to whom is decided by the earlier requests alone. */
  lemma {:induction false} ServerJudgesByHistory(ss: seq<State>, es: seq<Event>, h: seq<Entry>, j: nat)
    requires IsRun(ss, es) && Ordered(es) && Judged(h) && Describes(h, es) && j < |es|
    ensures Agree(OutcomeOf(ss[j], es[j]), h[j].verdict, h[..j], es[j].sender)
  {
    hide Step, Judge, OutcomeOf;
    RunRefinesHistory(ss, es, h, j);
    assert JudgedAt(h, j);
    OutcomeRefines(ss[j], h[..j], TimeBefore(es, j), es[j]);
  }

  // ----- matches

  lemma {:induction false} MatchAt(h: seq<Entry>, j: nat)
    requires Judged(h) && j < |h| && h[j].verdict.WasMatched?
    ensures var i := h[j].verdict.with;
            && i < j
            && h[i].verdict.WasStored?
            && h[j].event.sender in h[i].event.peers && h[i].event.sender in h[j].event.peers
            && h[j].event.now < h[i].event.now + 10_000
            && !ConsumedBy(h[..j], i, h[j].event.sender)
  {
    assert JudgedAt(h, j);
    MatchIsLatest(h[..j], h[j].event);
    assert h[..j][h[j].verdict.with] == h[h[j].verdict.with];
  }

  /** A match is always with a stored request, younger than ten seconds, of a client that listed the
      sender and that the sender lists; and no slot is consumed twice: an earlier match of the same
      sender was with another request. */
  lemma {:induction false} MatchesAreMutualAndUnique(h: seq<Entry>, j: nat)
    requires Judged(h) && j < |h| && h[j].verdict.WasMatched?
    ensures var i := h[j].verdict.with;
            && i < j
            && h[i].verdict.WasStored?
            && h[j].event.sender in h[i].event.peers && h[i].event.sender in h[j].event.peers
            && h[j].event.now < h[i].event.now + 10_000
    ensures forall k :: 0 <= k < j && h[k].event.sender == h[j].event.sender ==> h[k].verdict != h[j].verdict
  {
    MatchAt(h, j);
    forall k | 0 <= k < j && h[k].event.sender == h[j].event.sender ensures h[k].verdict != h[j].verdict {
      assert h[..j][k] == h[k];
      if h[k].verdict.WasMatched? { MatchAt(h, k); }
    }
  }

  // ----- what decides a request

  ghost predicate Live(s: State, a: PublicKey, b: PublicKey, now: Instant)
  {
    SlotAt(s.requests, a, b).Some? && now < SlotAt(s.requests, a, b).value.tm + 10_000
  }

  ghost predicate RepeatsSession(s: State, e: Event)
  {
    e.sender in s.lastSessions && s.lastSessions[e.sender].session == e.session
  }

  /** A request that is not answered as lost is matched with the first listed peer that has a live slot
      for its sender, and stored if there is none. */
  lemma {:induction false} OutcomeIff(s: State, e: Event)
    requires !RepeatsSession(s, e)
    ensures (forall b :: b in e.peers ==> !Live(s, b, e.sender, e.now)) <==> OutcomeOf(s, e) == Stored
    ensures forall i :: 0 <= i < |e.peers| && Live(s, e.peers[i], e.sender, e.now)
              && (forall j :: 0 <= j < i ==> !Live(s, e.peers[j], e.sender, e.now))
              ==> SlotAt(s.requests, e.peers[i], e.sender) == Some(OutcomeOf(s, e).pending) && OutcomeOf(s, e).Matched?
  {
    var r := Cleaned(s.requests, e.now);
    forall b ensures SlotAt(r, b, e.sender).Some? <==> Live(s, b, e.sender, e.now)
             ensures SlotAt(r, b, e.sender).Some? ==> SlotAt(r, b, e.sender) == SlotAt(s.requests, b, e.sender)
    {
      CleanedSlot(s.requests, e.now, b, e.sender);
    }
    hide Cleaned, Live;
    var k := FirstWaiting(r, e.sender, e.peers);
    assert k < |e.peers| ==> Live(s, e.peers[k], e.sender, e.now);
    assert forall j :: 0 <= j < k ==> !Live(s, e.peers[j], e.sender, e.now);
  }

  // ----- what the source's own session check does

  /** Along every run, a request is answered as lost exactly when its sender has completed a match
      before and the request of the other side in its latest such match carried the same session id. */
  lemma {:induction false} LostIff(ss: seq<State>, es: seq<Event>, h: seq<Entry>, j: nat)
    requires IsRun(ss, es) && Ordered(es) && Judged(h) && Describes(h, es) && j < |es|
    ensures var m := LatestMatch(h[..j], es[j].sender);
            && (m >= 0 ==> h[m].verdict.WasMatched? && h[m].verdict.with < m && es[m].sender == es[j].sender)
            && (OutcomeOf(ss[j], es[j]).Lost? <==> m >= 0 && es[h[m].verdict.with].session == es[j].session)
  {
    hide Step, OutcomeOf;
    ServerJudgesByHistory(ss, es, h, j);
    assert JudgedAt(h, j);
    var m := LatestMatch(h[..j], es[j].sender);
    if m >= 0 {
      assert h[..j][m] == h[m] && h[..j][h[m].verdict.with] == h[h[m].verdict.with];
    }
  }

  /** At any time after a client completed a match, and before it completes another, repeating the
      session id of that request is answered as lost exactly when the two sides of the match happened
      to use the same session id. */
  lemma {:induction false} RepeatedSessionLostIff(ss: seq<State>, es: seq<Event>, h: seq<Entry>, m: nat, j: nat)
    requires IsRun(ss, es) && Ordered(es) && Judged(h) && Describes(h, es) && m < j < |es|
    requires m == LatestMatch(h[..j], es[j].sender) && es[j].session == es[m].session
    ensures OutcomeOf(ss[j], es[j]).Lost? <==> es[h[m].verdict.with].session == es[m].session
  {
    hide Step, OutcomeOf, LatestMatch;
    LostIff(ss, es, h, j);
  }

  /** A client that has only ever been the stored side of matches is never answered as lost. */
  lemma {:induction false} StoredSideNeverLost(ss: seq<State>, es: seq<Event>, h: seq<Entry>, j: nat)
    requires IsRun(ss, es) && Ordered(es) && Judged(h) && Describes(h, es) && j < |es|
    requires forall i :: 0 <= i < j && es[i].sender == es[j].sender ==> !h[i].verdict.WasMatched?
    ensures !OutcomeOf(ss[j], es[j]).Lost?
  {
    hide Step, OutcomeOf;
    LostIff(ss, es, h, j);
  }

  // ----- waiting peers are found

  /** Along every run, if `a` waits for the sender of request `j`, request `j` lists `a` and is not
      lost, and nobody listed before `a` waits for its sender, then it is matched with `a`'s request,
      however long ago and through whatever other requests `a` has been waiting. */
  lemma {:induction false} WaitingIsFound(ss: seq<State>, es: seq<Event>, h: seq<Entry>, j: nat, i: nat)
    requires IsRun(ss, es) && Ordered(es) && Judged(h) && Describes(h, es) && j < |es|
    requires i < |es[j].peers| && Waits(h[..j], es[j].peers[i], es[j].sender, es[j].now)
    requires forall k :: 0 <= k < i ==> !Waits(h[..j], es[j].peers[k], es[j].sender, es[j].now)
    requires !OutcomeOf(ss[j], es[j]).Lost?
    ensures OutcomeOf(ss[j], es[j]) == Matched(PendingOf(es[LatestKept(h[..j], es[j].peers[i])]))
  {
    var g, a := h[..j], es[j].peers[i];
    hide Step, OutcomeOf, Waits, LatestKept;
    ServerJudgesByHistory(ss, es, h, j);
    assert JudgedAt(h, j);
    FirstMatchIs(g, es[j].sender, es[j].peers, es[j].now, i);
    assert g[LatestKept(g, a)] == h[LatestKept(g, a)];
  }

  lemma {:induction false} FirstMatchIs(h: seq<Entry>, sender: PublicKey, peers: seq<PublicKey>, now: Instant, i: nat)
    requires i < |peers| && Waits(h, peers[i], sender, now)
    requires forall k :: 0 <= k < i ==> !Waits(h, peers[k], sender, now)
    ensures FirstMatch(h, sender, peers, now) == LatestKept(h, peers[i]) >= 0
  {
    assert LatestKept(h, peers[i]) >= 0;
    hide Waits, LatestKept;
    if i == 0 {
    } else {
      assert !Waits(h, peers[0], sender, now);
      FirstMatchIs(h, sender, peers[1..], now, i - 1);
    }
  }
}
