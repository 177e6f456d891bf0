/** The server inside the whole system: what it hears along a run of the system is a run of the matcher,
    so everything proved about the matcher's runs holds of the server there. */
module ServerRuns {
  import opened Bytes
  import opened Rendezvous
  import Matcher
  import MatcherHistory
  import MatcherLedger

  /** The request that a step brings to the server, if the server accepts it. */
  ghost function Heard(g: Setting, t: Timed): (e: Option<Matcher.Event>)
  {
    if t.step.ServerReceive? then EventOf(g, t.step.p, t.step.utcNow, t.now) else None
  }

  ghost function HeardIn(g: Setting, ss: seq<Timed>): (es: seq<Matcher.Event>)
  {
    if ss == [] then []
    else
      HeardIn(g, ss[..|ss| - 1])
      + match Heard(g, ss[|ss| - 1])
        case Some(e) => [e]
        case None => []
  }

  /** What a server step makes of a world. */
  ghost function Served(g: Setting, w: World, e: Matcher.Event): (v: World)
  {
    w.(server := Matcher.Step(w.server, e),
       net := w.net + Posted(g.home, Matcher.Emitted(e, Matcher.OutcomeOf(w.server, e))), now := e.now)
  }

  lemma {:induction false} HeardTime(g: Setting, t: Timed)
    ensures Heard(g, t).Some? ==> Heard(g, t).value.now == t.now
  {
  }

  /** The server's state changes only by the requests it accepts. */
  lemma {:induction false} ServerMoves(g: Setting, w: World, t: Timed, v: World)
    requires g.Valid() && Next(g, w, t, v)
    ensures w.now <= v.now == t.now
    ensures match Heard(g, t)
            case Some(e) => v == Served(g, w, e) && e.now == t.now
            case None => v.server == w.server
  {
    HeardTime(g, t);
    hide EventOf, Matcher.Step, Matcher.OutcomeOf, Matcher.Emitted, Posted, Unforged, FreshAddr, StartsPunch;
  }

  lemma {:induction false} HeardNext(g: Setting, ss: seq<Timed>, i: nat)
    requires i < |ss|
    ensures HeardIn(g, ss[..i + 1])
         == HeardIn(g, ss[..i]) + match Heard(g, ss[i]) case Some(e) => [e] case None => []
  {
    assert ss[..i + 1][..i] == ss[..i];
  }

  lemma {:induction false} ExtendMatcherRun(ms: seq<Matcher.State>, es: seq<Matcher.Event>, e: Matcher.Event)
    requires MatcherHistory.IsRun(ms, es) && MatcherHistory.Ordered(es)
    requires forall k :: 0 <= k < |es| ==> es[k].now <= e.now
    ensures MatcherHistory.IsRun(ms + [Matcher.Step(ms[|es|], e)], es + [e]) && MatcherHistory.Ordered(es + [e])
  {
    hide Matcher.Step;
    var ns, fs := ms + [Matcher.Step(ms[|es|], e)], es + [e];
    forall i | 0 <= i < |fs| ensures MatcherHistory.StepAt(ns, fs, i) {
      if i < |es| { assert MatcherHistory.StepAt(ms, es, i); }
    }
  }

  /** At every point of every run of the system, the server is in the state that the matcher reaches on
      the requests heard so far, in this order and at non-decreasing times. */
  lemma {:induction false} ServerRunsMatcher(g: Setting, ws: seq<World>, ss: seq<Timed>, i: nat)
    returns (ms: seq<Matcher.State>)
    requires g.Valid() && Rendezvous.IsRun(g, ws, ss) && i < |ws|
    ensures var es := HeardIn(g, ss[..i]);
            && MatcherHistory.IsRun(ms, es) && MatcherHistory.Ordered(es)
            && ms[|es|] == ws[i].server
            && forall k :: 0 <= k < |es| ==> es[k].now <= ws[i].now
  {
    hide Heard, Next, Matcher.Step, Matcher.OutcomeOf, Posted, MatcherHistory.IsRun, MatcherHistory.Ordered;
    if i == 0 {
      ms := [Matcher.EMPTY];
      EmptyRun();
    } else {
      ms := ServerRunsMatcher(g, ws, ss, i - 1);
      assert Rendezvous.StepAt(g, ws, ss, i - 1);
      ServerMoves(g, ws[i - 1], ss[i - 1], ws[i]);
      HeardNext(g, ss, i - 1);
      var es := HeardIn(g, ss[..i - 1]);
      RunLength(ms, es);
      if Heard(g, ss[i - 1]).Some? {
        var e := Heard(g, ss[i - 1]).value;
        ExtendMatcherRun(ms, es, e);
        ms := ms + [Matcher.Step(ms[|es|], e)];
      } else {
        assert es + [] == es;
      }
    }
  }

  lemma {:induction false} EmptyRun()
    ensures MatcherHistory.IsRun([Matcher.EMPTY], []) && MatcherHistory.Ordered([])
  {
  }

  lemma {:induction false} RunLength(ms: seq<Matcher.State>, es: seq<Matcher.Event>)
    requires MatcherHistory.IsRun(ms, es)
    ensures |ms| == |es| + 1
  {
  }

  lemma {:induction false} ServerOwned(g: Setting, ws: seq<World>, ss: seq<Timed>, i: nat)
    requires g.Valid() && Rendezvous.IsRun(g, ws, ss) && i < |ws|
    ensures MatcherHistory.Owned(ws[i].server.requests)
  {
    hide MatcherHistory.Owned;
    var ms := ServerRunsMatcher(g, ws, ss, i);
    MatcherHistory.RunOwned(ms, HeardIn(g, ss[..i]), |HeardIn(g, ss[..i])|);
  }

  /** So in every run of the system the server's slots and remembered sessions are what the requests it has
      heard call for; no two distinct clients hold slots for each other; and every slot placed is held,
      matched, expired or superseded. */
  lemma {:induction false} ServerFollowsHistory(g: Setting, ws: seq<World>, ss: seq<Timed>, i: nat,
                                                h: seq<MatcherHistory.Entry>)
    returns (ms: seq<Matcher.State>)
    requires g.Valid() && Rendezvous.IsRun(g, ws, ss) && i < |ws|
    requires MatcherHistory.Judged(h) && MatcherHistory.Describes(h, HeardIn(g, ss[..i]))
    ensures var es, s := HeardIn(g, ss[..i]), ws[i].server;
            && MatcherHistory.SlotsRefine(s.requests, h, MatcherHistory.TimeBefore(es, |es|))
            && MatcherHistory.SessionsRefine(s, h)
            && MatcherHistory.NoMutualWaiting(s.requests)
            && MatcherHistory.IsRun(ms, es)
            && var l := MatcherLedger.Tally(ms, es, |es|);
               l.placed == |MatcherLedger.SlotSet(s.requests)| + l.matched + l.expired + l.superseded
  {
    hide MatcherHistory.SlotsRefine, MatcherHistory.SessionsRefine, MatcherHistory.NoMutualWaiting,
         MatcherLedger.Tally, MatcherLedger.SlotSet;
    ms := ServerRunsMatcher(g, ws, ss, i);
    var es := HeardIn(g, ss[..i]);
    MatcherHistory.NeverMutualWaiting(ms, es, |es|);
    MatcherHistory.RunRefinesHistory(ms, es, h, |es|);
    MatcherLedger.SlotsConserved(ms, es, |es|);
    assert h[..|es|] == h;
  }

  /** And every decision of the server is the one that the requests heard before call for. */
  lemma {:induction false} SystemJudgesByHistory(g: Setting, ws: seq<World>, ss: seq<Timed>, i: nat,
                                                 h: seq<MatcherHistory.Entry>)
    requires g.Valid() && Rendezvous.IsRun(g, ws, ss) && i < |ss| && Heard(g, ss[i]).Some?
    requires MatcherHistory.Judged(h) && MatcherHistory.Describes(h, HeardIn(g, ss[..i]))
    ensures var e := Heard(g, ss[i]).value;
            MatcherHistory.Agree(Matcher.OutcomeOf(ws[i].server, e), MatcherHistory.Judge(h, e), h, e.sender)
  {
    assert Rendezvous.StepAt(g, ws, ss, i);
    hide Rendezvous.IsRun, Heard, Next, MatcherHistory.SlotsRefine, MatcherHistory.SessionsRefine, Matcher.OutcomeOf,
         MatcherHistory.Judge, MatcherHistory.Agree, Matcher.Step, Posted;
    ServerMoves(g, ws[i], ss[i], ws[i + 1]);
    var ms := ServerRunsMatcher(g, ws, ss, i);
    var es := HeardIn(g, ss[..i]);
    MatcherHistory.RunRefinesHistory(ms, es, h, |es|);
    assert h[..|es|] == h;
    MatcherHistory.OutcomeRefines(ws[i].server, h, MatcherHistory.TimeBefore(es, |es|), Heard(g, ss[i]).value);
  }

  // ----- a stored request keeps waiting

  /** A step at which the server hears nothing of `a`, and of `b` nothing that lists `a`. */
  ghost predicate Undisturbed(g: Setting, t: Timed, a: PublicKey, b: PublicKey)
  {
    Heard(g, t).Some? ==>
      var e := Heard(g, t).value;
      e.sender != a && (e.sender == b ==> a !in e.peers)
  }

  /** Whatever else goes on, a stored request waits for a listed peer until it is ten seconds old. */
  lemma {:induction false} KeepsWaiting(g: Setting, ws: seq<World>, ss: seq<Timed>, i: nat, k: nat, x: Matcher.Event,
                                        b: PublicKey)
    requires g.Valid() && Rendezvous.IsRun(g, ws, ss) && i < k < |ws|
    requires Heard(g, ss[i]) == Some(x) && Matcher.OutcomeOf(ws[i].server, x) == Matcher.Stored && b in x.peers
    requires forall m :: i < m < k ==> Undisturbed(g, ss[m], x.sender, b)
    requires ws[k].now < x.now + 10_000
    ensures Matcher.SlotAt(ws[k].server.requests, x.sender, b) == Some(MatcherHistory.PendingOf(x))
  {
    hide Next, Heard, Matcher.OutcomeOf, Posted, Matcher.Step;
    var w, t, a := ws[k - 1], ss[k - 1], x.sender;
    ServerOwned(g, ws, ss, k - 1);
    assert Rendezvous.StepAt(g, ws, ss, k - 1);
    ServerMoves(g, w, t, ws[k]);
    if i == k - 1 {
      MatcherHistory.StepSlot(w.server, x, a, b);
    } else {
      KeepsWaiting(g, ws, ss, i, k - 1, x, b);
      assert Undisturbed(g, t, a, b);
      if Heard(g, t).Some? {
        var e := Heard(g, t).value;
        MatcherHistory.StepSlot(w.server, e, a, b);
        Matcher.CleanedSlot(w.server.requests, e.now, a, b);
        if Matcher.OutcomeOf(w.server, e).Matched? { MatcherHistory.MatchedSlot(w.server, e); }
      }
    }
  }
}
