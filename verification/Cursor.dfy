/** The rotating choice of at most ten peers per request (src/udp/client.rs, new_available_remotes_list).

    The trusted peers live in an ordered map; a cursor remembers where the next request starts. Keys
    are compared by rank. `Arc(o, k)` is how far `k` lies ahead of `o` in cyclic key order.
 */
module Cursor {
  import opened Bytes

  const MAX_PEERS := 10

  // ----- ordered iteration

  lemma {:induction false} LeastExists<T(!new)>(f: T -> nat, s: set<T>)
    requires s != {}
    ensures exists k :: k in s && forall x :: x in s ==> f(k) <= f(x)
  {
    var y :| y in s;
    if s == {y} {
    } else {
      var rest := s - {y};
      assert s == rest + {y};
      LeastExists(f, rest);
      var k :| k in rest && forall x :: x in rest ==> f(k) <= f(x);
      var m := if f(y) < f(k) then y else k;
      assert forall x :: x in s ==> x == y || x in rest;
      assert m in s && forall x :: x in s ==> f(m) <= f(x);
    }
  }

  lemma {:induction false} LeastUnique(s: set<PublicKey>)
    ensures forall a, b :: a in s && b in s && Rank(a) == Rank(b) ==> a == b
  {
    forall a, b | a in s && b in s && Rank(a) == Rank(b) ensures a == b {
      RankInjective(a, b);
    }
  }

  function Least(s: set<PublicKey>): (k: PublicKey)
    requires s != {}
    ensures k in s && forall x :: x in s && x != k ==> Rank(k) < Rank(x)
  {
    LeastExists((x: PublicKey) => Rank(x), s);
    LeastUnique(s);
    var k :| k in s && forall x :: x in s ==> Rank(k) <= Rank(x);
    k
  }

  ghost predicate Ascending(s: seq<PublicKey>)
  {
    forall i, j :: 0 <= i < j < |s| ==> Rank(s[i]) < Rank(s[j])
  }

  /** The keys in iteration order. */
  function InOrder(s: set<PublicKey>): (r: seq<PublicKey>)
    ensures Ascending(r)
    ensures forall i :: 0 <= i < |r| ==> r[i] in s
    ensures forall x :: x in s ==> x in r
  {
    if s == {} then []
    else
      var k := Least(s);
      [k] + InOrder(s - {k})
  }

  function AtOrAbove(keys: set<PublicKey>, o: PublicKey): (r: set<PublicKey>)
  {
    set x | x in keys && Rank(o) <= Rank(x)
  }

  function Below(keys: set<PublicKey>, o: PublicKey): (r: set<PublicKey>)
  {
    set x | x in keys && Rank(x) < Rank(o)
  }

  function Above(keys: set<PublicKey>, o: PublicKey): (r: set<PublicKey>)
  {
    set x | x in keys && Rank(o) < Rank(x)
  }

  /** All keys once, from the cursor upwards and then around. */
  function Rotation(keys: set<PublicKey>, o: PublicKey): (r: seq<PublicKey>)
  {
    InOrder(AtOrAbove(keys, o)) + InOrder(Below(keys, o))
  }

  function Filter(s: seq<PublicKey>, enabled: set<PublicKey>): (r: seq<PublicKey>)
  {
    if s == [] then []
    else (if s[0] in enabled then [s[0]] else []) + Filter(s[1..], enabled)
  }

  function Take<T>(s: seq<T>, n: nat): (r: seq<T>) { if |s| <= n then s else s[..n] }

  /** The peers of the next request. */
  function Select(keys: set<PublicKey>, enabled: set<PublicKey>, o: PublicKey): (r: seq<PublicKey>)
  {
    Take(Filter(Rotation(keys, o), enabled), MAX_PEERS)
  }

  /** The key after `last`, or the least one if `last` is the greatest. */
  function Successor(keys: set<PublicKey>, last: PublicKey): (o: PublicKey)
  {
    if Above(keys, last) != {} then Least(Above(keys, last))
    else if keys != {} then Least(keys)
    else last
  }

  function NextOffset(keys: set<PublicKey>, selected: seq<PublicKey>, o: PublicKey): (o': PublicKey)
  {
    if selected == [] then o else Successor(keys, selected[|selected| - 1])
  }

  // ----- cyclic order

  ghost function Arc(o: PublicKey, k: PublicKey): (d: nat)
    ensures d < KeySpace()
  {
    if Rank(o) <= Rank(k) then Rank(k) - Rank(o) else KeySpace() + Rank(k) - Rank(o)
  }

  ghost predicate ArcAscending(o: PublicKey, s: seq<PublicKey>)
  {
    forall i, j :: 0 <= i < j < |s| ==> Arc(o, s[i]) < Arc(o, s[j])
  }

  lemma {:induction false} RotationAscends(keys: set<PublicKey>, o: PublicKey)
    ensures ArcAscending(o, Rotation(keys, o))
    ensures forall x :: x in Rotation(keys, o) <==> x in keys
  {
    var up, down := InOrder(AtOrAbove(keys, o)), InOrder(Below(keys, o));
    forall i, j | 0 <= i < |up| && 0 <= j < |down| ensures Arc(o, up[i]) < Arc(o, down[j]) {
      assert up[i] in AtOrAbove(keys, o) && down[j] in Below(keys, o);
    }
    ArcInOrder(AtOrAbove(keys, o), o);
    ArcInOrder(Below(keys, o), o);
    forall x | x in keys ensures x in up + down {
      assert x in AtOrAbove(keys, o) || x in Below(keys, o);
    }
  }

  /** On either side of the cursor, key order is cyclic order. */
  lemma {:induction false} ArcInOrder(s: set<PublicKey>, o: PublicKey)
    requires (forall x :: x in s ==> Rank(o) <= Rank(x)) || (forall x :: x in s ==> Rank(x) < Rank(o))
    ensures ArcAscending(o, InOrder(s))
  {
    var r := InOrder(s);
    forall i, j | 0 <= i < j < |r| ensures Arc(o, r[i]) < Arc(o, r[j]) {
      assert r[i] in s && r[j] in s;
    }
  }

  lemma {:induction false} FilterKeeps(o: PublicKey, s: seq<PublicKey>, enabled: set<PublicKey>)
    requires ArcAscending(o, s)
    ensures ArcAscending(o, Filter(s, enabled))
    ensures forall x :: x in Filter(s, enabled) <==> x in s && x in enabled
  {
    if s == [] {
    } else {
      FilterKeeps(o, s[1..], enabled);
      var rest := Filter(s[1..], enabled);
      assert forall x :: x in rest ==> x in s[1..] && Arc(o, s[0]) < Arc(o, x);
      assert forall x :: x in s <==> x == s[0] || x in s[1..];
    }
  }

  lemma {:induction false} TakeKeeps(o: PublicKey, all: seq<PublicKey>, n: nat)
    requires ArcAscending(o, all)
    ensures |Take(all, n)| <= n && ArcAscending(o, Take(all, n))
    ensures forall x :: x in Take(all, n) ==> x in all
    ensures forall k :: k in all && k !in Take(all, n) ==> |Take(all, n)| == n && Past(o, Take(all, n), k)
  {
    hide Arc;
    var r := Take(all, n);
    forall k | k in all && k !in r ensures |r| == n && Past(o, r, k) {
      var j :| 0 <= j < |all| && all[j] == k;
      assert forall i :: 0 <= i < |r| ==> r[i] == all[i] && r[i] in r;
    }
  }

  /** All of `r` comes up before `k`. */
  ghost predicate Past(o: PublicKey, r: seq<PublicKey>, k: PublicKey)
  {
    forall i :: 0 <= i < |r| ==> Arc(o, r[i]) < Arc(o, k)
  }

  /** The selection is the (at most ten) enabled keys nearest ahead of the cursor, in cyclic order:
      an enabled key is left out only if ten nearer ones are taken. */
  lemma {:induction false} SelectsNearest(keys: set<PublicKey>, enabled: set<PublicKey>, o: PublicKey)
    ensures var r := Select(keys, enabled, o);
            && |r| <= 10
            && ArcAscending(o, r)
            && (forall x :: x in r ==> x in keys && x in enabled)
            && (forall k :: k in keys && k in enabled && k !in r ==> |r| == 10 && Past(o, r, k))
  {
    hide Arc, Rank, Filter, Rotation, InOrder, Take, Past, ArcAscending;
    var all := Filter(Rotation(keys, o), enabled);
    RotationAscends(keys, o);
    FilterKeeps(o, Rotation(keys, o), enabled);
    TakeKeeps(o, all, 10);
  }

  /** The new cursor lies just past the last selected key: whatever it now has ahead of it before `k`
      was, before, between that key and `k`. */
  lemma {:induction false} CursorAdvances(keys: set<PublicKey>, o: PublicKey, last: PublicKey, k: PublicKey,
                                          x: PublicKey)
    requires last in keys && k in keys && Arc(o, last) < Arc(o, k)
    ensures var o' := Successor(keys, last);
            && Arc(o', k) < Arc(o, k)
            && (Arc(o', x) < Arc(o', k) ==> Arc(o, last) < Arc(o, x) < Arc(o, k))
  {
    var o' := Successor(keys, last);
    if Above(keys, last) != {} {
      assert Rank(last) < Rank(o');
      assert k in Above(keys, last) ==> Rank(o') <= Rank(k);
    } else {
      assert k !in Above(keys, last);
      assert Rank(o') <= Rank(k);
    }
  }

  // ----- nobody starves

  /** The trusted and the currently enabled keys at one call. */
  datatype Call = Call(keys: set<PublicKey>, enabled: set<PublicKey>)

  ghost function Selected(o: PublicKey, c: Call): (r: seq<PublicKey>) { Select(c.keys, c.enabled, o) }

  /** The cursor before call `i` of a run that starts at `o`. */
  ghost function CursorAt(o: PublicKey, calls: seq<Call>, i: nat): (c: PublicKey)
    requires i <= |calls|
  {
    if i == 0 then o
    else
      var c := CursorAt(o, calls, i - 1);
      NextOffset(calls[i - 1].keys, Selected(c, calls[i - 1]), c)
  }

  /** The keys of `all` that come up before `k`. */
  ghost function Ahead(all: set<PublicKey>, o: PublicKey, k: PublicKey): (s: set<PublicKey>)
  {
    set x | x in all && Arc(o, x) < Arc(o, k)
  }

  ghost function Elements(s: seq<PublicKey>): (r: set<PublicKey>) { set x | x in s }

  lemma {:induction false} ElementsCount(o: PublicKey, s: seq<PublicKey>)
    requires ArcAscending(o, s)
    ensures |Elements(s)| == |s|
  {
    if s == [] {
    } else {
      var n := |s| - 1;
      ElementsCount(o, s[..n]);
      assert s[n] !in Elements(s[..n]);
      assert Elements(s) == Elements(s[..n]) + {s[n]};
    }
  }

  /** A call that passes over an enabled key takes ten keys out of those ahead of it. */
  lemma {:induction false} SkipConsumesTen(all: set<PublicKey>, o: PublicKey, c: Call, k: PublicKey)
    requires c.keys <= all && k in c.keys && k in c.enabled && k !in Selected(o, c)
    ensures var o' := NextOffset(c.keys, Selected(o, c), o);
            |Ahead(all, o', k)| + 10 <= |Ahead(all, o, k)| && Arc(o', k) < Arc(o, k)
  {
    hide Rank, Arc, Select, Successor;
    SelectsNearest(c.keys, c.enabled, o);
    var r := Selected(o, c);
    var last := r[|r| - 1];
    var o' := NextOffset(c.keys, r, o);
    CursorAdvances(c.keys, o, last, k, k);
    forall x | x in Ahead(all, o', k) ensures x in Ahead(all, o, k) && x !in Elements(r) {
      CursorAdvances(c.keys, o, last, k, x);
    }
    ElementsCount(o, r);
    assert Ahead(all, o', k) !! Elements(r);
    SubsetCount(Ahead(all, o', k) + Elements(r), Ahead(all, o, k));
  }

  lemma {:induction false} SubsetCount<T>(a: set<T>, b: set<T>)
    requires a <= b
    ensures |a| <= |b|
  {
    assert b == a + (b - a);
  }

  ghost predicate Asks(calls: seq<Call>, all: set<PublicKey>, k: PublicKey)
  {
    forall i :: 0 <= i < |calls| ==> calls[i].keys <= all && k in calls[i].keys && k in calls[i].enabled
  }

  lemma {:induction false} SkipsAreFew(o: PublicKey, calls: seq<Call>, all: set<PublicKey>, k: PublicKey, n: nat)
    requires n <= |calls| && Asks(calls, all, k)
    requires forall i :: 0 <= i < n ==> k !in Selected(CursorAt(o, calls, i), calls[i])
    ensures |Ahead(all, CursorAt(o, calls, n), k)| + 10 * n <= |Ahead(all, o, k)|
  {
    hide NextOffset, Selected, Ahead;
    if n == 0 {
    } else {
      SkipsAreFew(o, calls, all, k, n - 1);
      assert k !in Selected(CursorAt(o, calls, n - 1), calls[n - 1]);
      SkipConsumesTen(all, CursorAt(o, calls, n - 1), calls[n - 1], k);
    }
  }

  /** However the other peers come, go, or change state between the calls: if all keys seen during
      the calls number N, a key that stays trusted and enabled is selected within ceil(N / 10) calls. */
  lemma {:induction false} ServedWithin(o: PublicKey, calls: seq<Call>, all: set<PublicKey>, k: PublicKey)
    requires Asks(calls, all, k)
    requires calls != [] && 10 * |calls| >= |all|
    ensures exists i :: 0 <= i < |calls| && k in Selected(CursorAt(o, calls, i), calls[i])
  {
    if forall i :: 0 <= i < |calls| ==> k !in Selected(CursorAt(o, calls, i), calls[i]) {
      SkipsAreFew(o, calls, all, k, |calls|);
      assert k in calls[0].keys && k in all;
      SubsetCount(Ahead(all, o, k) + {k}, all);
    }
  }

  /** Every key, whatever becomes of the others and however many are added: it is passed over at most
      as many times as its cyclic distance from the cursor. */
  lemma {:induction false} SkipsBounded(o: PublicKey, calls: seq<Call>, k: PublicKey, n: nat)
    requires n <= |calls|
    requires forall i :: 0 <= i < n ==> k in calls[i].keys && k in calls[i].enabled
    requires forall i :: 0 <= i < n ==> k !in Selected(CursorAt(o, calls, i), calls[i])
    ensures Arc(CursorAt(o, calls, n), k) + n <= Arc(o, k)
  {
    hide NextOffset, Selected, Arc;
    if n == 0 {
    } else {
      SkipsBounded(o, calls, k, n - 1);
      assert k !in Selected(CursorAt(o, calls, n - 1), calls[n - 1]);
      SkipConsumesTen(calls[n - 1].keys, CursorAt(o, calls, n - 1), calls[n - 1], k);
    }
  }

  /** A key that is trusted and enabled at each call is selected before the calls outnumber its cyclic
      distance from the first cursor. */
  lemma {:induction false} NeverStarves(o: PublicKey, calls: seq<Call>, k: PublicKey)
    requires |calls| > Arc(o, k)
    requires forall i :: 0 <= i < |calls| ==> k in calls[i].keys && k in calls[i].enabled
    ensures exists i :: 0 <= i < |calls| && k in Selected(CursorAt(o, calls, i), calls[i])
  {
    hide NextOffset, Selected, Arc;
    if forall i :: 0 <= i < |calls| ==> k !in Selected(CursorAt(o, calls, i), calls[i]) {
      SkipsBounded(o, calls, k, |calls|);
    }
  }
}
