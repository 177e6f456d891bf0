/** Choice of the network interface to use (src/p2p_interface_tracker.rs). */
module Interfaces {
  import opened Bytes

  datatype IfAddr =
    | V4(ip: (byte, byte, byte, byte), prefixlen: byte)
    | V6(segments: seq<u16>)

  datatype Interface = Interface(name: string, addr: IfAddr, isP2p: bool)

  predicate StartsWith(name: string, prefix: string) { prefix <= name }

  predicate StartsWithAny(name: string, prefixes: seq<string>)
  {
    exists i :: 0 <= i < |prefixes| && StartsWith(name, prefixes[i])
  }

  const VIRTUAL: seq<string> :=
    ["lo", "docker", "br-", "veth", "tun", "tap", "wg", "tailscale", "amn",
     "AmneziaVPN", "Tailscale", "ZeroTier", "outline"]

  /** Virtual, VPN and IPv6 interfaces are never used. */
  predicate Usable(i: Interface)
  {
    !i.isP2p && i.addr.V4? && i.addr.prefixlen != 32 && !StartsWithAny(i.name, VIRTUAL)
  }

  function Priority(i: Interface): (p: nat)
    ensures 1 <= p <= 3
  {
    if StartsWithAny(i.name, ["en", "eth", "Ethernet"]) then 3
    else if StartsWithAny(i.name, ["wl", "Wireless"]) then 2
    else 1
  }

  /** IPv4 addresses compare octet by octet. */
  function IpValue(a: IfAddr): (v: nat)
  {
    match a
    case V4(ip, _) => ((ip.0 as nat * 256 + ip.1 as nat) * 256 + ip.2 as nat) * 256 + ip.3 as nat
    case V6(_) => 0
  }

  /** `a` scores lower than `b`: by priority first, then by address. */
  predicate Below(a: Interface, b: Interface)
  {
    Priority(a) < Priority(b) || (Priority(a) == Priority(b) && IpValue(a.addr) < IpValue(b.addr))
  }

  /** Entry `i` is usable, none scores higher, and none before it scores as high. */
  ghost predicate FirstBest(list: seq<Interface>, i: int)
  {
    && 0 <= i < |list| && Usable(list[i])
    && (forall j :: 0 <= j < |list| && Usable(list[j]) ==> !Below(list[i], list[j]))
    && (forall j :: 0 <= j < i && Usable(list[j]) ==> Below(list[j], list[i]))
  }

  ghost predicate Picks(list: seq<Interface>, best: Option<Interface>)
  {
    match best
    case None => forall j :: 0 <= j < |list| ==> !Usable(list[j])
    case Some(b) => exists i :: FirstBest(list, i) && list[i] == b
  }

  class P2pInterfaceTracker {
    var prevInterface: string

    constructor ()
      ensures prevInterface == ""
    {
      prevInterface := "";
    }

    /** One pass over the interfaces in whatever order the system lists them. */
    method CurrentInterface(list: seq<Interface>) returns (best: Option<Interface>)
      modifies this
      ensures Picks(list, best)
      ensures prevInterface == if best.Some? then best.value.name else old(prevInterface)
    {
      hide Usable, IpValue;
      best := None;
      var highest := 0;
      ghost var at := 0;
      for k := 0 to |list|
        invariant prevInterface == old(prevInterface)
        invariant best.None? ==> highest == 0 && forall j :: 0 <= j < k ==> !Usable(list[j])
        invariant best.Some? ==> at < k && FirstBest(list[..k], at)
        invariant best.Some? ==> best.value == list[at] && highest == Priority(list[at])
      {
        var i := list[k];
        if !Usable(i) {
          continue;
        }
        var current := Priority(i);
        if current > highest {
          highest := current;
          best := Some(i);
          at := k;
        }
        if current == highest && best.Some? {
          if IpValue(i.addr) > IpValue(best.value.addr) {
            best := Some(i);
            at := k;
          }
        }
      }
      assert list[..|list|] == list;
      if best.Some? {
        prevInterface := best.value.name;
      }
    }
  }

  ghost predicate TopScoring(list: seq<Interface>, x: Interface)
  {
    x in list && Usable(x) && forall y :: y in list && Usable(y) ==> !Below(x, y)
  }

  ghost predicate OrderIndependent(list: seq<Interface>)
  {
    forall p, q, b, c :: multiset(p) == multiset(q) == multiset(list) && Picks(p, b) && Picks(q, c) ==> b == c
  }

  lemma {:induction false} PickIsTop(list: seq<Interface>, p: seq<Interface>, b: Option<Interface>)
    requires multiset(p) == multiset(list) && Picks(p, b)
    ensures b.Some? ==> TopScoring(list, b.value)
    ensures b.None? ==> forall x :: x in list ==> !Usable(x)
  {
    assert forall x :: x in list <==> x in multiset(list);
    assert forall x :: x in p <==> x in multiset(p);
    if b.Some? {
      var i :| FirstBest(p, i) && p[i] == b.value;
      forall y | y in list && Usable(y) ensures !Below(b.value, y) {
        assert y in p;
      }
    }
  }

  lemma {:induction false} MoveToFront<T>(list: seq<T>, x: T) returns (p: seq<T>)
    requires x in list
    ensures |p| == |list| && p[0] == x && multiset(p) == multiset(list)
    ensures forall y :: y in p <==> y in list
  {
    var i :| 0 <= i < |list| && list[i] == x;
    assert list == list[..i] + [x] + list[i + 1..];
    p := [x] + list[..i] + list[i + 1..];
    assert forall y :: y in p <==> y in multiset(p);
    assert forall y :: y in list <==> y in multiset(list);
  }

  lemma {:induction false} TopCanBePicked(list: seq<Interface>, x: Interface) returns (p: seq<Interface>)
    requires TopScoring(list, x)
    ensures multiset(p) == multiset(list) && Picks(p, Some(x))
  {
    p := MoveToFront(list, x);
    forall j | 0 <= j < |p| && Usable(p[j]) ensures !Below(p[0], p[j]) {
      assert p[j] in list;
    }
    assert FirstBest(p, 0);
  }

  /** The choice does not depend on the listing order exactly when only one interface attains the
      highest (priority, address); distinct addresses are enough for that. */
  lemma {:induction false} OrderIndependentIff(list: seq<Interface>)
    ensures OrderIndependent(list) <==> forall x, y :: TopScoring(list, x) && TopScoring(list, y) ==> x == y
    ensures (forall x, y :: x in list && y in list && x != y && Usable(x) && Usable(y) ==>
               IpValue(x.addr) != IpValue(y.addr))
        ==> OrderIndependent(list)
  {
    if forall x, y :: TopScoring(list, x) && TopScoring(list, y) ==> x == y {
      forall p, q, b, c | multiset(p) == multiset(q) == multiset(list) && Picks(p, b) && Picks(q, c)
        ensures b == c
      {
        PickIsTop(list, p, b);
        PickIsTop(list, q, c);
      }
    }
    if OrderIndependent(list) {
      forall x, y | TopScoring(list, x) && TopScoring(list, y) ensures x == y {
        var p := TopCanBePicked(list, x);
        var q := TopCanBePicked(list, y);
      }
    }
  }

  // ----- which interface that is

  predicate Wired(name: string) { "en" <= name || "eth" <= name || "Ethernet" <= name }

  predicate Wireless(name: string) { "wl" <= name || "Wireless" <= name }

  /** Names of loopback, container, tunnel and VPN interfaces. */
  predicate VirtualName(name: string)
  {
    || "lo" <= name || "docker" <= name || "br-" <= name || "veth" <= name || "tun" <= name || "tap" <= name
    || "wg" <= name || "tailscale" <= name || "amn" <= name || "AmneziaVPN" <= name || "Tailscale" <= name
    || "ZeroTier" <= name || "outline" <= name
  }

  predicate Excluded(i: Interface)
  {
    i.isP2p || i.addr.V6? || i.addr.prefixlen == 32 || VirtualName(i.name)
  }

  /** The first octet that differs decides. */
  predicate LowerIp(a: (byte, byte, byte, byte), b: (byte, byte, byte, byte))
  {
    || a.0 < b.0
    || (a.0 == b.0 && a.1 < b.1)
    || (a.0 == b.0 && a.1 == b.1 && a.2 < b.2)
    || (a.0 == b.0 && a.1 == b.1 && a.2 == b.2 && a.3 < b.3)
  }

  lemma {:induction false} IpOrder(a: IfAddr, b: IfAddr)
    requires a.V4? && b.V4?
    ensures IpValue(a) < IpValue(b) <==> LowerIp(a.ip, b.ip)
  {
  }

  lemma {:induction false} UsableIff(i: Interface)
    ensures Usable(i) <==> !Excluded(i)
  {
    var v := VIRTUAL;
    assert |v| == 13;
    assert StartsWithAny(i.name, v) ==> VirtualName(i.name);
    if VirtualName(i.name) {
      assert StartsWith(i.name, v[0]) || StartsWith(i.name, v[1]) || StartsWith(i.name, v[2])
          || StartsWith(i.name, v[3]) || StartsWith(i.name, v[4]) || StartsWith(i.name, v[5])
          || StartsWith(i.name, v[6]) || StartsWith(i.name, v[7]) || StartsWith(i.name, v[8])
          || StartsWith(i.name, v[9]) || StartsWith(i.name, v[10]) || StartsWith(i.name, v[11])
          || StartsWith(i.name, v[12]);
    }
  }

  lemma {:induction false} PriorityIff(i: Interface)
    ensures Priority(i) == 3 <==> Wired(i.name)
    ensures Priority(i) == 2 <==> !Wired(i.name) && Wireless(i.name)
  {
    var wired, wireless := ["en", "eth", "Ethernet"], ["wl", "Wireless"];
    assert wired[0] == "en" && wired[1] == "eth" && wired[2] == "Ethernet";
    assert wireless[0] == "wl" && wireless[1] == "Wireless";
    assert StartsWithAny(i.name, wired) <==>
             StartsWith(i.name, wired[0]) || StartsWith(i.name, wired[1]) || StartsWith(i.name, wired[2]);
    assert StartsWithAny(i.name, wireless) <==> StartsWith(i.name, wireless[0]) || StartsWith(i.name, wireless[1]);
  }

  /** What is picked is not excluded; it is wired if any such one is listed, and else wireless if any such one
      is; and none of its own kind has a higher address. Nothing is picked only if all are excluded. */
  lemma {:induction false} PickedIsPreferred(list: seq<Interface>, best: Option<Interface>)
    requires Picks(list, best)
    ensures best.None? <==> forall x :: x in list ==> Excluded(x)
    ensures best.Some? ==>
              var b := best.value;
              && b in list && !Excluded(b)
              && forall x :: x in list && !Excluded(x) ==>
                   && (Wired(x.name) ==> Wired(b.name))
                   && (Wireless(x.name) ==> Wired(b.name) || Wireless(b.name))
                   && ((Wired(x.name) <==> Wired(b.name)) && (Wireless(x.name) <==> Wireless(b.name)) ==>
                         !LowerIp(b.addr.ip, x.addr.ip))
  {
    forall x ensures Usable(x) <==> !Excluded(x) { UsableIff(x); }
    forall x ensures (Priority(x) == 3 <==> Wired(x.name))
             ensures Priority(x) == 2 <==> !Wired(x.name) && Wireless(x.name)
    {
      PriorityIff(x);
    }
    forall a: IfAddr, b: IfAddr | a.V4? && b.V4? ensures IpValue(a) < IpValue(b) <==> LowerIp(a.ip, b.ip) {
      IpOrder(a, b);
    }
    hide Usable, Priority, IpValue, LowerIp, Wired, Wireless, VirtualName;
  }
}
