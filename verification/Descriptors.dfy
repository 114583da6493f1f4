/** The configuration-descriptor walker (attack.py, _parse_interfaces), and the serialisation it
    inverts (sections 9.6.5 and 9.6.6 of USB 2.0, section 6.2.1 of HID 1.11). */
module Descriptors {
  import opened Prelude

  const INTERFACE: byte := 0x04
  const ENDPOINT: byte := 0x05
  const HID: byte := 0x21

  datatype Interface = Interface(
    num: byte, cls: byte, sub: byte, proto: byte, eps: seq<(byte, nat)>, reportLen: Option<nat>)

  function Word(low: byte, high: byte): nat {
    low as nat + 256 * high as nat
  }

  // ----- the walk, on any bytes -----

  /** Change the record the walker is filling: the last one. */
  function Amend(out: seq<Interface>, last: Interface): (r: seq<Interface>)
    requires out != []
    ensures |r| == |out|
  {
    out[..|out| - 1] + [last]
  }

  /** What the walker does at a descriptor starting at i, complete or cut short. */
  function Visit(cfg: seq<byte>, i: nat, out: seq<Interface>): seq<Interface>
    requires i + 1 < |cfg|
  {
    if cfg[i + 1] == INTERFACE && i + 8 <= |cfg|
    then out + [Interface(cfg[i + 2], cfg[i + 5], cfg[i + 6], cfg[i + 7], [], None)]
    else if cfg[i + 1] == ENDPOINT && out != [] && i + 6 <= |cfg|
    then var cur := out[|out| - 1]; Amend(out, cur.(eps := cur.eps + [(cfg[i + 2], Word(cfg[i + 4], cfg[i + 5]))]))
    else if cfg[i + 1] == HID && out != [] && i + 9 <= |cfg|
    then Amend(out, out[|out| - 1].(reportLen := Some(Word(cfg[i + 7], cfg[i + 8]))))
    else out
  }

  function Walk(cfg: seq<byte>, i: nat, out: seq<Interface>): seq<Interface>
    decreases |cfg| - i
  {
    if i + 1 >= |cfg| || cfg[i] == 0 then out else Walk(cfg, i + cfg[i], Visit(cfg, i, out))
  }

  /** The source's loop.  It terminates on any bytes and never reads outside them. */
  method ParseInterfaces(cfg: seq<byte>) returns (out: seq<Interface>)
    ensures out == Walk(cfg, 0, [])
  {
    out := [];
    var i := 0;
    while i + 1 < |cfg|
      invariant Walk(cfg, i, out) == Walk(cfg, 0, [])
      decreases |cfg| - i
    {
      var blen, btype := cfg[i], cfg[i + 1];
      if blen == 0 {
        break;
      }
      if btype == INTERFACE && i + 8 <= |cfg| {
        out := out + [Interface(cfg[i + 2], cfg[i + 5], cfg[i + 6], cfg[i + 7], [], None)];
      } else if btype == ENDPOINT && out != [] && i + 6 <= |cfg| {
        var cur := out[|out| - 1];
        out := Amend(out, cur.(eps := cur.eps + [(cfg[i + 2], Word(cfg[i + 4], cfg[i + 5]))]));
      } else if btype == HID && out != [] && i + 9 <= |cfg| {
        out := Amend(out, out[|out| - 1].(reportLen := Some(Word(cfg[i + 7], cfg[i + 8]))));
      }
      i := i + blen;
    }
  }

  // ----- what the walker skips -----

  /** The walk of what follows a first part does not depend on that part. */
  lemma {:induction false} WalkShift(p: seq<byte>, d: seq<byte>, i: nat, out: seq<Interface>)
    ensures Walk(p + d, |p| + i, out) == Walk(d, i, out)
    decreases |d| - i
  {
    if i + 1 < |d| {
      assert (p + d)[|p| + i] == d[i] && (p + d)[|p| + i + 1] == d[i + 1];
      VisitShift(p, d, i, out);
      if d[i] != 0 { WalkShift(p, d, i + d[i], Visit(d, i, out)); }
    }
  }

  lemma VisitShift(p: seq<byte>, d: seq<byte>, i: nat, out: seq<Interface>)
    requires i + 1 < |d|
    ensures Visit(p + d, |p| + i, out) == Visit(d, i, out)
  {
    assert (p + d)[|p| + i..] == d[i..];
    forall k | |p| + i <= k < |p + d| ensures (p + d)[k] == d[k - |p|] {}
  }

  /** A descriptor of any other type is passed over by the length it states, even a length of 1,
      whatever it holds; a length of 0 ends the walk. */
  lemma OthersAreSkipped(p: seq<byte>, d: seq<byte>, out: seq<Interface>)
    requires p != [] && (p[0] == |p| || p[0] == 0)
    requires |p + d| >= 2 ==> (p + d)[1] != INTERFACE && (p + d)[1] != ENDPOINT && (p + d)[1] != HID
    ensures Walk(p + d, 0, out) == if p[0] == 0 then out else Walk(d, 0, out)
  {
    if p[0] != 0 { WalkShift(p, d, 0, out); }
  }

  // ----- whose bytes a record is made of -----

  /** The walker makes something of the descriptor at i. */
  predicate Recorded(cfg: seq<byte>, i: nat, out: seq<Interface>)
    requires i + 1 < |cfg|
  {
    || (cfg[i + 1] == INTERFACE && i + 8 <= |cfg|)
    || (cfg[i + 1] == ENDPOINT && out != [] && i + 6 <= |cfg|)
    || (cfg[i + 1] == HID && out != [] && i + 9 <= |cfg|)
  }

  /** How many bytes of a descriptor the walker goes by. */
  function Needed(btype: byte): nat {
    if btype == INTERFACE then 8 else if btype == ENDPOINT then 6 else 9
  }

  /** Two byte strings that differ at most outside the descriptor at i. */
  predicate SameDescriptor(cfg: seq<byte>, cfg': seq<byte>, i: nat)
    requires i < |cfg|
  {
    |cfg'| == |cfg| && forall k :: i <= k < i + cfg[i] && k < |cfg| ==> cfg'[k] == cfg[k]
  }

  /** What is recorded comes from the descriptor's own bytes iff it is long enough to hold them:
      the walker checks the bytes that are left, not the length the descriptor states.  One that
      states a length of 1 does not even own its type. */
  predicate Owned(cfg: seq<byte>, i: nat, out: seq<Interface>)
    requires i + 1 < |cfg|
  {
    if cfg[i] == 1 then i + 8 > |cfg| && (out == [] || i + 6 > |cfg|)
    else Recorded(cfg, i, out) ==> cfg[i] >= Needed(cfg[i + 1])
  }

  lemma OwnedIff(cfg: seq<byte>, i: nat, out: seq<Interface>)
    requires i + 1 < |cfg| && cfg[i] != 0
    ensures Owned(cfg, i, out)
       <==> forall cfg' :: SameDescriptor(cfg, cfg', i) ==> Visit(cfg', i, out) == Visit(cfg, i, out)
  {
    if Owned(cfg, i, out) {
      forall cfg' | SameDescriptor(cfg, cfg', i) ensures Visit(cfg', i, out) == Visit(cfg, i, out) {}
    } else {
      var cfg' := Stray(cfg, i, out);
      assert SameDescriptor(cfg, cfg', i);
      hide SameDescriptor;
      StrayShows(cfg, i, out);
    }
  }

  /** The same descriptor, with one byte behind it changed. */
  function Stray(cfg: seq<byte>, i: nat, out: seq<Interface>): seq<byte>
    requires i + 1 < |cfg| && cfg[i] != 0 && !Owned(cfg, i, out)
  {
    if cfg[i] == 1
    then cfg[i + 1 := if i + 8 <= |cfg| then (if cfg[i + 1] == INTERFACE then 0 else INTERFACE)
                      else (if cfg[i + 1] == ENDPOINT then 0 else ENDPOINT)]
    else var k := i + Needed(cfg[i + 1]) - 1; cfg[k := (cfg[k] as int + 1) % 256]
  }

  lemma StrayShows(cfg: seq<byte>, i: nat, out: seq<Interface>)
    requires i + 1 < |cfg| && cfg[i] != 0 && !Owned(cfg, i, out)
    ensures Visit(Stray(cfg, i, out), i, out) != Visit(cfg, i, out)
  {
    var was, now := Visit(cfg, i, out), Visit(Stray(cfg, i, out), i, out);
    if |was| == |now| && was != [] {
      var a, b := was[|was| - 1], now[|now| - 1];
      assert a.proto != b.proto || |a.eps| != |b.eps| || a.reportLen != b.reportLen
          || (a.eps != [] && a.eps[|a.eps| - 1] != b.eps[|b.eps| - 1]);
    }
  }

  // ----- what a device serialises -----

  /** One descriptor; `tail` is whatever follows the fields the walker knows. */
  datatype Desc =
    | Iface(num: byte, alt: byte, count: byte, cls: byte, sub: byte, proto: byte, tail: seq<byte>)
    | Endpoint(addr: byte, attr: byte, low: byte, high: byte, tail: seq<byte>)
    | HidDesc(bcdLow: byte, bcdHigh: byte, country: byte, descriptors: byte, kind: byte, low: byte, high: byte,
              tail: seq<byte>)
    | Other(btype: byte, tail: seq<byte>)
  {
    predicate Valid() {
      && |Body()| + 2 < 256
      && (Other? ==> btype != INTERFACE && btype != ENDPOINT && btype != HID)
    }

    function Type(): byte {
      match this case Iface(_, _, _, _, _, _, _) => INTERFACE case Endpoint(_, _, _, _, _) => ENDPOINT
                 case HidDesc(_, _, _, _, _, _, _, _) => HID case Other(t, _) => t
    }

    function Body(): seq<byte> {
      match this
      case Iface(num, alt, count, cls, sub, proto, tail) => [num, alt, count, cls, sub, proto] + tail
      case Endpoint(addr, attr, low, high, tail) => [addr, attr, low, high] + tail
      case HidDesc(b0, b1, c, n, k, low, high, tail) => [b0, b1, c, n, k, low, high] + tail
      case Other(_, tail) => tail
    }

    /** Length byte, type byte, body. */
    function Bytes(): (b: seq<byte>)
      requires Valid()
      ensures 2 <= |b| < 256 && b[0] == |b|
    {
      [|Body()| + 2, Type()] + Body()
    }
  }

  predicate AllValid(ds: seq<Desc>) {
    forall k :: 0 <= k < |ds| ==> ds[k].Valid()
  }

  function Encode(ds: seq<Desc>): seq<byte>
    requires AllValid(ds)
  {
    if ds == [] then [] else ds[0].Bytes() + Encode(ds[1..])
  }

  /** An interface descriptor with everything up to the next one. */
  datatype Group = Group(head: Desc, rest: seq<Desc>)

  predicate Grouped(g: Group) {
    g.head.Iface? && g.head.Valid() && AllValid(g.rest) && forall k :: 0 <= k < |g.rest| ==> !g.rest[k].Iface?
  }

  /** The endpoints among some descriptors, in order. */
  function EndpointsOf(ds: seq<Desc>): seq<(byte, nat)> {
    if ds == [] then []
    else (if ds[0].Endpoint? then [(ds[0].addr, Word(ds[0].low, ds[0].high))] else []) + EndpointsOf(ds[1..])
  }

  /** The report length of the last HID descriptor among some descriptors. */
  function ReportLenOf(ds: seq<Desc>): Option<nat> {
    if ds == [] then None
    else if ReportLenOf(ds[1..]).Some? then ReportLenOf(ds[1..])
    else if ds[0].HidDesc? then Some(Word(ds[0].low, ds[0].high)) else None
  }

  /** The interface a group declares. */
  function Declares(g: Group): Interface
    requires g.head.Iface?
  {
    Interface(g.head.num, g.head.cls, g.head.sub, g.head.proto, EndpointsOf(g.rest), ReportLenOf(g.rest))
  }

  predicate AllGrouped(gs: seq<Group>) {
    forall k :: 0 <= k < |gs| ==> Grouped(gs[k])
  }

  function DeclaresAll(gs: seq<Group>): (r: seq<Interface>)
    requires AllGrouped(gs)
    ensures |r| == |gs|
  {
    if gs == [] then [] else [Declares(gs[0])] + DeclaresAll(gs[1..])
  }

  function Flatten(gs: seq<Group>): seq<Desc> {
    if gs == [] then [] else [gs[0].head] + gs[0].rest + Flatten(gs[1..])
  }

  // ----- parsing inverts serialising -----

  /** What one whole descriptor does to the list being built. */
  function Absorb(out: seq<Interface>, d: Desc): seq<Interface> {
    match d
    case Iface(num, _, _, cls, sub, proto, _) => out + [Interface(num, cls, sub, proto, [], None)]
    case Endpoint(addr, _, low, high, _) =>
      if out == [] then out else Amend(out, out[|out| - 1].(eps := out[|out| - 1].eps + [(addr, Word(low, high))]))
    case HidDesc(_, _, _, _, _, low, high, _) =>
      if out == [] then out else Amend(out, out[|out| - 1].(reportLen := Some(Word(low, high))))
    case Other(_, _) => out
  }

  function AbsorbAll(out: seq<Interface>, ds: seq<Desc>): seq<Interface>
    decreases |ds|
  {
    if ds == [] then out else AbsorbAll(Absorb(out, ds[0]), ds[1..])
  }

  lemma VisitAbsorbs(before: seq<byte>, d: Desc, after: seq<byte>, out: seq<Interface>)
    requires d.Valid()
    ensures var cfg := before + d.Bytes() + after;
            && |before| + 1 < |cfg| && cfg[|before|] == |d.Bytes()|
            && Visit(cfg, |before|, out) == Absorb(out, d)
  {
    var cfg, i, b := before + d.Bytes() + after, |before|, d.Bytes();
    assert forall k :: 0 <= k < |b| ==> cfg[i + k] == b[k];
  }

  lemma AbsorbNone(out: seq<Interface>)
    ensures AbsorbAll(out, []) == out
  {
  }

  lemma AbsorbFirst(out: seq<Interface>, ds: seq<Desc>)
    requires ds != []
    ensures AbsorbAll(out, ds) == AbsorbAll(Absorb(out, ds[0]), ds[1..])
  {
  }

  lemma {:induction false} WalkAbsorbs(before: seq<byte>, ds: seq<Desc>, after: seq<byte>, out: seq<Interface>)
    requires AllValid(ds)
    ensures var cfg := before + Encode(ds) + after;
            Walk(cfg, |before|, out) == Walk(cfg, |before + Encode(ds)|, AbsorbAll(out, ds))
    decreases |ds|
  {
    hide Visit, Absorb, Desc.Bytes, Desc.Valid, AbsorbAll;
    if ds == [] {
      assert before + Encode(ds) == before;
      AbsorbNone(out);
    } else {
      AbsorbFirst(out, ds);
      var b, rest := ds[0].Bytes(), Encode(ds[1..]);
      var cfg := before + Encode(ds) + after;
      assert cfg == before + b + (rest + after);
      VisitAbsorbs(before, ds[0], rest + after, out);
      assert cfg == (before + b) + rest + after;
      WalkAbsorbs(before + b, ds[1..], after, Absorb(out, ds[0]));
      assert before + Encode(ds) == (before + b) + rest;
    }
  }

  lemma {:induction false} AbsorbAppend(out: seq<Interface>, a: seq<Desc>, b: seq<Desc>)
    ensures AbsorbAll(out, a + b) == AbsorbAll(AbsorbAll(out, a), b)
    decreases |a|
  {
    if a == [] {
      assert a + b == b;
    } else {
      assert (a + b)[1..] == a[1..] + b;
      AbsorbAppend(Absorb(out, a[0]), a[1..], b);
    }
  }

  /** An interface record with one more of its descriptors read. */
  function Filled(x: Interface, d: Desc): Interface {
    match d
    case Endpoint(addr, _, low, high, _) => x.(eps := x.eps + [(addr, Word(low, high))])
    case HidDesc(_, _, _, _, _, low, high, _) => x.(reportLen := Some(Word(low, high)))
    case _ => x
  }

  function FilledBy(x: Interface, ds: seq<Desc>): Interface {
    x.(eps := x.eps + EndpointsOf(ds), reportLen := if ReportLenOf(ds).Some? then ReportLenOf(ds) else x.reportLen)
  }

  lemma AbsorbFillsOne(out: seq<Interface>, x: Interface, d: Desc)
    requires !d.Iface?
    ensures Absorb(out + [x], d) == out + [Filled(x, d)]
  {
  }

  lemma FilledByFirst(x: Interface, ds: seq<Desc>)
    requires ds != []
    ensures FilledBy(Filled(x, ds[0]), ds[1..]) == FilledBy(x, ds)
  {
    var e := if ds[0].Endpoint? then [(ds[0].addr, Word(ds[0].low, ds[0].high))] else [];
    assert Filled(x, ds[0]).eps == x.eps + e;
    assert x.eps + e + EndpointsOf(ds[1..]) == x.eps + (e + EndpointsOf(ds[1..]));
  }

  /** Descriptors after an interface only fill in that interface. */
  lemma {:induction false} AbsorbFills(out: seq<Interface>, x: Interface, ds: seq<Desc>)
    requires forall k :: 0 <= k < |ds| ==> !ds[k].Iface?
    ensures AbsorbAll(out + [x], ds) == out + [FilledBy(x, ds)]
    decreases |ds|
  {
    hide Absorb, Filled;
    if ds == [] {
      assert x.eps + EndpointsOf(ds) == x.eps;
    } else {
      AbsorbFillsOne(out, x, ds[0]);
      AbsorbFills(out, Filled(x, ds[0]), ds[1..]);
      FilledByFirst(x, ds);
    }
  }

  /** Before the first interface nothing is recorded. */
  lemma {:induction false} AbsorbIgnores(ds: seq<Desc>)
    requires forall k :: 0 <= k < |ds| ==> !ds[k].Iface?
    ensures AbsorbAll([], ds) == []
    decreases |ds|
  {
    if ds != [] { AbsorbIgnores(ds[1..]); }
  }

  lemma AbsorbGroup(out: seq<Interface>, g: Group)
    requires Grouped(g)
    ensures AbsorbAll(out, [g.head] + g.rest) == out + [Declares(g)]
  {
    hide EndpointsOf, ReportLenOf, Desc.Valid;
    var x := Interface(g.head.num, g.head.cls, g.head.sub, g.head.proto, [], None);
    assert ([g.head] + g.rest)[1..] == g.rest;
    AbsorbFirst(out, [g.head] + g.rest);
    assert Absorb(out, g.head) == out + [x];
    AbsorbFills(out, x, g.rest);
    assert [] + EndpointsOf(g.rest) == EndpointsOf(g.rest);
  }

  lemma {:induction false} AbsorbGroups(out: seq<Interface>, gs: seq<Group>)
    requires AllGrouped(gs)
    ensures AbsorbAll(out, Flatten(gs)) == out + DeclaresAll(gs)
    decreases |gs|
  {
    hide Absorb, Declares, AbsorbAll, Desc.Valid;
    if gs == [] {
      AbsorbNone(out);
      assert out + DeclaresAll(gs) == out;
    } else {
      var g := gs[0];
      assert Grouped(g) && g.head.Iface? && AllGrouped(gs[1..]);
      assert Flatten(gs) == ([g.head] + g.rest) + Flatten(gs[1..]);
      assert DeclaresAll(gs) == [Declares(g)] + DeclaresAll(gs[1..]);
      hide AllGrouped, Grouped, Flatten, DeclaresAll;
      AbsorbGroup(out, g);
      AbsorbAppend(out, [g.head] + g.rest, Flatten(gs[1..]));
      AbsorbGroups(out + [Declares(g)], gs[1..]);
      assert out + [Declares(g)] + DeclaresAll(gs[1..]) == out + DeclaresAll(gs);
    }
  }

  lemma {:induction false} FlattenValid(gs: seq<Group>)
    requires AllGrouped(gs)
    ensures AllValid(Flatten(gs))
    decreases |gs|
  {
    if gs != [] { FlattenValid(gs[1..]); }
  }

  /** Walking a serialised configuration gives back exactly the interfaces it declares, however
      their descriptors are interspersed, whatever precedes the first one, and whatever follows
      a zero length byte. */
  lemma ParseInvertsEncode(preamble: seq<Desc>, gs: seq<Group>, rest: seq<byte>)
    requires AllValid(preamble) && (forall k :: 0 <= k < |preamble| ==> !preamble[k].Iface?)
    requires AllGrouped(gs)
    requires rest == [] || rest[0] == 0
    ensures AllValid(preamble + Flatten(gs))
    ensures Walk(Encode(preamble + Flatten(gs)) + rest, 0, []) == DeclaresAll(gs)
  {
    FlattenValid(gs);
    var ds := preamble + Flatten(gs);
    WalkAbsorbs([], ds, rest, []);
    assert [] + Encode(ds) == Encode(ds);
    AbsorbAppend([], preamble, Flatten(gs));
    AbsorbIgnores(preamble);
    AbsorbGroups([], gs);
    assert [] + DeclaresAll(gs) == DeclaresAll(gs);
  }

  // ----- every list of interfaces can be serialised -----

  predicate Encodable(x: Interface) {
    && (forall k :: 0 <= k < |x.eps| ==> x.eps[k].1 < 0x10000)
    && (x.reportLen.Some? ==> x.reportLen.value < 0x10000)
  }

  function EndpointDescs(eps: seq<(byte, nat)>): seq<Desc>
    requires forall k :: 0 <= k < |eps| ==> eps[k].1 < 0x10000
  {
    if eps == [] then []
    else [Endpoint(eps[0].0, 3, eps[0].1 % 256, eps[0].1 / 256, [1])] + EndpointDescs(eps[1..])
  }

  function HidDescs(reportLen: Option<nat>): seq<Desc>
    requires reportLen.Some? ==> reportLen.value < 0x10000
  {
    match reportLen
    case None => []
    case Some(n) => [HidDesc(0x11, 0x01, 0, 1, 0x22, n % 256, n / 256, [])]
  }

  /** The usual layout: interface, HID descriptor if there is one, endpoints. */
  function Layout(x: Interface): Group
    requires Encodable(x)
  {
    Group(Iface(x.num, 0, |x.eps| % 256, x.cls, x.sub, x.proto, [0]), HidDescs(x.reportLen) + EndpointDescs(x.eps))
  }

  lemma {:induction false} EndpointDescsValid(eps: seq<(byte, nat)>)
    requires forall k :: 0 <= k < |eps| ==> eps[k].1 < 0x10000
    ensures var ds := EndpointDescs(eps); AllValid(ds) && forall k :: 0 <= k < |ds| ==> !ds[k].Iface?
    decreases |eps|
  {
    if eps != [] { EndpointDescsValid(eps[1..]); }
  }

  lemma {:induction false} EndpointDescsDeclare(eps: seq<(byte, nat)>)
    requires forall k :: 0 <= k < |eps| ==> eps[k].1 < 0x10000
    ensures EndpointsOf(EndpointDescs(eps)) == eps && ReportLenOf(EndpointDescs(eps)) == None
    decreases |eps|
  {
    if eps != [] {
      hide Desc.Valid;
      EndpointDescsDeclare(eps[1..]);
      assert EndpointDescs(eps)[1..] == EndpointDescs(eps[1..]);
      assert Word(eps[0].1 % 256, eps[0].1 / 256) == eps[0].1;
      assert eps == [eps[0]] + eps[1..];
    }
  }

  lemma LayoutDeclares(x: Interface)
    requires Encodable(x)
    ensures Grouped(Layout(x)) && Declares(Layout(x)) == x
  {
    EndpointDescsValid(x.eps);
    EndpointDescsDeclare(x.eps);
    var ds := EndpointDescs(x.eps);
    match x.reportLen
    case None => assert HidDescs(x.reportLen) + ds == ds;
    case Some(n) => HidThenEndpoints(n, ds);
  }

  lemma HidThenEndpoints(n: nat, ds: seq<Desc>)
    requires n < 0x10000 && ReportLenOf(ds) == None
    requires AllValid(ds) && forall k :: 0 <= k < |ds| ==> !ds[k].Iface?
    ensures var all := HidDescs(Some(n)) + ds;
            && EndpointsOf(all) == EndpointsOf(ds) && ReportLenOf(all) == Some(n)
            && AllValid(all) && forall k :: 0 <= k < |all| ==> !all[k].Iface?
  {
    var all := HidDescs(Some(n)) + ds;
    assert all[1..] == ds;
    assert Word(n % 256, n / 256) == n;
    assert [] + EndpointsOf(ds) == EndpointsOf(ds);
  }

  function Layouts(xs: seq<Interface>): seq<Group>
    requires forall k :: 0 <= k < |xs| ==> Encodable(xs[k])
  {
    if xs == [] then [] else [Layout(xs[0])] + Layouts(xs[1..])
  }

  /** The usual layouts are groups, and declare the interfaces they were made from. */
  lemma {:induction false} LayoutsDeclare(xs: seq<Interface>)
    requires forall k :: 0 <= k < |xs| ==> Encodable(xs[k])
    ensures AllGrouped(Layouts(xs)) && DeclaresAll(Layouts(xs)) == xs
    decreases |xs|
  {
    if xs != [] {
      LayoutDeclares(xs[0]);
      LayoutsDeclare(xs[1..]);
      assert xs == [xs[0]] + xs[1..];
      hide Encodable, Layout, Grouped, Declares;
      OneGroupMore(Layout(xs[0]), Layouts(xs[1..]));
    }
  }

  lemma OneGroupMore(g: Group, gs: seq<Group>)
    requires Grouped(g) && AllGrouped(gs)
    ensures AllGrouped([g] + gs) && DeclaresAll([g] + gs) == [Declares(g)] + DeclaresAll(gs)
  {
    assert ([g] + gs)[1..] == gs;
  }

  /** Round trip: every list of interfaces has a serialisation, and parsing it returns the list. */
  lemma RoundTrip(xs: seq<Interface>)
    requires forall k :: 0 <= k < |xs| ==> Encodable(xs[k])
    ensures AllValid(Flatten(Layouts(xs)))
    ensures Walk(Encode(Flatten(Layouts(xs))), 0, []) == xs
  {
    LayoutsDeclare(xs);
    ParseInvertsEncode([], Layouts(xs), []);
    assert [] + Flatten(Layouts(xs)) == Flatten(Layouts(xs));
    assert Encode(Flatten(Layouts(xs))) + [] == Encode(Flatten(Layouts(xs)));
  }
}
