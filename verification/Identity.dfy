/** The node-global names and numbers of one (Gateway, slot) pair: internal/link/identity.go. */
module Identity {
  import opened Text

  const MAX_LINK_ID: nat := 250
  const HEALTH_PORT_BASE: nat := 27000
  const MARK_MASK_BITS: nat := 0xffff0000
  const ROUTE_TABLE_BASE: nat := 100000
  const SLOT_COUNT: nat := 256

  /** What the operator's allocator hands out. */
  type LinkID = n: nat | 1 <= n <= MAX_LINK_ID witness 1
  /** What the link's config validation lets through. */
  type Slot = n: nat | n < SLOT_COUNT

  // ---------------------------------------------------------------- bits of a natural number

  function Or(a: nat, b: nat): nat {
    if a == 0 && b == 0 then 0
    else 2 * Or(a / 2, b / 2) + (if a % 2 == 1 || b % 2 == 1 then 1 else 0)
  }

  function And(a: nat, b: nat): nat {
    if a == 0 || b == 0 then 0
    else 2 * And(a / 2, b / 2) + (if a % 2 == 1 && b % 2 == 1 then 1 else 0)
  }

  function Shl(a: nat, n: nat): (r: nat)
    ensures a > 0 ==> r > 0
  {
    if n == 0 then a else 2 * Shl(a, n - 1)
  }

  function Shr(a: nat, n: nat): nat { if n == 0 then a else Shr(a / 2, n - 1) }

  lemma ShlValue(a: nat)
    ensures Shl(a, 8) == 0x100 * a && Shl(a, 16) == 0x10000 * a
  {
    assert Shl(a, 1) == 2 * a;
    assert Shl(a, 2) == 4 * a;
    assert Shl(a, 4) == 16 * a;
    assert Shl(a, 6) == 64 * a;
    assert Shl(a, 8) == 256 * a;
    assert Shl(a, 10) == 1024 * a;
    assert Shl(a, 12) == 4096 * a;
    assert Shl(a, 14) == 16384 * a;
  }

  lemma {:induction false} OrZero(b: nat)
    ensures Or(0, b) == b && Or(b, 0) == b
  {
    if b > 0 { OrZero(b / 2); }
  }

  /** A value below 2^n only fills the zeros a shift by n left. */
  lemma {:induction false} OrOfShift(a: nat, b: nat, n: nat)
    requires b < Shl(1, n)
    ensures Or(Shl(a, n), b) == Shl(a, n) + b
  {
    if n == 0 {
      OrZero(a);
    } else {
      OrOfShift(a, b / 2, n - 1);
    }
  }

  /** Bits below the shift meet only zeros. */
  lemma {:induction false} AndOfShift(a: nat, b: nat, n: nat)
    ensures And(Shl(a, n), b) == Shl(And(a, Shr(b, n)), n)
  {
    if n > 0 {
      AndOfShift(a, b / 2, n - 1);
      if b == 0 { AndOfShift(a, 0, n - 1); }
    }
  }

  lemma {:induction false} AndAllOnes(a: nat, n: nat)
    requires a < Shl(1, n)
    ensures And(a, Shl(1, n) - 1) == a
  {
    if n > 0 { AndAllOnes(a / 2, n - 1); }
  }

  // ---------------------------------------------------------------- identities

  datatype GatewayIdentity = GatewayIdentity(id: nat, healthPort: nat, nftTable: string)

  function NewGatewayIdentity(id: LinkID): GatewayIdentity {
    GatewayIdentity(id, HEALTH_PORT_BASE + id, "gw" + Itoa(id))
  }

  datatype SlotIdentity = SlotIdentity(iface: string, markBits: nat, mark: string, markMask: string, routeTable: nat)

  /** The routing key: the slot in the second byte, the Gateway in the first. */
  function RoutingKey(gatewayID: LinkID, slot: Slot): nat { Or(Shl(slot, 8), gatewayID) }

  function InterfaceName(gatewayID: LinkID, slot: Slot): string {
    "wg-gw" + Itoa(gatewayID) + (if slot != 0 then "-" + Itoa(slot) else "")
  }

  function NewSlotIdentity(gatewayID: LinkID, slot: Slot): SlotIdentity {
    var k := RoutingKey(gatewayID, slot);
    SlotIdentity(InterfaceName(gatewayID, slot), Shl(k, 16), "0x" + Hex(Shl(k, 16), 8), "0xffff0000",
                 ROUTE_TABLE_BASE + k)
  }

  lemma RoutingKeyValue(g: LinkID, s: Slot)
    ensures RoutingKey(g, s) == 256 * s + g < 0x10000
  {
    ShlValue(1);
    ShlValue(s);
    OrOfShift(s, g, 8);
  }

  lemma MarkValue(g: LinkID, s: Slot)
    ensures NewSlotIdentity(g, s).markBits == 0x10000 * (256 * s + g) < 0x1_0000_0000
  {
    RoutingKeyValue(g, s);
    ShlValue(RoutingKey(g, s));
  }

  lemma {:induction false} ShrSplit(b: nat, m: nat, n: nat)
    ensures Shr(b, m + n) == Shr(Shr(b, m), n)
  {
    if m > 0 { ShrSplit(b / 2, m - 1, n); }
  }

  lemma ShrTwo(b: nat)
    ensures Shr(b, 2) == b / 4
  {
    assert Shr(b / 2, 1) == Shr(b / 2 / 2, 0);
  }

  lemma ShrFour(b: nat)
    ensures Shr(b, 4) == b / 16
  {
    ShrSplit(b, 2, 2);
    ShrTwo(b);
    ShrTwo(b / 4);
  }

  lemma ShrSixteen(b: nat)
    ensures Shr(b, 16) == b / 0x10000
  {
    ShrSplit(b, 4, 12);
    ShrSplit(b / 16, 4, 8);
    ShrSplit(b / 16 / 16, 4, 4);
    ShrFour(b);
    ShrFour(b / 16);
    ShrFour(b / 16 / 16);
    ShrFour(b / 16 / 16 / 16);
    assert b / 16 / 16 == b / 256 && b / 256 / 16 == b / 4096 && b / 4096 / 16 == b / 0x10000;
  }

  /** A mark against a mask whose upper half is `high`: the lower half meets only zeros. */
  lemma MarkMasked(g: LinkID, s: Slot, mask: nat, high: nat)
    requires high == mask / 0x10000
    ensures And(NewSlotIdentity(g, s).markBits, mask) == Shl(And(RoutingKey(g, s), high), 16)
  {
    ShrSixteen(mask);
    AndOfShift(RoutingKey(g, s), mask, 16);
  }

  /**
   * A mark fills the upper half of 32 bits and nothing else: it prints in eight digits, survives its own mask
   * untouched and leaves kube-proxy's 0x4000 and 0x8000 bits alone.
   */
  lemma MarkFitsUpperHalf(g: LinkID, s: Slot)
    ensures var m := NewSlotIdentity(g, s).markBits;
            0 < m < 0x1_0000_0000 && And(m, MARK_MASK_BITS) == m && And(m, 0x4000) == 0 && And(m, 0x8000) == 0
  {
    RoutingKeyValue(g, s);
    MarkValue(g, s);
    MarkMasked(g, s, MARK_MASK_BITS, 0xffff);
    MarkMasked(g, s, 0x4000, 0);
    MarkMasked(g, s, 0x8000, 0);
    ShlValue(0);
    KeySurvivesOnes(RoutingKey(g, s));
  }

  lemma KeySurvivesOnes(k: nat)
    requires k < 0x10000
    ensures And(k, 0xffff) == k
  {
    ShlValue(1);
    AndAllOnes(k, 16);
  }

  /** Interface names stay inside the kernel's 15 characters. */
  lemma InterfaceNameFits(g: LinkID, s: Slot)
    ensures |InterfaceName(g, s)| <= 12
  {
    ItoaLength(g);
    ItoaLength(s);
  }

  /** An interface name less its prefix: the Gateway, and the slot unless it is 0. */
  function Tail(g: nat, s: nat): string { Itoa(g) + (if s != 0 then "-" + Itoa(s) else "") }

  lemma TailOf(g: LinkID, s: Slot)
    ensures InterfaceName(g, s) == "wg-gw" + Tail(g, s)
  {}

  lemma TailInjective(g: nat, s: nat, g': nat, s': nat)
    requires Tail(g, s) == Tail(g', s')
    ensures g == g' && s == s'
  {
    TailCut(g, s);
    TailCut(g', s');
    ItoaInjective(g, g');
    if s != 0 && s' != 0 { ItoaInjective(s, s'); }
  }

  lemma InterfaceNameInjective(g: LinkID, s: Slot, g': LinkID, s': Slot)
    requires InterfaceName(g, s) == InterfaceName(g', s')
    ensures g == g' && s == s'
  {
    TailOf(g, s);
    TailOf(g', s');
    PrefixDrops("wg-gw", Tail(g, s), Tail(g', s'));
    TailInjective(g, s, g', s');
  }

  lemma PrefixDrops(p: string, a: string, b: string)
    requires p + a == p + b
    ensures a == b
  {
    assert (p + a)[|p|..] == a && (p + b)[|p|..] == b;
  }

  lemma NotDigit(s: string, c: char)
    requires !IsDigit(c) && forall i :: 0 <= i < |s| ==> IsDigit(s[i])
    ensures c !in s
  {}

  lemma TailCut(g: nat, s: nat)
    ensures CutAt(Tail(g, s), '-') ==
            if s != 0 then Cut(Itoa(g), Itoa(s), true) else Cut(Itoa(g), "", false)
  {
    NotDigit(Itoa(g), '-');
    if s != 0 {
      JoinCut(Itoa(g), Itoa(s));
    } else {
      assert Itoa(g) + "" == Itoa(g);
    }
  }

  lemma JoinCut(a: string, b: string)
    requires '-' !in a
    ensures CutAt(a + ("-" + b), '-') == Cut(a, b, true)
  {
    CutOfJoin(a, b, '-');
    assert a + ("-" + b) == a + ['-'] + b;
  }

  /** Everything two slots put on a node differs, unless they are the same slot of the same Gateway. */
  ghost predicate Disjoint(a: SlotIdentity, b: SlotIdentity) {
    a.iface != b.iface && a.mark != b.mark && a.markBits != b.markBits && a.routeTable != b.routeTable
  }

  lemma SlotIdentitiesDisjoint(g: LinkID, s: Slot, g': LinkID, s': Slot)
    requires (g, s) != (g', s')
    ensures Disjoint(NewSlotIdentity(g, s), NewSlotIdentity(g', s'))
    ensures NewSlotIdentity(g, s).routeTable > 255
  {
    if InterfaceName(g, s) == InterfaceName(g', s') { InterfaceNameInjective(g, s, g', s'); }
    RoutingKeysDiffer(g, s, g', s');
    var k, k' := RoutingKey(g, s), RoutingKey(g', s');
    assert Shl(k, 16) != Shl(k', 16) by { ShlValue(k); ShlValue(k'); }
    if "0x" + Hex(Shl(k, 16), 8) == "0x" + Hex(Shl(k', 16), 8) {
      MarkValue(g, s);
      MarkValue(g', s');
      MarkTextInjective(Shl(k, 16), Shl(k', 16));
    }
  }

  lemma RoutingKeysDiffer(g: LinkID, s: Slot, g': LinkID, s': Slot)
    requires (g, s) != (g', s')
    ensures RoutingKey(g, s) != RoutingKey(g', s')
  {
    RoutingKeyValue(g, s);
    RoutingKeyValue(g', s');
    DigitsDiffer(s, g, s', g');
  }

  lemma DigitsDiffer(high: nat, low: nat, high': nat, low': nat)
    requires low < 256 && low' < 256 && (high, low) != (high', low')
    ensures 256 * high + low != 256 * high' + low'
  {}

  lemma MarkTextInjective(m: nat, n: nat)
    requires m < 0x1_0000_0000 && n < 0x1_0000_0000
    requires "0x" + Hex(m, 8) == "0x" + Hex(n, 8)
    ensures m == n
  {
    assert ("0x" + Hex(m, 8))[2..] == Hex(m, 8) && ("0x" + Hex(n, 8))[2..] == Hex(n, 8);
    assert Pow16(4) == 0x10000;
    assert Pow16(6) == 0x1000000;
    assert Pow16(8) == 0x1_0000_0000;
    HexInjective(m, n, 8);
  }

  lemma GatewayIdentitiesDisjoint(g: LinkID, g': LinkID)
    requires g != g'
    ensures NewGatewayIdentity(g).nftTable != NewGatewayIdentity(g').nftTable
    ensures NewGatewayIdentity(g).healthPort != NewGatewayIdentity(g').healthPort
    ensures 27001 <= NewGatewayIdentity(g).healthPort < 30000
  {
    if NewGatewayIdentity(g).nftTable == NewGatewayIdentity(g').nftTable {
      assert NewGatewayIdentity(g).nftTable[2..] == Itoa(g) && NewGatewayIdentity(g').nftTable[2..] == Itoa(g');
      ItoaInjective(g, g');
    }
  }

  // ---------------------------------------------------------------- discovery at start

  ghost predicate Owned(names: seq<string>, gatewayID: LinkID, slot: nat) {
    slot < SLOT_COUNT && InterfaceName(gatewayID, slot) in names
  }

  ghost predicate Sorted(s: seq<nat>) { forall i, j :: 0 <= i < j < |s| ==> s[i] <= s[j] }

  /**
   * The slots of one Gateway among the node's links, whatever other links there are. A link named twice is
   * reported twice; a node's link names are unique, and then the result has no repeats.
   */
  method InheritedSlots(names: seq<string>, gatewayID: LinkID) returns (slots: seq<nat>)
    ensures Sorted(slots)
    ensures forall s :: s in slots <==> Owned(names, gatewayID, s)
    ensures |slots| <= |names|
    ensures (forall i, j :: 0 <= i < j < |names| ==> names[i] != names[j]) ==>
              forall i, j :: 0 <= i < j < |slots| ==> slots[i] < slots[j]
  {
    var owned := OwnedInterfaces(gatewayID);
    ghost var from;
    slots, from := Matches(names, owned);
    forall s ensures s in slots <==> Owned(names, gatewayID, s) {
      if Owned(names, gatewayID, s) {
        var k :| 0 <= k < |names| && names[k] == InterfaceName(gatewayID, s);
        var j :| 0 <= j < |from| && from[j] == k;
      }
    }
    ghost var found := slots;
    slots := SortSlots(slots);
    forall s ensures s in slots <==> s in found {
      assert s in multiset(slots) <==> s in multiset(found);
    }
    if forall i, j :: 0 <= i < j < |names| ==> names[i] != names[j] {
      forall k, l | 0 <= k < l < |found| ensures found[k] != found[l] {
        assert from[k] != from[l];
      }
      DistinctStaysDistinct(found, slots);
    }
    assert |multiset(slots)| == |multiset(found)|;
  }

  /** Every interface name the Gateway can own, with its slot. */
  method OwnedInterfaces(gatewayID: LinkID) returns (owned: map<string, Slot>)
    ensures forall n :: n in owned ==> n == InterfaceName(gatewayID, owned[n])
    ensures forall s: Slot :: InterfaceName(gatewayID, s) in owned && owned[InterfaceName(gatewayID, s)] == s
  {
    owned := map[];
    for slot: nat := 0 to SLOT_COUNT
      invariant forall n :: n in owned ==> n == InterfaceName(gatewayID, owned[n])
      invariant forall s: Slot :: s < slot ==> InterfaceName(gatewayID, s) in owned
    {
      owned := owned[NewSlotIdentity(gatewayID, slot).iface := slot];
    }
    forall s: Slot ensures owned[InterfaceName(gatewayID, s)] == s {
      InterfaceNameInjective(gatewayID, s, gatewayID, owned[InterfaceName(gatewayID, s)]);
    }
  }

  method Matches(names: seq<string>, owned: map<string, Slot>) returns (slots: seq<nat>, ghost from: seq<nat>)
    ensures |slots| == |from| <= |names|
    ensures forall k :: 0 <= k < |slots| ==>
            from[k] < |names| && names[from[k]] in owned && owned[names[from[k]]] == slots[k]
    ensures forall k, l :: 0 <= k < l < |slots| ==> from[k] != from[l]
    ensures forall k :: 0 <= k < |names| && names[k] in owned ==> k in from
  {
    slots, from := [], [];
    for i := 0 to |names|
      invariant |slots| == |from| <= i
      invariant forall k :: 0 <= k < |slots| ==>
                from[k] < i && names[from[k]] in owned && owned[names[from[k]]] == slots[k]
      invariant forall k, l :: 0 <= k < l < |slots| ==> from[k] != from[l]
      invariant forall k :: 0 <= k < i && names[k] in owned ==> k in from
    {
      if names[i] in owned {
        slots, from := slots + [owned[names[i]]], from + [i];
      }
    }
  }

  /** slices.Sort, by insertion. */
  method SortSlots(s: seq<nat>) returns (r: seq<nat>)
    ensures Sorted(r) && multiset(r) == multiset(s)
  {
    r := [];
    for i := 0 to |s|
      invariant Sorted(r) && multiset(r) == multiset(s[..i])
    {
      var j := 0;
      while j < |r| && r[j] <= s[i]
        invariant j <= |r| && forall k :: 0 <= k < j ==> r[k] <= s[i]
      {
        j := j + 1;
      }
      assert r == r[..j] + r[j..] && s[..i + 1] == s[..i] + [s[i]];
      r := r[..j] + [s[i]] + r[j..];
    }
    assert s[..|s|] == s;
  }

  lemma DistinctStaysDistinct(a: seq<nat>, b: seq<nat>)
    requires multiset(a) == multiset(b)
    requires forall i, j :: 0 <= i < j < |a| ==> a[i] != a[j]
    ensures forall i, j :: 0 <= i < j < |b| ==> b[i] != b[j]
  {
    forall i, j | 0 <= i < j < |b| ensures b[i] != b[j] {
      if b[i] == b[j] {
        TwiceCounts(b, i, j);
        OnceCounts(a, b[i]);
      }
    }
  }

  lemma TwiceCounts(b: seq<nat>, i: nat, j: nat)
    requires i < j < |b| && b[i] == b[j]
    ensures multiset(b)[b[i]] >= 2
  {
    assert b == b[..j] + [b[j]] + b[j + 1..];
    assert b[i] in b[..j];
  }

  lemma {:induction false} OnceCounts(a: seq<nat>, x: nat)
    requires forall i, j :: 0 <= i < j < |a| ==> a[i] != a[j]
    ensures multiset(a)[x] <= 1
  {
    if a != [] {
      var last := |a| - 1;
      OnceCounts(a[..last], x);
      assert a == a[..last] + [a[last]];
      if a[last] == x { assert x !in a[..last]; }
    }
  }
}
