// IPv4 subnets: their arithmetic, `parse_subnet` and `check_no_overlap`
// (`validate.rs`).
module Subnets {
  import opened Options
  import opened Dotted

  datatype Cidr = Net(addr: nat, prefix: nat)

  type Net = n: Cidr | n.addr < 0x1_0000_0000 && n.prefix <= 32 witness Net(0, 0)

  function Pow2(k: nat): (p: nat)
    ensures p > 0
  {
    if k == 0 then 1 else 2 * Pow2(k - 1)
  }

  // `a` with its lowest `k` bits cleared.
  function Floor(a: nat, k: nat): (f: nat)
    ensures f <= a < f + Pow2(k)
    decreases k
  {
    if k == 0 then a else 2 * Floor(a / 2, k - 1)
  }

  function HostBitsOf(n: Net): nat { 32 - n.prefix }

  function Network(n: Net): nat { Floor(n.addr, HostBitsOf(n)) }

  function Broadcast(n: Net): nat { Network(n) + Pow2(HostBitsOf(n)) - 1 }

  function Trunc(n: Net): Net { Net(Network(n), n.prefix) }

  // The addresses of the subnet.
  predicate In(n: Net, a: nat) { Network(n) <= a <= Broadcast(n) }

  predicate Contains(n: Net, m: Net) { Network(n) <= Network(m) && Broadcast(m) <= Broadcast(n) }

  const TEN: Net := Net(0x0A00_0000, 8)
  const ONE_SEVEN_TWO: Net := Net(0xAC10_0000, 12)
  const ONE_NINE_TWO: Net := Net(0xC0A8_0000, 16)

  predicate Private(n: Net) { Contains(TEN, n) || Contains(ONE_SEVEN_TWO, n) || Contains(ONE_NINE_TWO, n) }

  // ----- Alignment -----

  lemma Pow2Values()
    ensures Pow2(2) == 4 && Pow2(16) == 0x1_0000 && Pow2(20) == 0x10_0000 && Pow2(24) == 0x100_0000
    ensures Pow2(32) == 0x1_0000_0000
  {
    assert Pow2(2) == 4;
    assert Pow2(16) == 0x1_0000;
    assert Pow2(20) == 0x10_0000;
    assert Pow2(24) == 0x100_0000;
    assert Pow2(32) == 0x1_0000_0000;
  }

  lemma {:induction false} Pow2Grows(a: nat, b: nat)
    requires a <= b
    ensures Pow2(a) <= Pow2(b)
  {
    if a == b {
    } else {
      Pow2Grows(a, b - 1);
    }
  }

  // The blocks of one size tile the addresses: every address of a block has
  // that block's first address as its floor.
  lemma {:induction false} FloorInBlock(a: nat, x: nat, k: nat)
    requires Floor(a, k) <= x < Floor(a, k) + Pow2(k)
    ensures Floor(x, k) == Floor(a, k)
  {
    if k == 0 {
    } else {
      FloorInBlock(a / 2, x / 2, k - 1);
    }
  }

  lemma {:induction false} FloorNests(x: nat, j: nat, k: nat)
    requires j <= k
    ensures Floor(x, k) <= Floor(x, j) && Floor(x, j) + Pow2(j) <= Floor(x, k) + Pow2(k)
  {
    if j == 0 {
    } else {
      FloorNests(x / 2, j - 1, k - 1);
    }
  }

  lemma {:induction false} FloorFits(a: nat, k: nat, m: nat)
    requires a < Pow2(m) && k <= m
    ensures Floor(a, k) + Pow2(k) <= Pow2(m)
  {
    if k == 0 {
    } else {
      FloorFits(a / 2, k - 1, m - 1);
    }
  }

  lemma FloorOfDouble(a: nat, k: nat)
    ensures Floor(2 * a, k + 1) == 2 * Floor(a, k)
  {
    assert 2 * a / 2 == a;
    hide Pow2;
  }

  lemma Doubled(q: nat, p: nat)
    ensures q * (2 * p) == 2 * (q * p)
  {
  }

  lemma {:induction false} FloorOfMultiple(q: nat, k: nat)
    ensures Floor(q * Pow2(k), k) == q * Pow2(k)
  {
    if k == 0 {
    } else {
      FloorOfMultiple(q, k - 1);
      FloorOfDouble(q * Pow2(k - 1), k - 1);
      Doubled(q, Pow2(k - 1));
      assert Pow2(k) == 2 * Pow2(k - 1);
      hide Floor, Pow2;
    }
  }

  lemma TruncKeeps(n: Net)
    ensures Network(Trunc(n)) == Network(n) && Broadcast(Trunc(n)) == Broadcast(n)
  {
    FloorInBlock(n.addr, Network(n), HostBitsOf(n));
  }

  // A block ends inside the 32-bit space.
  lemma BroadcastFits(n: Net)
    ensures Broadcast(n) < 0x1_0000_0000
  {
    Pow2Values();
    FloorFits(n.addr, HostBitsOf(n), 32);
  }

  // Two blocks that share an address are nested, the longer prefix inside.
  lemma MeetingBlocksNest(n: Net, m: Net, a: nat)
    requires n.prefix <= m.prefix && In(n, a) && In(m, a)
    ensures Contains(n, m)
  {
    FloorInBlock(n.addr, a, HostBitsOf(n));
    FloorInBlock(m.addr, a, HostBitsOf(m));
    FloorNests(a, HostBitsOf(m), HostBitsOf(n));
  }

  // ----- Private ranges: section 3 of RFC 1918 -----

  predicate Rfc1918(a: nat) {
    var q := QuadOf(a);
    q.0 == 10 || (q.0 == 172 && 16 <= q.1 <= 31) || (q.0 == 192 && q.1 == 168)
  }

  lemma RangeBounds()
    ensures Network(TEN) == 0x0A00_0000 && Broadcast(TEN) == 0x0AFF_FFFF
    ensures Network(ONE_SEVEN_TWO) == 0xAC10_0000 && Broadcast(ONE_SEVEN_TWO) == 0xAC1F_FFFF
    ensures Network(ONE_NINE_TWO) == 0xC0A8_0000 && Broadcast(ONE_NINE_TWO) == 0xC0A8_FFFF
  {
    Pow2Values();
    FloorOfMultiple(10, 24);
    FloorOfMultiple(0xAC1, 20);
    FloorOfMultiple(0xC0A8, 16);
  }

  lemma Rfc1918Bounds(a: nat)
    requires a < 0x1_0000_0000
    ensures Rfc1918(a) <==>
              0x0A00_0000 <= a <= 0x0AFF_FFFF || 0xAC10_0000 <= a <= 0xAC1F_FFFF || 0xC0A8_0000 <= a <= 0xC0A8_FFFF
  {
    QuadRoundTrip(a);
  }

  // The three containment tests say that every single address is private.
  lemma PrivateIffAllPrivate(n: Net)
    ensures Private(n) <==> forall a :: In(n, a) ==> Rfc1918(a)
  {
    RangeBounds();
    BroadcastFits(n);
    if Private(n) {
      forall a | In(n, a) ensures Rfc1918(a) { Rfc1918Bounds(a); }
    }
    if forall a :: In(n, a) ==> Rfc1918(a) {
      var first, last := Network(n), Broadcast(n);
      assert In(n, first) && In(n, last);
      Rfc1918Bounds(first);
      Rfc1918Bounds(last);
      Rfc1918Bounds(0x0B00_0000);
      Rfc1918Bounds(0xAC20_0000);
      assert !In(n, 0x0B00_0000) && !In(n, 0xAC20_0000);
    }
  }

  // ----- Text -----

  function PrintNet(n: Net): string { PrintQuad(QuadOf(n.addr), ['/'] + Print(n.prefix)) }

  // Reads leading zeros, up to three digits an octet and two in the prefix.
  function ParseNet(s: string): Option<Net> {
    match ReadQuad(s, true)
    case None => None
    case Some(p) => WithPrefix(AddressOf(p.0), p.1)
  }

  function WithPrefix(addr: nat, rest: string): Option<Net>
    requires addr < 0x1_0000_0000
  {
    if rest == [] || rest[0] != '/' then None
    else
      match Number(rest[1..], 2, 33, true)
      case None => None
      case Some(p) => if p.1 == [] then Some(Net(addr, p.0)) else None
  }

  lemma PrefixReadsPrint(n: Net)
    ensures WithPrefix(n.addr, ['/'] + Print(n.prefix)) == Some(n)
  {
    PrintIsPlain(n.prefix);
    NumberReadsPrint(n.prefix, 2, 33, true, []);
    assert Print(n.prefix) + [] == Print(n.prefix) == (['/'] + Print(n.prefix))[1..];
  }

  lemma NetReadsPrint(n: Net)
    ensures ParseNet(PrintNet(n)) == Some(n)
  {
    QuadRoundTrip(n.addr);
    QuadReadsPrint(QuadOf(n.addr), true, ['/'] + Print(n.prefix));
    PrefixReadsPrint(n);
  }

  predicate HasNul(s: string) { '\0' in s }

  lemma PrintHasNoNul(n: Net)
    ensures !HasNul(PrintNet(n))
  {
    var q := QuadOf(n.addr);
    PrintIsPlain(q.0);
    PrintIsPlain(q.1);
    PrintIsPlain(q.2);
    PrintIsPlain(q.3);
    PrintIsPlain(n.prefix);
  }

  // ----- parse_subnet -----

  datatype SubnetError = Nul | Syntax | NotPrivate | TooSmall | HostBits(network: Net)

  function ParseSubnet(value: string): Result<Net, SubnetError> { Judge(value, ParseNet(value)) }

  // Only the plain text of a subnet is unambiguous.
  function Judge(value: string, parsed: Option<Net>): Result<Net, SubnetError> {
    if HasNul(value) then Err(Nul)
    else
      match parsed
      case None => Err(Syntax)
      case Some(net) => if PrintNet(net) != value then Err(Syntax) else CheckNet(net)
  }

  // The checks on the subnet itself, host bits last.
  function CheckNet(net: Net): Result<Net, SubnetError> {
    if !Private(net) then Err(NotPrivate)
    else if net.prefix > 30 then Err(TooSmall)
    else if net.addr != Network(net) then Err(HostBits(Trunc(net)))
    else Ok(net)
  }

  // A subnet that a new network may have.
  predicate Usable(n: Net) { Private(n) && n.prefix <= 30 && n.addr == Network(n) }

  lemma UsableIsAccepted(n: Net)
    requires Usable(n)
    ensures ParseSubnet(PrintNet(n)) == Ok(n)
  {
    hide PrintNet, ParseNet, Private, Network, HasNul;
    NetReadsPrint(n);
    PrintHasNoNul(n);
  }

  lemma JudgedUsable(value: string, parsed: Option<Net>, n: Net)
    requires Judge(value, parsed) == Ok(n)
    ensures Usable(n) && value == PrintNet(n)
  {
    hide PrintNet, Private, Network, HasNul;
  }

  // Accepted are exactly the plain texts of the usable subnets, so a subnet has
  // one accepted text.
  lemma AcceptedIff(value: string, n: Net)
    ensures ParseSubnet(value) == Ok(n) <==> Usable(n) && value == PrintNet(n)
  {
    if ParseSubnet(value) == Ok(n) {
      JudgedUsable(value, ParseNet(value), n);
    } else if Usable(n) {
      UsableIsAccepted(n);
    }
  }

  // A syntax error means exactly that no subnet prints as this text.
  lemma SyntaxErrorIff(value: string)
    ensures ParseSubnet(value) == Err(Syntax) <==> !HasNul(value) && forall n: Net :: PrintNet(n) != value
  {
    hide ParseNet, PrintNet, HasNul, Private, Network;
    if n: Net :| PrintNet(n) == value {
      NetReadsPrint(n);
    }
  }

  // Of the texts that are subnets, each error stands for the first rule that fails:
  // an address that is not private, then a prefix over 30, then host bits.
  lemma SubnetErrors(n: Net)
    ensures var r := ParseSubnet(PrintNet(n));
            && (r == Err(NotPrivate) <==> exists a :: In(n, a) && !Rfc1918(a))
            && (r == Err(TooSmall) <==> n.prefix > 30 && forall a :: In(n, a) ==> Rfc1918(a))
            && (r.Err? && r.error.HostBits? <==>
                n.prefix <= 30 && n.addr != Network(n) && forall a :: In(n, a) ==> Rfc1918(a))
            && (r.Err? && r.error.HostBits? ==> r.error.network == Trunc(n))
  {
    hide PrintNet, ParseNet, HasNul, Private, Rfc1918, In;
    NetReadsPrint(n);
    PrintHasNoNul(n);
    PrivateIffAllPrivate(n);
  }

  lemma JudgedHostBits(value: string, parsed: Option<Net>, fixed: Net)
    requires Judge(value, parsed) == Err(HostBits(fixed))
    ensures parsed.Some? && fixed == Trunc(parsed.value) && Usable(fixed)
  {
    hide PrintNet, HasNul, Floor, Pow2;
    TruncKeeps(parsed.value);
  }

  // The network that a host-bits error suggests is accepted, and it is the one
  // whose addresses include the input's.
  lemma SuggestionIsAccepted(value: string, fixed: Net)
    requires ParseSubnet(value) == Err(HostBits(fixed))
    ensures ParseSubnet(PrintNet(fixed)) == Ok(fixed)
    ensures ParseNet(value).Some? && In(fixed, ParseNet(value).value.addr)
    ensures ParseNet(value).value.prefix == fixed.prefix
  {
    JudgedHostBits(value, ParseNet(value), fixed);
    TruncKeeps(ParseNet(value).value);
    UsableIsAccepted(fixed);
  }

  // ----- check_no_overlap -----

  datatype Overlap = Overlap(name: string, subnet: Net)

  predicate Clash(n: Net, m: Net) { In(n, Network(m)) || In(m, Network(n)) }

  ghost predicate Share(n: Net, m: Net) { exists a :: In(n, a) && In(m, a) }

  function CheckNoOverlap(n: Net, existing: seq<(string, Net)>): Result<(), Overlap> {
    if existing == [] then Ok(())
    else if Clash(n, existing[0].1) then Err(Overlap(existing[0].0, existing[0].1))
    else CheckNoOverlap(n, existing[1..])
  }

  lemma ClashIffShare(n: Net, m: Net)
    ensures Clash(n, m) <==> Share(n, m)
  {
    if In(n, Network(m)) { assert In(m, Network(m)); }
    if In(m, Network(n)) { assert In(n, Network(n)); }
  }

  // The first network that shares an address, if any does.
  ghost predicate FirstSharing(n: Net, existing: seq<(string, Net)>, i: nat) {
    i < |existing| && Share(n, existing[i].1) && forall j :: 0 <= j < i ==> !Share(n, existing[j].1)
  }

  lemma {:induction false} OverlapIsExact(n: Net, existing: seq<(string, Net)>)
    ensures CheckNoOverlap(n, existing).Ok? <==> forall i :: 0 <= i < |existing| ==> !Share(n, existing[i].1)
    ensures CheckNoOverlap(n, existing).Err? ==> exists i: nat ::
                FirstSharing(n, existing, i)
                && CheckNoOverlap(n, existing).error == Overlap(existing[i].0, existing[i].1)
  {
    if existing == [] {
    } else {
      ClashIffShare(n, existing[0].1);
      if Clash(n, existing[0].1) {
        assert FirstSharing(n, existing, 0);
      } else {
        var rest := existing[1..];
        OverlapIsExact(n, rest);
        if CheckNoOverlap(n, rest).Err? {
          var i: nat :| FirstSharing(n, rest, i) && CheckNoOverlap(n, rest).error == Overlap(rest[i].0, rest[i].1);
          assert FirstSharing(n, existing, i + 1);
        }
      }
    }
  }
}
