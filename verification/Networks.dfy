// Network documents as element trees (`xml/network.rs`): building a new network,
// reading the subnets of any network, and creating networks one at a time.
module Networks {
  import opened Options
  import opened Dotted
  import opened Subnets
  import opened Xml

  datatype Mode = Nat(subnet: Net) | Isolated(subnet: Net) | Bridge(bridge: string)

  datatype NewNetwork = NewNetwork(name: string, mode: Mode)

  newtype U32 = x: int | 0 <= x < 0x1_0000_0000

  // ----- Building -----

  function RangeTree(start: nat, end: nat): Element {
    Element(DhcpTag, map[], [Elem(Leaf(RangeTag, map[Start := PrintAddress(start), End := PrintAddress(end)]))])
  }

  function IpTree(n: Net): Element {
    Element(IpTag, map[Address := PrintAddress(Network(n) + 1), Prefix := Print(n.prefix)],
            [Elem(RangeTree(Network(n) + 2, if Broadcast(n) > 0 then Broadcast(n) - 1 else 0))])
  }

  lemma RoomForHosts(n: Net)
    requires n.prefix <= 30
    ensures Network(n) + 3 <= Broadcast(n) < 0x1_0000_0000
  {
    BroadcastFits(n);
    Pow2Values();
    Pow2Grows(2, HostBitsOf(n));
  }

  // The 32-bit sums and the difference stay in range.
  method Ip(subnet: Net) returns (ip: Element)
    requires subnet.prefix <= 30
    ensures ip == IpTree(subnet)
  {
    hide PrintAddress, Network, Pow2;
    RoomForHosts(subnet);
    var first := Network(subnet) as U32;
    var last := Broadcast(subnet) as U32;
    var gateway := PrintAddress((first + 1) as nat);
    var start := PrintAddress((first + 2) as nat);
    var end := PrintAddress((last - 1) as nat);
    ip := Leaf(IpTag, map[Address := gateway, Prefix := Print(subnet.prefix)]);
    var dhcp := Leaf(DhcpTag, map[]);
    dhcp := Pushed(dhcp, Leaf(RangeTag, map[Start := start, End := end]));
    assert dhcp.children == [Elem(Leaf(RangeTag, map[Start := start, End := end]))];
    ip := Pushed(ip, dhcp);
    assert ip.children == [Elem(dhcp)];
  }

  function Tree(n: NewNetwork): Element {
    var name := Elem(TextElement(NameTag, n.name));
    match n.mode
    case Nat(subnet) =>
      Element(NetworkTag, map[], [name, Elem(Leaf(ForwardTag, map[ModeOf := "nat"])), Elem(IpTree(subnet))])
    case Isolated(subnet) => Element(NetworkTag, map[], [name, Elem(IpTree(subnet))])
    case Bridge(bridge) =>
      Element(NetworkTag, map[],
              [name, Elem(Leaf(ForwardTag, map[ModeOf := "bridge"])), Elem(Leaf(BridgeTag, map[NameOf := bridge]))])
  }

  // What the parsers promise about a new network.
  predicate Checked(n: NewNetwork) { n.mode.Bridge? || Usable(n.mode.subnet) }

  method ToXml(n: NewNetwork) returns (network: Element)
    requires Checked(n)
    ensures network == Tree(n)
  {
    hide IpTree, Private, Network;
    network := Leaf(NetworkTag, map[]);
    network := Pushed(network, TextElement(NameTag, n.name));
    match n.mode {
      case Nat(subnet) =>
        network := Pushed(network, Leaf(ForwardTag, map[ModeOf := "nat"]));
        var ip := Ip(subnet);
        network := Pushed(network, ip);
      case Isolated(subnet) =>
        var ip := Ip(subnet);
        network := Pushed(network, ip);
      case Bridge(bridge) =>
        network := Pushed(network, Leaf(ForwardTag, map[ModeOf := "bridge"]));
        network := Pushed(network, Leaf(BridgeTag, map[NameOf := bridge]));
    }
  }

  // ----- Reading -----

  // An unsigned byte, as the standard library reads it: a plus sign and leading
  // zeros are fine.
  function ParseByte(s: string): Option<nat> {
    var digits := if s != [] && s[0] == '+' then s[1..] else s;
    if digits == [] || Run(digits) != |digits| || Value(digits) >= 256 then None else Some(Value(digits))
  }

  function Mask(prefix: nat): nat
    requires prefix <= 32
  {
    Pow2Values();
    Pow2Grows(32 - prefix, 32);
    0x1_0000_0000 - Pow2(32 - prefix)
  }

  function PrefixFrom(mask: nat, prefix: nat): Option<nat>
    requires prefix <= 32
    decreases 32 - prefix
  {
    if mask == Mask(prefix) then Some(prefix) else if prefix == 32 then None else PrefixFrom(mask, prefix + 1)
  }

  function ClassfulPrefix(address: nat): nat {
    var first := QuadOf(address).0;
    if first <= 127 then 8 else if first <= 191 then 16 else 24
  }

  function PrefixOf(address: nat, attributes: Attributes): Option<nat> {
    if Prefix in attributes then ParseByte(attributes[Prefix])
    else if Netmask in attributes then
      match ParseAddress(attributes[Netmask])
      case None => None
      case Some(mask) => PrefixFrom(mask, 0)
    else Some(ClassfulPrefix(address))
  }

  function SubnetOf(attributes: Attributes): Option<Net> {
    if Address !in attributes then None
    else
      match ParseAddress(attributes[Address])
      case None => None
      case Some(address) =>
        match PrefixOf(address, attributes)
        case None => None
        case Some(prefix) => if prefix <= 32 then Some(Trunc(Net(address, prefix))) else None
  }

  function SubnetsOfNode(n: Node): seq<Net> {
    if n.Elem? && n.e.name == IpTag && SubnetOf(n.e.attributes).Some? then [SubnetOf(n.e.attributes).value] else []
  }

  // The readable IPv4 subnets below an element.
  function SubnetsIn(nodes: seq<Node>): seq<Net> {
    if nodes == [] then [] else SubnetsOfNode(nodes[0]) + SubnetsIn(nodes[1..])
  }

  function NameIn(doc: Element): Option<string> { ChildText(doc, NameTag) }

  // `None` means isolated; libvirt's default is NAT.
  function ForwardMode(doc: Element): Option<string> {
    match Child(doc.children, ForwardTag)
    case None => None
    case Some(e) => Some(if ModeOf in e.attributes then e.attributes[ModeOf] else "nat")
  }

  function BridgeOf(doc: Element): Option<string> {
    match Child(doc.children, BridgeTag)
    case None => None
    case Some(e) => if NameOf in e.attributes then Some(e.attributes[NameOf]) else None
  }

  // The readers look at the first element of their name. A forward element without
  // a mode means NAT.
  lemma ReadersAreFirst(doc: Element, text: string)
    ensures NameIn(doc) == Some(text) <==> HasText(doc, NameTag, text)
    ensures BridgeOf(doc) == Some(text) <==> HasAttribute(doc, BridgeTag, NameOf, text)
    ensures ForwardMode(doc) == Some(text) <==>
              exists c :: FirstIs(doc.children, ForwardTag, c)
                && text == if ModeOf in c.attributes then c.attributes[ModeOf] else "nat"
  {
    TextIff(doc, NameTag, text);
    AttributeIff(doc, BridgeTag, NameOf, text);
    AllChildren(doc.children, ForwardTag);
    hide HasText, HasAttribute, FirstIs, FirstText, Child;
    var c := Child(doc.children, ForwardTag);
    if c.Some? { assert FirstIs(doc.children, ForwardTag, c.value); }
  }

  // ----- Reading back what was built -----

  lemma PrefixTextReads(prefix: nat)
    requires prefix <= 32
    ensures ParseByte(Print(prefix)) == Some(prefix)
  {
    PrintIsPlain(prefix);
    RunOfDigits(Print(prefix), []);
    assert Print(prefix) + [] == Print(prefix);
    assert IsDigit(Print(prefix)[0]);
  }

  // The gateway leads back to its block.
  lemma GatewayInBlock(n: Net)
    requires Usable(n)
    ensures Network(n) + 1 < 0x1_0000_0000 && Trunc(Net(Network(n) + 1, n.prefix)) == n
  {
    hide Private, Floor, Pow2;
    assert n.addr == Network(n) && n.prefix <= 30;
    RoomForHosts(n);
    hide Usable;
    FloorInBlock(n.addr, Network(n) + 1, HostBitsOf(n));
  }

  lemma SubnetOfTexts(attributes: Attributes, address: nat, prefix: nat)
    requires Address in attributes && Prefix in attributes && prefix <= 32
    requires ParseAddress(attributes[Address]) == Some(address) && ParseByte(attributes[Prefix]) == Some(prefix)
    ensures SubnetOf(attributes) == Some(Trunc(Net(address, prefix)))
  {
    hide ParseAddress, ParseByte, Trunc;
  }

  lemma IpReadsBack(n: Net)
    requires Usable(n)
    ensures SubnetOf(IpTree(n).attributes) == Some(n)
  {
    hide Usable, Network, Broadcast, Trunc, SubnetOf, PrintAddress, ParseAddress, Print, ParseByte, RangeTree;
    GatewayInBlock(n);
    AddressReadsPrint(Network(n) + 1);
    PrefixTextReads(n.prefix);
    SubnetOfTexts(IpTree(n).attributes, Network(n) + 1, n.prefix);
  }

  lemma SubnetsOfMore(x: Node, rest: seq<Node>)
    ensures SubnetsIn([x] + rest) == SubnetsOfNode(x) + SubnetsIn(rest)
  {
    hide SubnetsOfNode;
    assert ([x] + rest)[1..] == rest;
  }

  lemma NoSubnets()
    ensures SubnetsIn([]) == []
  {
  }

  // The subnets of two or three nodes, in their order.
  lemma SubnetsInOrder(nodes: seq<Node>)
    requires 2 <= |nodes| <= 3
    ensures SubnetsIn(nodes) ==
              SubnetsOfNode(nodes[0]) + (SubnetsOfNode(nodes[1]) + if |nodes| == 3 then SubnetsOfNode(nodes[2]) else [])
  {
    NoSubnets();
    hide SubnetsOfNode, SubnetsIn;
    var rest, last := nodes[1..], nodes[2..];
    assert nodes == [nodes[0]] + rest && rest == [nodes[1]] + last;
    SubnetsOfMore(nodes[0], rest);
    SubnetsOfMore(nodes[1], last);
    if |nodes| == 2 {
      assert last == [];
    } else {
      assert last == [nodes[2]] + [];
      SubnetsOfMore(nodes[2], []);
    }
  }

  // The subnets read from the document of a new network are the subnet it was
  // built from.
  lemma SubnetsReadBack(n: NewNetwork)
    requires Checked(n)
    ensures SubnetsIn(Tree(n).children) == if n.mode.Bridge? then [] else [n.mode.subnet]
  {
    hide SubnetOf, Usable, PrintAddress, SubnetsIn, Network, Broadcast, RangeTree;
    if !n.mode.Bridge? { IpReadsBack(n.mode.subnet); }
    SubnetsInOrder(Tree(n).children);
  }

  // So are its name, its forward mode and its bridge.
  lemma DocumentReadsBack(n: NewNetwork)
    ensures NameIn(Tree(n)) == Some(n.name)
    ensures ForwardMode(Tree(n)) ==
              match n.mode case Nat(_) => Some("nat") case Isolated(_) => None case Bridge(_) => Some("bridge")
    ensures BridgeOf(Tree(n)) == if n.mode.Bridge? then Some(n.mode.bridge) else None
  {
    hide PrintAddress, Child;
    ChildInOrder(Tree(n).children, NameTag);
    ChildInOrder(Tree(n).children, ForwardTag);
    ChildInOrder(Tree(n).children, BridgeTag);
  }

  // What the texts in the built element stand for.
  ghost predicate Serves(ip: Element, gateway: nat, start: nat, end: nat) {
    && Address in ip.attributes && ParseAddress(ip.attributes[Address]) == Some(gateway)
    && exists range: Attributes ::
         ip.children == [Elem(Element(DhcpTag, map[], [Elem(Leaf(RangeTag, range))]))]
         && Start in range && ParseAddress(range[Start]) == Some(start)
         && End in range && ParseAddress(range[End]) == Some(end)
  }

  // The gateway and the DHCP range split the host addresses, all of the block
  // but its first and its last.
  lemma HostsAreSplit(n: Net, a: nat)
    requires n.prefix <= 30
    ensures Serves(IpTree(n), Network(n) + 1, Network(n) + 2, Broadcast(n) - 1)
    ensures Network(n) + 2 <= Broadcast(n) - 1
    ensures In(n, a) && a != Network(n) && a != Broadcast(n) <==>
              a == Network(n) + 1 || Network(n) + 2 <= a <= Broadcast(n) - 1
  {
    hide PrintAddress, ParseAddress, Print, ParseByte, Pow2;
    RoomForHosts(n);
    AddressReadsPrint(Network(n) + 1);
    AddressReadsPrint(Network(n) + 2);
    AddressReadsPrint(Broadcast(n) - 1);
    var range := map[Start := PrintAddress(Network(n) + 2), End := PrintAddress(Broadcast(n) - 1)];
    assert IpTree(n).children == [Elem(Element(DhcpTag, map[], [Elem(Leaf(RangeTag, range))]))];
  }

  // A netmask is read exactly when it is the mask of a prefix.
  lemma {:induction false} PrefixFromFinds(mask: nat, from: nat, prefix: nat)
    requires from <= prefix <= 32
    ensures PrefixFrom(mask, from) == Some(prefix) <==> mask == Mask(prefix)
    decreases 32 - from
  {
    if from < prefix {
      Pow2Grows(32 - prefix, 31 - from);
      assert Mask(from) < Mask(prefix);
      PrefixFromFinds(mask, from + 1, prefix);
    } else if from < 32 && mask != Mask(from) {
      PrefixFromIsLater(mask, from + 1);
    }
  }

  lemma {:induction false} PrefixFromIsLater(mask: nat, from: nat)
    requires from <= 32
    ensures PrefixFrom(mask, from).Some? ==> from <= PrefixFrom(mask, from).value <= 32
    decreases 32 - from
  {
    if from == 32 {
    } else {
      PrefixFromIsLater(mask, from + 1);
    }
  }

  // ----- Creating networks one at a time -----

  type Host = seq<(string, Element)>

  function Named(name: string, nets: seq<Net>): seq<(string, Net)> {
    if nets == [] then [] else [(name, nets[0])] + Named(name, nets[1..])
  }

  // Every readable subnet with its network's name.
  function Known(host: Host): seq<(string, Net)> {
    if host == [] then [] else Named(host[0].0, SubnetsIn(host[0].1.children)) + Known(host[1..])
  }

  function CheckAgainst(n: NewNetwork, host: Host): Result<(), Overlap> {
    if n.mode.Bridge? then Ok(()) else CheckNoOverlap(n.mode.subnet, Known(host))
  }

  datatype Request =
    | CreateNat(name: string, subnet: string)
    | CreateIsolated(name: string, subnet: string)
    | CreateBridge(name: string, bridge: string)
    | RemoveAt(index: nat)

  function Requested(r: Request): Option<NewNetwork> {
    match r
    case CreateNat(name, text) =>
      var net := ParseSubnet(text); if net.Ok? then Some(NewNetwork(name, Nat(net.value))) else None
    case CreateIsolated(name, text) =>
      var net := ParseSubnet(text); if net.Ok? then Some(NewNetwork(name, Isolated(net.value))) else None
    case CreateBridge(name, bridge) => Some(NewNetwork(name, Bridge(bridge)))
    case RemoveAt(_) => None
  }

  // A refused request changes nothing.
  function Handle(host: Host, r: Request): Host {
    if r.RemoveAt? then
      if r.index < |host| then host[..r.index] + host[r.index + 1..] else host
    else
      match Requested(r)
      case None => host
      case Some(n) => if CheckAgainst(n, host).Ok? then host + [(n.name, Tree(n))] else host
  }

  function HandleAll(host: Host, requests: seq<Request>): Host
    decreases |requests|
  {
    if requests == [] then host else HandleAll(Handle(host, requests[0]), requests[1..])
  }

  // ----- What an element states -----

  // A byte with or without a plus sign, in any number of digits.
  ghost predicate IsByteText(s: string, p: nat) {
    exists digits ::
      (s == digits || s == ['+'] + digits) && digits != [] && AllDigits(digits) && Value(digits) == p < 256
  }

  lemma RunIffDigits(s: string)
    ensures Run(s) == |s| <==> AllDigits(s)
  {
    RunIsDigits(s);
    assert s[..|s|] == s && s + [] == s;
    if AllDigits(s) { RunOfDigits(s, []); }
  }

  lemma ByteIff(s: string, p: nat)
    ensures ParseByte(s) == Some(p) <==> IsByteText(s, p)
  {
    var digits := if s != [] && s[0] == '+' then s[1..] else s;
    RunIffDigits(digits);
    if ParseByte(s) == Some(p) {
      assert s == digits || s == ['+'] + digits;
    }
    if IsByteText(s, p) {
      var d :| (s == d || s == ['+'] + d) && d != [] && AllDigits(d) && Value(d) == p < 256;
      assert d == digits;
    }
  }

  lemma AddressIff(s: string, a: nat)
    ensures ParseAddress(s) == Some(a) <==> a < 0x1_0000_0000 && s == PrintAddress(a)
  {
    hide ParseAddress, PrintAddress;
    if ParseAddress(s).Some? { AddressPrintsRead(s); }
    if a < 0x1_0000_0000 { AddressReadsPrint(a); }
  }

  // The prefix of an element: as it states it, else by the mask that it states, else
  // by the class of its address.
  ghost predicate States(attributes: Attributes, a: nat, p: nat) {
    if Prefix in attributes then IsByteText(attributes[Prefix], p)
    else if Netmask in attributes then p <= 32 && attributes[Netmask] == PrintAddress(Mask(p))
    else p == if a < 0x8000_0000 then 8 else if a < 0xC000_0000 then 16 else 24
  }

  // The element's address and prefix have the block `n`.
  ghost predicate BlockBy(attributes: Attributes, n: Net, a: nat, p: nat) {
    && Address in attributes && a < 0x1_0000_0000 && p <= 32 && attributes[Address] == PrintAddress(a)
    && States(attributes, a, p) && n == Trunc(Net(a, p))
  }

  ghost predicate IsBlock(attributes: Attributes, n: Net) { exists a: nat, p: nat :: BlockBy(attributes, n, a, p) }

  lemma ClassIff(a: nat)
    requires a < 0x1_0000_0000
    ensures ClassfulPrefix(a) == if a < 0x8000_0000 then 8 else if a < 0xC000_0000 then 16 else 24
  {
    Bytes(a);
  }

  lemma MaskIff(text: string, p: nat)
    requires p <= 32
    ensures (exists m :: ParseAddress(text) == Some(m) && PrefixFrom(m, 0) == Some(p)) <==>
              text == PrintAddress(Mask(p))
  {
    assert Mask(p) < 0x1_0000_0000;
    AddressIff(text, Mask(p));
    hide ParseAddress, PrintAddress;
    forall m: nat ensures PrefixFrom(m, 0) == Some(p) <==> m == Mask(p) { PrefixFromFinds(m, 0, p); }
  }

  lemma PrefixIff(attributes: Attributes, a: nat, p: nat)
    requires a < 0x1_0000_0000 && p <= 32
    ensures PrefixOf(a, attributes) == Some(p) <==> States(attributes, a, p)
  {
    if Prefix in attributes {
      ByteIff(attributes[Prefix], p);
    } else if Netmask in attributes {
      MaskIff(attributes[Netmask], p);
    } else {
      ClassIff(a);
    }
    hide ParseByte, IsByteText, ParseAddress, PrintAddress, PrefixFrom, ClassfulPrefix;
  }

  // The reader gives the block of every element that states one, and nothing else.
  lemma SubnetIff(attributes: Attributes, n: Net)
    ensures SubnetOf(attributes) == Some(n) <==> IsBlock(attributes, n)
  {
    hide ParseAddress, PrintAddress, PrefixOf, States, Trunc;
    if Address in attributes {
      forall a: nat
        ensures ParseAddress(attributes[Address]) == Some(a) <==>
                a < 0x1_0000_0000 && attributes[Address] == PrintAddress(a)
      {
        AddressIff(attributes[Address], a);
      }
      forall a: nat, p: nat | a < 0x1_0000_0000 && p <= 32
        ensures PrefixOf(a, attributes) == Some(p) <==> States(attributes, a, p)
      {
        PrefixIff(attributes, a, p);
      }
      if SubnetOf(attributes) == Some(n) {
        var a := ParseAddress(attributes[Address]).value;
        assert BlockBy(attributes, n, a, PrefixOf(a, attributes).value);
      }
      if a: nat, p: nat :| BlockBy(attributes, n, a, p) {
        assert ParseAddress(attributes[Address]) == Some(a) && PrefixOf(a, attributes) == Some(p);
      }
    }
  }

  // ----- The blocks of all networks -----

  // Node `k` is an address element that states the block `n`.
  ghost predicate NodeBlock(nodes: seq<Node>, k: int, n: Net) {
    0 <= k < |nodes| && IsElement(nodes[k], IpTag) && IsBlock(nodes[k].e.attributes, n)
  }

  // Child `k` of network `i` does.
  ghost predicate BlockAt(host: Host, i: int, k: int, n: Net) {
    0 <= i < |host| && NodeBlock(host[i].1.children, k, n)
  }

  ghost predicate SomeBlock(host: Host, n: Net) { exists i, k :: BlockAt(host, i, k, n) }

  // No two blocks share an address.
  ghost predicate Apart(host: Host) {
    forall i, k, n, j, l, m :: BlockAt(host, i, k, n) && BlockAt(host, j, l, m) && (i != j || k != l) ==> !Share(n, m)
  }

  lemma {:induction false} SubnetsInIff(nodes: seq<Node>, n: Net)
    ensures n in SubnetsIn(nodes) <==> exists k :: NodeBlock(nodes, k, n)
  {
    hide SubnetOf, IsBlock;
    if nodes == [] {
    } else {
      SubnetsInIff(nodes[1..], n);
      if nodes[0].Elem? { SubnetIff(nodes[0].e.attributes, n); }
      assert n in SubnetsIn(nodes) <==> n in SubnetsOfNode(nodes[0]) || n in SubnetsIn(nodes[1..]);
      assert n in SubnetsOfNode(nodes[0]) <==> NodeBlock(nodes, 0, n);
      if k :| NodeBlock(nodes, k, n) {
        assert k > 0 ==> NodeBlock(nodes[1..], k - 1, n);
      }
      if k :| NodeBlock(nodes[1..], k, n) { assert NodeBlock(nodes, k + 1, n); }
    }
  }

  lemma {:induction false} NamedIff(name: string, nets: seq<Net>, x: (string, Net))
    ensures x in Named(name, nets) <==> x.0 == name && x.1 in nets
  {
    if nets == [] {
    } else {
      NamedIff(name, nets[1..], x);
    }
  }

  ghost predicate IsKnown(host: Host, n: Net) { exists q :: 0 <= q < |Known(host)| && Known(host)[q].1 == n }

  lemma KnownOfMore(host: Host, n: Net)
    requires host != []
    ensures IsKnown(host, n) <==> n in SubnetsIn(host[0].1.children) || IsKnown(host[1..], n)
  {
    hide SubnetsIn;
    var first, rest := Named(host[0].0, SubnetsIn(host[0].1.children)), Known(host[1..]);
    assert Known(host) == first + rest;
    if IsKnown(host, n) {
      var q :| 0 <= q < |Known(host)| && Known(host)[q].1 == n;
      NamedIff(host[0].0, SubnetsIn(host[0].1.children), Known(host)[q]);
      assert q >= |first| ==> rest[q - |first|].1 == n;
    }
    if IsKnown(host[1..], n) {
      var q :| 0 <= q < |rest| && rest[q].1 == n;
      assert Known(host)[|first| + q].1 == n;
    }
    NamedIff(host[0].0, SubnetsIn(host[0].1.children), (host[0].0, n));
    if (host[0].0, n) in first {
      var q :| 0 <= q < |first| && first[q] == (host[0].0, n);
      assert Known(host)[q].1 == n;
    }
  }

  // The check looks at exactly the blocks of all networks.
  lemma {:induction false} KnownIff(host: Host, n: Net)
    ensures IsKnown(host, n) <==> SomeBlock(host, n)
  {
    if host == [] {
    } else {
      var rest, nodes := host[1..], host[0].1.children;
      KnownIff(rest, n);
      KnownOfMore(host, n);
      SubnetsInIff(nodes, n);
      hide NodeBlock, SubnetsIn, IsKnown;
      if i, k :| BlockAt(host, i, k, n) {
        if i > 0 { assert BlockAt(rest, i - 1, k, n); } else { assert NodeBlock(nodes, k, n); }
      }
      if i, k :| BlockAt(rest, i, k, n) { assert BlockAt(host, i + 1, k, n); }
      if k :| NodeBlock(nodes, k, n) { assert BlockAt(host, 0, k, n); }
    }
  }

  // Each is known by the name of its own network.
  lemma {:induction false} KnownIsNamed(host: Host, x: (string, Net))
    requires x in Known(host)
    ensures exists i, k :: BlockAt(host, i, k, x.1) && host[i].0 == x.0
  {
    var rest, nodes := host[1..], host[0].1.children;
    if x in Named(host[0].0, SubnetsIn(nodes)) {
      NamedIff(host[0].0, SubnetsIn(nodes), x);
      SubnetsInIff(nodes, x.1);
      var k :| NodeBlock(nodes, k, x.1);
      assert BlockAt(host, 0, k, x.1);
    } else {
      KnownIsNamed(rest, x);
      var i, k :| BlockAt(rest, i, k, x.1) && rest[i].0 == x.0;
      assert BlockAt(host, i + 1, k, x.1) && host[i + 1] == rest[i];
    }
  }

  // A new network passes if and only if its subnet shares no address with any block.
  lemma CheckIff(net: NewNetwork, host: Host)
    requires !net.mode.Bridge?
    ensures CheckAgainst(net, host).Ok? <==>
              forall i, k, n :: BlockAt(host, i, k, n) ==> !Share(net.mode.subnet, n)
  {
    OverlapIsExact(net.mode.subnet, Known(host));
    hide CheckNoOverlap, BlockAt, Share, Known;
    forall n: Net ensures IsKnown(host, n) <==> SomeBlock(host, n) { KnownIff(host, n); }
    if i, k, n :| BlockAt(host, i, k, n) && Share(net.mode.subnet, n) {
      assert SomeBlock(host, n) && IsKnown(host, n);
    }
    if q :| 0 <= q < |Known(host)| && Share(net.mode.subnet, Known(host)[q].1) {
      assert IsKnown(host, Known(host)[q].1) && SomeBlock(host, Known(host)[q].1);
    }
  }

  lemma RequestedIsChecked(r: Request)
    ensures Requested(r).Some? ==> Checked(Requested(r).value)
  {
    if r.CreateNat? && ParseSubnet(r.subnet).Ok? { AcceptedIff(r.subnet, ParseSubnet(r.subnet).value); }
    if r.CreateIsolated? && ParseSubnet(r.subnet).Ok? { AcceptedIff(r.subnet, ParseSubnet(r.subnet).value); }
  }

  lemma OnlyIpElement(net: NewNetwork, k: int)
    requires 0 <= k < |Tree(net).children| && IsElement(Tree(net).children[k], IpTag)
    ensures !net.mode.Bridge? && k == |Tree(net).children| - 1
    ensures Tree(net).children[k].e.attributes == IpTree(net.mode.subnet).attributes
  {
    hide IpTree;
  }

  // The document of a new network has one block, its own, or none.
  lemma NewBlock(net: NewNetwork, k: int, n: Net)
    requires Checked(net) && NodeBlock(Tree(net).children, k, n)
    ensures !net.mode.Bridge? && k == |Tree(net).children| - 1 && n == net.mode.subnet
  {
    hide IsBlock, Tree, IpTree, SubnetOf, Usable;
    OnlyIpElement(net, k);
    SubnetIff(Tree(net).children[k].e.attributes, n);
    IpReadsBack(net.mode.subnet);
  }

  lemma AddingKeepsApart(host: Host, net: NewNetwork)
    requires Apart(host) && Checked(net) && CheckAgainst(net, host).Ok?
    ensures Apart(host + [(net.name, Tree(net))])
  {
    if !net.mode.Bridge? { CheckIff(net, host); }
    hide Tree, Checked, CheckAgainst, Share;
    var more := host + [(net.name, Tree(net))];
    forall i, k, n | BlockAt(more, i, k, n)
      ensures if i < |host| then BlockAt(host, i, k, n)
              else !net.mode.Bridge? && i == |host| && k == |Tree(net).children| - 1 && n == net.mode.subnet
    {
      if i == |host| {
        assert more[i].1 == Tree(net);
        NewBlock(net, k, n);
      } else {
        assert more[i] == host[i];
      }
    }
    hide BlockAt;
    forall i, k, n, j, l, m | BlockAt(more, i, k, n) && BlockAt(more, j, l, m) && (i != j || k != l)
      ensures !Share(n, m)
    {
      ShareIsMutual(n, m);
    }
  }

  lemma ShareIsMutual(n: Net, m: Net)
    ensures Share(n, m) <==> Share(m, n)
  {
  }

  lemma RemovingKeepsApart(host: Host, at: nat)
    requires Apart(host) && at < |host|
    ensures Apart(host[..at] + host[at + 1..])
  {
    var left := host[..at] + host[at + 1..];
    forall i, k, n | BlockAt(left, i, k, n) ensures BlockAt(host, if i < at then i else i + 1, k, n) {
      assert left[i] == host[if i < at then i else i + 1];
    }
    hide BlockAt, Share;
  }

  lemma HandleKeepsApart(host: Host, r: Request)
    requires Apart(host)
    ensures Apart(Handle(host, r))
    ensures forall x <- Handle(host, r) :: x in host || OwnBlocksUsable(x.1)
  {
    RequestedIsChecked(r);
    hide Requested, CheckAgainst, Tree, Apart, NodeBlock, Private, Network;
    if r.RemoveAt? {
      if r.index < |host| { RemovingKeepsApart(host, r.index); }
    } else if Requested(r).Some? && CheckAgainst(Requested(r).value, host).Ok? {
      var net := Requested(r).value;
      AddingKeepsApart(host, net);
      forall k, n | NodeBlock(Tree(net).children, k, n) ensures Usable(n) { NewBlock(net, k, n); }
    }
  }

  // Every block of this document is private, aligned and large enough.
  ghost predicate OwnBlocksUsable(doc: Element) {
    forall k, n :: NodeBlock(doc.children, k, n) ==> Usable(n)
  }

  // Whatever is created and removed, the blocks of all networks stay apart, and every
  // network that was not there before has only usable, private ones.
  lemma {:induction false} CreatesStayApart(host: Host, requests: seq<Request>)
    requires Apart(host)
    ensures Apart(HandleAll(host, requests))
    ensures forall x <- HandleAll(host, requests) :: x in host || OwnBlocksUsable(x.1)
    decreases |requests|
  {
    hide Apart, OwnBlocksUsable, Handle;
    if requests == [] {
    } else {
      HandleKeepsApart(host, requests[0]);
      CreatesStayApart(Handle(host, requests[0]), requests[1..]);
    }
  }

  // What an accepted request adds: one document at the end, that says again what was
  // asked for.
  lemma CreatedAsAsked(host: Host, r: Request)
    requires !r.RemoveAt? && |Handle(host, r)| != |host|
    ensures |Handle(host, r)| == |host| + 1 && Handle(host, r)[..|host|] == host
    ensures var (name, doc) := Handle(host, r)[|host|];
            && name == r.name && NameIn(doc) == Some(r.name)
            && (r.CreateNat? ==> ForwardMode(doc) == Some("nat"))
            && (r.CreateIsolated? ==> ForwardMode(doc) == None)
            && (r.CreateBridge? ==> ForwardMode(doc) == Some("bridge") && BridgeOf(doc) == Some(r.bridge))
            && (!r.CreateBridge? ==> ParseSubnet(r.subnet).Ok?)
            && (!r.CreateBridge? ==> SubnetsIn(doc.children) == [ParseSubnet(r.subnet).value])
  {
    RequestedIsChecked(r);
    var net := Requested(r).value;
    DocumentReadsBack(net);
    SubnetsReadBack(net);
    hide ForwardMode, BridgeOf, NameIn, SubnetsIn, Tree, CheckAgainst, ParseSubnet;
  }

  // A removal takes exactly the network at its place.
  lemma RemovedAsAsked(host: Host, at: nat, i: nat)
    requires at < |host| && i < |host| && i != at
    ensures |Handle(host, RemoveAt(at))| == |host| - 1
    ensures Handle(host, RemoveAt(at))[if i < at then i else i - 1] == host[i]
  {
  }
}
