// Dotted-decimal text: the two number readers that the checks rely on, and the
// printer that has to undo them.
module Dotted {
  import opened Options

  predicate IsDigit(c: char) { '0' <= c <= '9' }

  function DigitOf(n: nat): char
    requires n < 10
  {
    '0' + n as char
  }

  function DigitValue(c: char): (n: nat)
    ensures n < 10 && (IsDigit(c) ==> DigitOf(n) == c)
  {
    if IsDigit(c) then c as nat - '0' as nat else 0
  }

  function Print(n: nat): string {
    if n < 10 then [DigitOf(n)] else Print(n / 10) + [DigitOf(n % 10)]
  }

  // The length of the run of digits that `s` starts with.
  function Run(s: string): (n: nat)
    ensures n <= |s|
  {
    if s != [] && IsDigit(s[0]) then 1 + Run(s[1..]) else 0
  }

  predicate AllDigits(s: string) { forall i :: 0 <= i < |s| ==> IsDigit(s[i]) }

  function Value(s: string): nat {
    if s == [] then 0 else Value(s[..|s| - 1]) * 10 + DigitValue(s[|s| - 1])
  }

  lemma {:induction false} RunIsDigits(s: string)
    ensures AllDigits(s[..Run(s)])
  {
    if s != [] && IsDigit(s[0]) {
      RunIsDigits(s[1..]);
      assert s[..Run(s)] == [s[0]] + s[1..][..Run(s[1..])];
    }
  }

  // A number at the start of `s`, with what follows it. The address reader of
  // the standard library refuses a leading zero; the one for subnets does not.
  function Number(s: string, maxDigits: nat, limit: nat, zeros: bool): (r: Option<(nat, string)>)
    ensures r.Some? ==> r.value.0 < limit
  {
    var n := Run(s);
    if n == 0 || n > maxDigits || (!zeros && n > 1 && s[0] == '0') || Value(s[..n]) >= limit then None
    else Some((Value(s[..n]), s[n..]))
  }

  // A number, then the character `c`.
  function NumberThen(s: string, zeros: bool, c: char): Option<(nat, string)> {
    match Number(s, 3, 256, zeros)
    case None => None
    case Some(p) => if p.1 != [] && p.1[0] == c then Some((p.0, p.1[1..])) else None
  }

  type Quad = (nat, nat, nat, nat)

  predicate IsQuad(q: Quad) { q.0 < 256 && q.1 < 256 && q.2 < 256 && q.3 < 256 }

  function ReadQuad(s: string, zeros: bool): (r: Option<(Quad, string)>)
    ensures r.Some? ==> IsQuad(r.value.0)
  {
    match NumberThen(s, zeros, '.')
    case None => None
    case Some(a) =>
      match NumberThen(a.1, zeros, '.')
      case None => None
      case Some(b) =>
        match NumberThen(b.1, zeros, '.')
        case None => None
        case Some(c) =>
          match Number(c.1, 3, 256, zeros)
          case None => None
          case Some(d) => Some(((a.0, b.0, c.0, d.0), d.1))
  }

  function PrintThen(n: nat, c: char, rest: string): string { Print(n) + ([c] + rest) }

  // The text of an address, and what follows it.
  function PrintQuad(q: Quad, rest: string): string {
    PrintThen(q.0, '.', PrintThen(q.1, '.', PrintThen(q.2, '.', Print(q.3) + rest)))
  }

  // ----- Addresses -----

  // Byte `i` of `a`, the lowest first.
  function Byte(a: nat, i: nat): nat
    decreases i, a
  {
    if i == 0 then a % 256 else Byte(a / 256, i - 1)
  }

  function QuadOf(a: nat): Quad { (Byte(a, 3), Byte(a, 2), Byte(a, 1), Byte(a, 0)) }

  function AddressOf(q: Quad): (a: nat)
    ensures IsQuad(q) ==> a < 0x1_0000_0000
  {
    ((q.0 * 256 + q.1) * 256 + q.2) * 256 + q.3
  }

  lemma Bytes(a: nat)
    ensures QuadOf(a) == (a / 256 / 256 / 256 % 256, a / 256 / 256 % 256, a / 256 % 256, a % 256)
  {
    var b := a / 256;
    var c := b / 256;
    assert Byte(a, 1) == Byte(b, 0);
    assert Byte(a, 2) == Byte(b, 1) == Byte(c, 0);
    assert Byte(a, 3) == Byte(b, 2) == Byte(c, 1) == Byte(c / 256, 0);
  }

  lemma QuadRoundTrip(a: nat)
    requires a < 0x1_0000_0000
    ensures IsQuad(QuadOf(a)) && AddressOf(QuadOf(a)) == a
  {
    Bytes(a);
    var b := a / 256;
    var c := b / 256;
    assert a == b * 256 + a % 256 && b == c * 256 + b % 256 && c == c / 256 * 256 + c % 256;
  }

  lemma AddressRoundTrip(q: Quad)
    requires IsQuad(q)
    ensures AddressOf(q) < 0x1_0000_0000 && QuadOf(AddressOf(q)) == q
  {
    Bytes(AddressOf(q));
    var c := q.0 * 256 + q.1;
    var b := c * 256 + q.2;
    assert AddressOf(q) / 256 == b && b / 256 == c && c / 256 == q.0;
  }

  function PrintAddress(a: nat): string { PrintQuad(QuadOf(a), []) }

  function ParseAddress(s: string): (r: Option<nat>)
    ensures r.Some? ==> r.value < 0x1_0000_0000
  {
    match ReadQuad(s, false)
    case None => None
    case Some(p) => if p.1 == [] then Some(AddressOf(p.0)) else None
  }

  // ----- Printing, then reading -----

  predicate NoDigitFirst(s: string) { s == [] || !IsDigit(s[0]) }

  lemma {:induction false} RunOfDigits(s: string, rest: string)
    requires AllDigits(s) && NoDigitFirst(rest)
    ensures Run(s + rest) == |s|
  {
    if s == [] {
      assert s + rest == rest;
    } else {
      assert (s + rest)[1..] == s[1..] + rest;
      RunOfDigits(s[1..], rest);
    }
  }

  lemma {:induction false} PrintIsPlain(n: nat)
    ensures AllDigits(Print(n)) && Value(Print(n)) == n && Print(n) != []
    ensures n > 0 ==> Print(n)[0] != '0'
    ensures |Print(n)| > 1 ==> n >= 10
    ensures n < 1000 ==> |Print(n)| <= 3
    ensures n < 100 ==> |Print(n)| <= 2
  {
    if n >= 10 {
      PrintIsPlain(n / 10);
      var s := Print(n);
      assert s[..|s| - 1] == Print(n / 10);
    } else {
      assert Value([]) == 0;
      assert Print(n)[..0] == [];
    }
  }

  lemma NumberReadsPrint(n: nat, maxDigits: nat, limit: nat, zeros: bool, rest: string)
    requires n < limit && |Print(n)| <= maxDigits && NoDigitFirst(rest)
    ensures Number(Print(n) + rest, maxDigits, limit, zeros) == Some((n, rest))
  {
    PrintIsPlain(n);
    RunOfDigits(Print(n), rest);
    assert (Print(n) + rest)[..|Print(n)|] == Print(n);
    assert (Print(n) + rest)[|Print(n)|..] == rest;
  }

  lemma NumberThenReadsPrint(n: nat, zeros: bool, c: char, rest: string)
    requires n < 256 && !IsDigit(c)
    ensures NumberThen(PrintThen(n, c, rest), zeros, c) == Some((n, rest))
  {
    PrintIsPlain(n);
    NumberReadsPrint(n, 3, 256, zeros, [c] + rest);
    assert ([c] + rest)[1..] == rest;
  }

  lemma QuadReadsPrint(q: Quad, zeros: bool, rest: string)
    requires IsQuad(q) && NoDigitFirst(rest)
    ensures ReadQuad(PrintQuad(q, rest), zeros) == Some((q, rest))
  {
    var d := Print(q.3) + rest;
    var c := PrintThen(q.2, '.', d);
    NumberThenReadsPrint(q.0, zeros, '.', PrintThen(q.1, '.', c));
    NumberThenReadsPrint(q.1, zeros, '.', c);
    NumberThenReadsPrint(q.2, zeros, '.', d);
    PrintIsPlain(q.3);
    NumberReadsPrint(q.3, 3, 256, zeros, rest);
  }

  lemma AddressReadsPrint(a: nat)
    requires a < 0x1_0000_0000
    ensures ParseAddress(PrintAddress(a)) == Some(a)
  {
    QuadRoundTrip(a);
    QuadReadsPrint(QuadOf(a), false, []);
  }

  // ----- Reading, then printing -----

  lemma {:induction false} PrintOfValue(s: string)
    requires s != [] && AllDigits(s) && (|s| > 1 ==> s[0] != '0')
    ensures Print(Value(s)) == s && (s[0] != '0' ==> Value(s) > 0)
  {
    var front, last := s[..|s| - 1], s[|s| - 1];
    if front == [] {
      assert s == [last] && Value(front) == 0;
    } else {
      PrintOfValue(front);
      assert Value(s) / 10 == Value(front) && Value(s) % 10 == DigitValue(last);
      assert s == front + [last];
    }
  }

  lemma NumberIsPrint(s: string, maxDigits: nat, limit: nat)
    requires Number(s, maxDigits, limit, false).Some?
    ensures var (n, rest) := Number(s, maxDigits, limit, false).value; s == Print(n) + rest && n < limit
  {
    RunIsDigits(s);
    PrintOfValue(s[..Run(s)]);
  }

  lemma NumberThenIsPrint(s: string, c: char)
    requires NumberThen(s, false, c).Some?
    ensures var (n, rest) := NumberThen(s, false, c).value; s == PrintThen(n, c, rest) && n < 256
  {
    NumberIsPrint(s, 3, 256);
    var rest := Number(s, 3, 256, false).value.1;
    assert rest == [c] + rest[1..];
  }

  // An address has one text.
  lemma AddressPrintsRead(s: string)
    requires ParseAddress(s).Some?
    ensures ParseAddress(s).value < 0x1_0000_0000 && PrintAddress(ParseAddress(s).value) == s
  {
    var a := NumberThen(s, false, '.').value;
    var b := NumberThen(a.1, false, '.').value;
    var c := NumberThen(b.1, false, '.').value;
    var d := Number(c.1, 3, 256, false).value;
    NumberThenIsPrint(s, '.');
    NumberThenIsPrint(a.1, '.');
    NumberThenIsPrint(b.1, '.');
    NumberIsPrint(c.1, 3, 256);
    AddressRoundTrip((a.0, b.0, c.0, d.0));
    assert c.1 == Print(d.0) + [];
    assert s == PrintQuad((a.0, b.0, c.0, d.0), []);
  }
}
