/** The IPv4 addresses of simulated nodes. */
module KwokAddress {
  import opened Common
  import opened Text

  datatype Octets = Octets(a: int, b: int, c: int, d: int)

  predicate IsOctet(x: int) {
    0 <= x <= 255
  }

  predicate Valid(o: Octets) {
    IsOctet(o.a) && IsOctet(o.b) && IsOctet(o.c) && IsOctet(o.d)
  }

  const LIMIT := 0x1_0000_0000

  /** The 32-bit number an address encodes. */
  function Number(o: Octets): int {
    ((o.a * 256 + o.b) * 256 + o.c) * 256 + o.d
  }

  datatype AddressError = OutOfRange

  /** `_generate_node_ip`, up to the final formatting: mixed-radix addition with carries. */
  method GenerateNodeIp(index: int, base: Octets) returns (r: Result<Octets, AddressError>)
    requires Valid(base)
    ensures r.Ok? <==> Number(base) + index < LIMIT
    ensures r.Ok? ==> Number(r.value) == Number(base) + index
    ensures r.Ok? ==>
      r.value.a * 16777216 + r.value.b * 65536 + r.value.c * 256 + r.value.d ==
      base.a * 16777216 + base.b * 65536 + base.c * 256 + base.d + index
    ensures r.Err? ==> base.a * 16777216 + base.b * 65536 + base.c * 256 + base.d + index >= 4294967296
    ensures r.Ok? && Number(base) + index >= 0 ==> Valid(r.value)
  {
    var a, b, c, d := base.a, base.b, base.c, base.d;
    var total := d + index;
    c := c + total / 256;
    d := total % 256;
    b := b + c / 256;
    c := c % 256;
    a := a + b / 256;
    b := b % 256;
    if a > 255 || b > 255 || c > 255 || d > 255 {
      return Err(OutOfRange);
    }
    r := Ok(Octets(a, b, c, d));
  }

  lemma NumberIsInjective(o: Octets, o': Octets)
    requires Valid(o) && Valid(o') && Number(o) == Number(o')
    ensures o == o'
  {
  }

  /** The textual form of an address. */
  datatype Address = Address(text: string)

  function Dotted(o: Octets): Address
    requires Valid(o)
  {
    Address(Join([Decimal(o.a), Decimal(o.b), Decimal(o.c), Decimal(o.d)], '.'))
  }

  /** The octets are written from the first to the last, between dots. */
  lemma DottedIs(o: Octets)
    requires Valid(o)
    ensures Dotted(o).text ==
      Decimal(o.a) + ['.'] + (Decimal(o.b) + ['.'] + (Decimal(o.c) + ['.'] + Decimal(o.d)))
  {
    var a, b, c, d := Decimal(o.a), Decimal(o.b), Decimal(o.c), Decimal(o.d);
    JoinCons(c, [d], '.');
    JoinCons(b, [c] + [d], '.');
    JoinCons(a, [b] + ([c] + [d]), '.');
    assert [a] + ([b] + ([c] + [d])) == [a, b, c, d];
  }

  /** `dec-octet` of section 3.2.2 of RFC 3986: at most 255, without leading zeros. */
  predicate DecOctet(s: string) {
    s != "" && AllDigits(s) && Value(s) <= 255 && (s[0] == '0' ==> |s| == 1)
  }

  /** `IPv4address` of section 3.2.2 of RFC 3986. */
  function ParseDotted(t: Address): Option<Octets> {
    var p := Split(t.text, '.');
    if |p| == 4 && DecOctet(p[0]) && DecOctet(p[1]) && DecOctet(p[2]) && DecOctet(p[3]) then
      Some(Octets(Value(p[0]), Value(p[1]), Value(p[2]), Value(p[3])))
    else None
  }

  lemma DecimalIsDecOctet(n: nat)
    requires n <= 255
    ensures DecOctet(Decimal(n)) && Value(Decimal(n)) == n && '.' !in Decimal(n)
  {
    ValueOfDecimal(n);
  }

  /** The dotted form is well formed and parses back. */
  lemma ParseOfDotted(o: Octets)
    requires Valid(o)
    ensures ParseDotted(Dotted(o)) == Some(o)
  {
    DecimalIsDecOctet(o.a);
    DecimalIsDecOctet(o.b);
    DecimalIsDecOctet(o.c);
    DecimalIsDecOctet(o.d);
    SplitJoin([Decimal(o.a), Decimal(o.b), Decimal(o.c), Decimal(o.d)], '.');
  }

  /** The octets of a 32-bit number. */
  function OctetsOf(n: nat): (o: Octets)
    requires n < LIMIT
    ensures Valid(o) && Number(o) == n
  {
    var high := n / 256;
    var higher := high / 256;
    Octets(higher / 256, higher % 256, high % 256, n % 256)
  }

  /** Different addresses have different dotted forms. */
  lemma DottedIsInjective(o: Octets, o': Octets)
    requires Valid(o) && Valid(o') && Dotted(o) == Dotted(o')
    ensures o == o'
  {
    ParseOfDotted(o);
    ParseOfDotted(o');
  }

  /** The addresses of the first nodes, in order. */
  ghost predicate Consecutive(addresses: seq<Octets>, first: nat) {
    first + |addresses| <= LIMIT && forall i :: 0 <= i < |addresses| ==> addresses[i] == OctetsOf(first + i)
  }

  lemma ConsecutiveAddressesDiffer(addresses: seq<Octets>, first: nat, i: nat, j: nat)
    requires Consecutive(addresses, first) && i < j < |addresses|
    ensures Valid(addresses[i]) && Valid(addresses[j]) && addresses[i] != addresses[j]
  {
    assert Number(addresses[i]) == first + i && Number(addresses[j]) == first + j;
  }

  /** The addresses of the nodes that the loop of `create` creates: consecutive, hence all different.
      When the address space runs out the loop raises, after the nodes that fit have been created. */
  method NodeAddresses(nodeCount: int, base: Octets) returns (addresses: seq<Octets>, raised: bool)
    requires Valid(base)
    ensures |addresses| == Max(0, Min(nodeCount, LIMIT - Number(base))) && Consecutive(addresses, Number(base))
    ensures raised <==> Number(base) + Max(0, nodeCount) > LIMIT
  {
    addresses := [];
    ghost var first := Number(base);
    for i := 0 to Max(0, nodeCount)
      invariant |addresses| == i && 0 <= first < LIMIT && Consecutive(addresses, first)
    {
      var ip := GenerateNodeIp(i, base);
      if ip.Err? {
        return addresses, true;
      }
      NumberIsInjective(ip.value, OctetsOf(first + i));
      addresses := addresses + [ip.value];
    }
    raised := false;
  }
}
