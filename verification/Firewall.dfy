/** The packet filter: rules, the trie key both halves build, and the decision. */
module Firewall {
  import opened Basics
  import opened Bits

  datatype Family = IPv4 | IPv6

  function Octets(f: Family): nat { if f.IPv4? then 4 else 16 }

  function TypeByte(f: Family): byte { if f.IPv4? then 4 else 6 }

  datatype RawAddress = Address(family: Family, bytes: seq<byte>)

  type Address = a: RawAddress | |a.bytes| == Octets(a.family) witness Address(IPv4, [0, 0, 0, 0])

  /** A network as written: the address may have host bits set. */
  datatype RawNet = Net(address: Address, prefix: nat)

  type Net = n: RawNet | n.prefix <= 8 * Octets(n.address.family) witness Net(Address(IPv4, [0, 0, 0, 0]), 0)

  function HostBits(n: Net): nat { 8 * Octets(n.address.family) - n.prefix }

  /** CIDR membership: same family, and equal after dividing away the host part. */
  predicate Contains(n: Net, a: Address) {
    && a.family == n.address.family
    && Value(a.bytes) / Pow2(HostBits(n)) == Value(n.address.bytes) / Pow2(HostBits(n))
  }

  /** The largest multiple of `m` up to `v`. */
  function Floor(v: nat, m: nat): (r: nat)
    requires m > 0
    ensures r <= v
  {
    v - v % m
  }

  /** The network address: host bits cleared. */
  function Network(n: Net): (r: Address)
    ensures r.family == n.address.family
  {
    Address(n.address.family, ToBytes(Floor(Value(n.address.bytes), Pow2(HostBits(n))), Octets(n.address.family)))
  }

  /** The 17 bytes of trie data both halves fill: type, address, zero padding. */
  function KeyData(a: Address): (r: seq<byte>)
    ensures |r| == 17
  {
    [TypeByte(a.family)] + a.bytes + seq(16 - |a.bytes|, _ => 0)
  }

  /** Where the fields of the key lie. */
  lemma KeyLayout(a: Address)
    ensures KeyData(a)[0] == (if a.family.IPv4? then 4 else 6) && KeyData(a)[1..1 + |a.bytes|] == a.bytes
    ensures forall i :: 1 + |a.bytes| <= i < 17 ==> KeyData(a)[i] == 0
  {
  }

  /** A trie entry is identified by the bits its prefix length covers. */
  type Trie = map<BitString, byte>

  /** The user-space key: eight more bits than the rule, for the type byte. */
  function RuleKey(n: Net): BitString { ByteBits(KeyData(Network(n)))[..n.prefix + 8] }

  /** The kernel key: 40 bits for IPv4, 136 for IPv6. */
  function PacketKey(a: Address): BitString { ByteBits(KeyData(a))[..if a.family.IPv4? then 40 else 136] }

  /** Longest-prefix lookup. */
  function Lookup(t: Trie, key: BitString): Option<byte> {
    if key in t then Some(t[key])
    else if key == [] then None
    else Lookup(t, key[..|key| - 1])
  }

  /** The lookup finds the value of the longest stored prefix of the key, if there is one. */
  lemma {:induction false} LookupIsLongest(t: Trie, key: BitString)
    ensures Lookup(t, key).Some? <==> exists k :: k in t && k <= key
    ensures Lookup(t, key).Some? ==>
              exists k :: k in t && k <= key && Lookup(t, key) == Some(t[k])
                          && forall j :: j in t && j <= key ==> |j| <= |k|
  {
    if key in t {
      assert key <= key;
    } else if key != [] {
      var short := key[..|key| - 1];
      LookupIsLongest(t, short);
      forall k | k in t
        ensures k <= key <==> k <= short
      {
        assert k <= key && |k| == |key| ==> k == key;
      }
    }
  }

  datatype Verdict = Drop | Pass

  // The packet program. `little` is the byte order of the machine it runs on.

  function LoadU16(p: seq<byte>, at: nat, little: bool): nat
    requires at + 2 <= |p|
  {
    var a: nat, b: nat := p[at], p[at + 1];
    if little then a + 256 * b else 256 * a + b
  }

  function FromBe(x: nat, little: bool): nat { if little then x % 256 * 256 + x / 256 else x }

  /** `None` is the program's error return, which passes the packet. */
  function TryFirewall(p: seq<byte>, t: Trie, little: bool): Option<Verdict> {
    if 14 > |p| then None
    else
      var proto := LoadU16(p, 12, little);
      if proto == FromBe(0x0800, little) then
        if 14 + 20 > |p| then None
        else if p[14 + 9] != 6 then Some(Pass)
        else if Lookup(t, PacketKey(Address(IPv4, p[26..30]))).Some? then Some(Drop)
        else Some(Pass)
      else if proto == FromBe(0x86DD, little) then
        if 14 + 40 > |p| then None
        else if p[14 + 6] != 6 then Some(Pass)
        else if Lookup(t, PacketKey(Address(IPv6, p[22..38]))).Some? then Some(Drop)
        else Some(Pass)
      else Some(Pass)
  }

  function Decide(p: seq<byte>, t: Trie, little: bool): Verdict {
    var r := TryFirewall(p, t, little);
    if r.Some? then r.value else Pass
  }

  /** The source of a TCP packet with complete Ethernet and fixed IP headers, said without
      the program: EtherType in network order, protocol 6. */
  function TcpSource(p: seq<byte>): Option<Address> {
    if |p| >= 34 && p[12..14] == [0x08, 0x00] && p[23] == 6 then Some(Address(IPv4, p[26..30]))
    else if |p| >= 54 && p[12..14] == [0x86, 0xDD] && p[20] == 6 then Some(Address(IPv6, p[22..38]))
    else None
  }

  lemma EtherType(p: seq<byte>, little: bool)
    requires |p| >= 14
    ensures LoadU16(p, 12, little) == FromBe(0x0800, little) <==> p[12..14] == [0x08, 0x00]
    ensures LoadU16(p, 12, little) == FromBe(0x86DD, little) <==> p[12..14] == [0x86, 0xDD]
  {
    assert p[12..14] == [p[12], p[13]];
  }

  /** The program looks up exactly the source of a TCP packet. */
  lemma DecideLooksUpSource(p: seq<byte>, t: Trie, little: bool)
    ensures Decide(p, t, little).Drop? <==> TcpSource(p).Some? && Lookup(t, PacketKey(TcpSource(p).value)).Some?
  {
    if |p| >= 14 { EtherType(p, little); }
  }

  // The two keys meet.

  lemma KeySplit(a: Address, n: nat)
    requires n <= 8 * |a.bytes|
    ensures |ByteBits(KeyData(a))| >= n + 8
    ensures ByteBits(KeyData(a))[..n + 8] == ToBits(TypeByte(a.family), OCTET) + ByteBits(a.bytes)[..n]
  {
    var pad := seq(16 - |a.bytes|, _ => 0);
    var head := [TypeByte(a.family)];
    ByteBitsConcat(head + a.bytes, pad);
    ByteBitsConcat(head, a.bytes);
    OneByte(TypeByte(a.family));
  }

  lemma OneByte(b: byte)
    ensures ByteBits([b]) == ToBits(b, OCTET)
  {
    assert [b][..0] == [];
    assert [] + ToBits(b, OCTET) == ToBits(b, OCTET);
  }

  lemma AddressValue(a: Address)
    ensures Number(ByteBits(a.bytes)) == Value(a.bytes) < Pow2(8 * Octets(a.family))
  {
    NumberOfByteBits(a.bytes);
    NumberBound(ByteBits(a.bytes));
  }

  lemma FloorDivides(v: nat, m: nat)
    requires m > 0
    ensures Floor(v, m) / m == v / m
  {
    assert v == v / m * m + v % m;
    DivideUnique(Floor(v, m), m, v / m, 0);
  }

  /** Clearing the host bits does not change the network part. */
  lemma NetworkValue(n: Net)
    ensures Value(Network(n).bytes) / Pow2(HostBits(n)) == Value(n.address.bytes) / Pow2(HostBits(n))
  {
    var v, m := Value(n.address.bytes), Pow2(HostBits(n));
    AddressValue(n.address);
    FloorDivides(v, m);
    ValueOfBytes(Floor(v, m), Octets(n.address.family));
  }

  lemma TypeBitsDiffer(f: Family, g: Family)
    ensures ToBits(TypeByte(f), OCTET) == ToBits(TypeByte(g), OCTET) <==> f == g
  {
    EightBits();
    NumberOfBits(TypeByte(f), OCTET);
    NumberOfBits(TypeByte(g), OCTET);
  }

  /** The first bits of the address bits agree exactly on CIDR members. */
  lemma PrefixIsMembership(n: Net, a: Address)
    requires a.family == n.address.family
    ensures ByteBits(Network(n).bytes)[..n.prefix] == ByteBits(a.bytes)[..n.prefix] <==> Contains(n, a)
  {
    AddressValue(a);
    AddressValue(Network(n));
    NetworkValue(n);
    PrefixByDivision(ByteBits(Network(n).bytes), ByteBits(a.bytes), n.prefix);
  }

  lemma PrefixOfSum(t: BitString, x: BitString, u: BitString, y: BitString)
    requires |t| == |u| && |x| <= |y|
    ensures t + x <= u + y <==> t == u && x == y[..|x|]
  {
    if t + x <= u + y {
      assert t == (t + x)[..|t|] == (u + y)[..|t|] == u;
      assert x == (t + x)[|t|..] == (u + y)[|t|..|t| + |x|] == y[..|x|];
    }
  }

  /** A rule's key is a prefix of a packet's key exactly when the rule's network contains the
      packet's source; families never mix. */
  lemma KeyIsMembership(n: Net, a: Address)
    ensures RuleKey(n) <= PacketKey(a) <==> Contains(n, a)
  {
    var f := n.address.family;
    KeySplit(Network(n), n.prefix);
    KeySplit(a, 8 * Octets(a.family));
    assert ByteBits(a.bytes)[..8 * Octets(a.family)] == ByteBits(a.bytes);
    TypeBitsDiffer(f, a.family);
    if f == a.family {
      PrefixIsMembership(n, a);
      PrefixOfSum(ToBits(TypeByte(f), OCTET), ByteBits(Network(n).bytes)[..n.prefix],
                  ToBits(TypeByte(a.family), OCTET), ByteBits(a.bytes));
    } else {
      DifferentHeads(ToBits(TypeByte(f), OCTET), ByteBits(Network(n).bytes)[..n.prefix],
                     ToBits(TypeByte(a.family), OCTET), ByteBits(a.bytes));
    }
  }

  lemma DifferentHeads(t: BitString, x: BitString, u: BitString, y: BitString)
    requires |t| == |u| && t != u
    ensures !(t + x <= u + y)
  {
    var i :| 0 <= i < |t| && t[i] != u[i];
    assert (t + x)[i] == t[i] && (u + y)[i] == u[i];
  }

  function Keys(nets: set<Net>): set<BitString> { set n | n in nets :: RuleKey(n) }

  /** With a set of rules loaded, a packet is dropped exactly when it is TCP over IP and its
      source lies in one of them. */
  lemma DropIsMembership(p: seq<byte>, t: Trie, nets: set<Net>, little: bool)
    requires t.Keys == Keys(nets)
    ensures Decide(p, t, little).Drop? <==>
              TcpSource(p).Some? && exists n :: n in nets && Contains(n, TcpSource(p).value)
  {
    DecideLooksUpSource(p, t, little);
    if TcpSource(p).Some? {
      var a := TcpSource(p).value;
      forall n | n in nets
        ensures RuleKey(n) in t && (RuleKey(n) <= PacketKey(a) <==> Contains(n, a))
      {
        KeyIsMembership(n, a);
        assert RuleKey(n) in Keys(nets);
      }
      LookupIsLongest(t, PacketKey(a));
      if Lookup(t, PacketKey(a)).Some? {
        var k :| k in t && k <= PacketKey(a);
        var n :| n in nets && RuleKey(n) == k;
        assert Contains(n, a);
      }
    }
  }
}
