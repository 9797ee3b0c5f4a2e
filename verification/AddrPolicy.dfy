/** Which addresses a node is willing to talk to (dht.rs). */
module AddrPolicy {
  import opened Bytes

  type Segment = n: int | 0 <= n < 0x1_0000

  datatype Ip =
    | V4(a: byte, b: byte, c: byte, d: byte)
    | V6(s0: Segment, s1: Segment, s2: Segment, s3: Segment, s4: Segment, s5: Segment, s6: Segment, s7: Segment)

  datatype Policy = PublicOnly | AllowPrivate

  predicate ContactablePort(port: nat) {
    port >= 1024
  }

  predicate Unspecified(ip: Ip) {
    ip == V4(0, 0, 0, 0) || ip == V6(0, 0, 0, 0, 0, 0, 0, 0)
  }

  predicate Broadcast(ip: Ip) {
    ip == V4(255, 255, 255, 255)
  }

  predicate Multicast(ip: Ip) {
    match ip
    case V4(a, _, _, _) => 224 <= a < 240
    case V6(s0, _, _, _, _, _, _, _) => s0 >= 0xff00
  }

  predicate RoutableV4(a: byte, b: byte, c: byte, d: byte) {
    var loopback := a == 127;
    var private_ := a == 10 || (a == 172 && 16 <= b < 32) || (a == 192 && b == 168);
    var linkLocal := a == 169 && b == 254;
    var documentation := (a == 192 && b == 0 && c == 2) || (a == 198 && b == 51 && c == 100) || (a == 203 && b == 0 && c == 113);
    var thisNetwork := a == 0;
    var sharedNat := a == 100 && 64 <= b < 128;
    var benchmarking := a == 198 && (b == 18 || b == 19);
    var multicast := 224 <= a < 240;
    var reserved := a >= 240;
    !(loopback || private_ || linkLocal || documentation || thisNetwork || sharedNat || benchmarking || multicast || reserved)
  }

  /** An IPv4-mapped address is judged as the IPv4 address it stands for. */
  predicate Routable(ip: Ip) {
    match ip
    case V4(a, b, c, d) => RoutableV4(a, b, c, d)
    case V6(s0, s1, s2, s3, s4, s5, s6, s7) =>
      if s0 == 0 && s1 == 0 && s2 == 0 && s3 == 0 && s4 == 0 && s5 == 0xffff then
        RoutableV4(s6 / 256, s6 % 256, s7 / 256, s7 % 256)
      else
        var uniqueLocal := 0xfc00 <= s0 < 0xfe00;
        var linkLocal := 0xfe80 <= s0 < 0xfec0;
        var documentation := s0 == 0x2001 && s1 == 0x0db8;
        var discard := s0 == 0x0100 && s1 == 0 && s2 == 0 && s3 == 0;
        var embeddedV4 := s0 == 0 && s1 == 0 && s2 == 0 && s3 == 0 && s4 == 0 && s5 == 0;
        !(Multicast(ip) || uniqueLocal || linkLocal || documentation || discard || embeddedV4)
  }

  predicate AcceptsIp(policy: Policy, ip: Ip) {
    match policy
    case PublicOnly => Routable(ip)
    case AllowPrivate => !(Unspecified(ip) || Multicast(ip) || Broadcast(ip))
  }

  predicate Accepts(policy: Policy, ip: Ip, port: nat) {
    ContactablePort(port) && AcceptsIp(policy, ip)
  }

  /** A block of IPv4 addresses: the `2^free` from `base` on. */
  datatype Block = Block(base: (byte, byte, byte, byte), free: nat)

  /** The blocks of RFC 6890 and its companions that the strict policy keeps out. */
  const SPECIAL: seq<Block> := [
    Block((0, 0, 0, 0), 24), Block((10, 0, 0, 0), 24), Block((100, 64, 0, 0), 22), Block((127, 0, 0, 0), 24),
    Block((169, 254, 0, 0), 16), Block((172, 16, 0, 0), 20), Block((192, 0, 2, 0), 8), Block((192, 168, 0, 0), 16),
    Block((198, 18, 0, 0), 17), Block((198, 51, 100, 0), 8), Block((203, 0, 113, 0), 8),
    Block((224, 0, 0, 0), 28), Block((240, 0, 0, 0), 28)]

  function Number(a: byte, b: byte, c: byte, d: byte): nat {
    ((a * 256 + b) * 256 + c) * 256 + d
  }

  function TwoTo(n: nat): (p: nat)
    ensures p > 0
  {
    if n == 0 then 1 else 2 * TwoTo(n - 1)
  }

  predicate InBlock(a: byte, b: byte, c: byte, d: byte, k: Block) {
    var first := Number(k.base.0, k.base.1, k.base.2, k.base.3);
    first <= Number(a, b, c, d) < first + TwoTo(k.free)
  }

  lemma Powers()
    ensures TwoTo(8) == 256 && TwoTo(16) == 0x1_0000 && TwoTo(17) == 0x2_0000 && TwoTo(20) == 0x10_0000
    ensures TwoTo(22) == 0x40_0000 && TwoTo(24) == 0x100_0000 && TwoTo(28) == 0x1000_0000
  {
    assert TwoTo(4) == 16;
    assert TwoTo(8) == 256;
    assert TwoTo(12) == 0x1000;
    assert TwoTo(16) == 0x1_0000;
    assert TwoTo(20) == 0x10_0000;
    assert TwoTo(24) == 0x100_0000;
  }

  /** The IPv4-mapped and the IPv4-compatible spelling of an IPv4 address. */
  function Mapped(a: byte, b: byte, c: byte, d: byte): Ip {
    V6(0, 0, 0, 0, 0, 0xffff, a * 256 + b, c * 256 + d)
  }

  function Compatible(a: byte, b: byte, c: byte, d: byte): Ip {
    V6(0, 0, 0, 0, 0, 0, a * 256 + b, c * 256 + d)
  }

  /** Block by block in dotted form. */
  predicate Listed(a: byte, b: byte, c: byte, i: nat) {
    match i
    case 0 => a == 0
    case 1 => a == 10
    case 2 => a == 100 && 64 <= b < 128
    case 3 => a == 127
    case 4 => a == 169 && b == 254
    case 5 => a == 172 && 16 <= b < 32
    case 6 => a == 192 && b == 0 && c == 2
    case 7 => a == 192 && b == 168
    case 8 => a == 198 && 18 <= b < 20
    case 9 => a == 198 && b == 51 && c == 100
    case 10 => a == 203 && b == 0 && c == 113
    case 11 => 224 <= a < 240
    case _ => 240 <= a
  }

  lemma BlockIff(a: byte, b: byte, c: byte, d: byte, i: nat)
    requires i < |SPECIAL|
    ensures InBlock(a, b, c, d, SPECIAL[i]) <==> Listed(a, b, c, i)
  {
    Powers();
    assert SPECIAL[i].base.3 == 0;
  }

  /** The strict policy accepts an IPv4 address if and only if it is in none of the blocks. */
  lemma RoutableIff(a: byte, b: byte, c: byte, d: byte)
    ensures AcceptsIp(PublicOnly, V4(a, b, c, d)) <==> forall i :: 0 <= i < |SPECIAL| ==> !InBlock(a, b, c, d, SPECIAL[i])
  {
    forall i | 0 <= i < |SPECIAL| ensures InBlock(a, b, c, d, SPECIAL[i]) <==> Listed(a, b, c, i) {
      BlockIff(a, b, c, d, i);
    }
    var blocks := |SPECIAL|;
    assert (forall i :: 0 <= i < blocks ==> !Listed(a, b, c, i)) <==> RoutableV4(a, b, c, d) by {
      assert forall i :: 0 <= i < 13 ==> (Listed(a, b, c, i) ==> !RoutableV4(a, b, c, d));
      if !RoutableV4(a, b, c, d) {
        var i := Where(a, b, c, d);
      }
    }
  }

  lemma Where(a: byte, b: byte, c: byte, d: byte) returns (i: nat)
    requires !RoutableV4(a, b, c, d)
    ensures i < 13 && Listed(a, b, c, i)
  {
    i := if a == 0 then 0 else if a == 10 then 1 else if a == 100 then 2 else if a == 127 then 3 else if a == 169 then 4
         else if a == 172 then 5 else if a == 192 then (if b == 168 then 7 else 6)
         else if a == 198 then (if b == 51 then 9 else 8) else if a == 203 then 10 else if a < 240 then 11 else 12;
  }

  /** A block of IPv6 networks: the `2^free` upper halves from the one that begins with these
      two segments. */
  datatype Block6 = Block6(s0: Segment, s1: Segment, free: nat)

  /** Multicast, unique local, link local, documentation and discard. */
  const SPECIAL6: seq<Block6> :=
    [Block6(0xff00, 0, 56), Block6(0xfc00, 0, 57), Block6(0xfe80, 0, 54), Block6(0x2001, 0x0db8, 32), Block6(0x0100, 0, 0)]

  const W: nat := 0x1_0000

  function Upper(s0: Segment, s1: Segment, s2: Segment, s3: Segment): nat {
    ((s0 * W + s1) * W + s2) * W + s3
  }

  predicate InBlock6(ip: Ip, k: Block6)
    requires ip.V6?
  {
    var first := Upper(k.s0, k.s1, 0, 0);
    first <= Upper(ip.s0, ip.s1, ip.s2, ip.s3) < first + TwoTo(k.free)
  }

  lemma {:induction false} DoubledBy(m: nat, n: nat)
    ensures TwoTo(m + n) == TwoTo(m) * TwoTo(n)
  {
    if n > 0 {
      DoubledBy(m, n - 1);
    }
  }

  lemma Powers6()
    ensures TwoTo(0) == 1 && TwoTo(32) == 0x1_0000_0000 && TwoTo(54) == 0x40_0000_0000_0000
    ensures TwoTo(56) == 0x100_0000_0000_0000 && TwoTo(57) == 0x200_0000_0000_0000
  {
    Powers();
    DoubledBy(16, 16);
    DoubledBy(32, 22);
    DoubledBy(32, 24);
    assert TwoTo(57) == 2 * TwoTo(56);
  }

  /** Block by block in segments. */
  predicate Listed6(ip: Ip, i: nat)
    requires ip.V6?
  {
    match i
    case 0 => 0xff00 <= ip.s0
    case 1 => 0xfc00 <= ip.s0 < 0xfe00
    case 2 => 0xfe80 <= ip.s0 < 0xfec0
    case 3 => ip.s0 == 0x2001 && ip.s1 == 0x0db8
    case _ => ip.s0 == 0x0100 && ip.s1 == 0 && ip.s2 == 0 && ip.s3 == 0
  }

  /** The upper half by its first one and its first two segments. */
  lemma UpperSplits(s0: Segment, s1: Segment, s2: Segment, s3: Segment) returns (x: nat, y: nat)
    ensures Upper(s0, s1, s2, s3) == s0 * 0x1_0000_0000_0000 + x && x < 0x1_0000_0000_0000
    ensures Upper(s0, s1, s2, s3) == (s0 * 0x1_0000 + s1) * 0x1_0000_0000 + y && y < 0x1_0000_0000
    ensures y == 0 <==> s2 == 0 && s3 == 0
  {
    x, y := (s1 * W + s2) * W + s3, s2 * W + s3;
  }

  lemma TopBlock(ip: Ip, i: nat)
    requires ip.V6? && i < 3
    ensures InBlock6(ip, SPECIAL6[i]) <==> Listed6(ip, i)
  {
    Powers6();
    var x, _ := UpperSplits(ip.s0, ip.s1, ip.s2, ip.s3);
    assert Upper(SPECIAL6[i].s0, 0, 0, 0) == SPECIAL6[i].s0 * 0x1_0000_0000_0000;
  }

  lemma LowBlock(ip: Ip, i: nat)
    requires ip.V6? && 3 <= i < |SPECIAL6|
    ensures InBlock6(ip, SPECIAL6[i]) <==> Listed6(ip, i)
  {
    Powers6();
    var _, y := UpperSplits(ip.s0, ip.s1, ip.s2, ip.s3);
    var k := SPECIAL6[i];
    assert Upper(k.s0, k.s1, 0, 0) == (k.s0 * 0x1_0000 + k.s1) * 0x1_0000_0000;
  }

  lemma Block6Iff(ip: Ip, i: nat)
    requires ip.V6? && i < |SPECIAL6|
    ensures InBlock6(ip, SPECIAL6[i]) <==> Listed6(ip, i)
  {
    if i < 3 {
      TopBlock(ip, i);
    } else {
      LowBlock(ip, i);
    }
  }

  /** The strict policy accepts an IPv6 address that stands for no IPv4 one if and only if it
      is in none of the blocks and does not embed an IPv4 address in its last two segments. */
  lemma Routable6Iff(ip: Ip)
    requires ip.V6? && !(ip.s0 == 0 && ip.s1 == 0 && ip.s2 == 0 && ip.s3 == 0 && ip.s4 == 0 && ip.s5 == 0xffff)
    ensures AcceptsIp(PublicOnly, ip) <==>
      && (forall i :: 0 <= i < |SPECIAL6| ==> !InBlock6(ip, SPECIAL6[i]))
      && (Upper(ip.s0, ip.s1, ip.s2, ip.s3) != 0 || ip.s4 != 0 || ip.s5 != 0)
  {
    forall i | 0 <= i < |SPECIAL6| ensures InBlock6(ip, SPECIAL6[i]) <==> Listed6(ip, i) {
      Block6Iff(ip, i);
    }
    assert Upper(ip.s0, ip.s1, ip.s2, ip.s3) == 0 <==> ip.s0 == 0 && ip.s1 == 0 && ip.s2 == 0 && ip.s3 == 0;
    assert forall i :: 0 <= i < 5 ==> (Listed6(ip, i) ==> !Routable(ip));
    if !Routable(ip) && !(Upper(ip.s0, ip.s1, ip.s2, ip.s3) == 0 && ip.s4 == 0 && ip.s5 == 0) {
      assert Listed6(ip, 0) || Listed6(ip, 1) || Listed6(ip, 2) || Listed6(ip, 3) || Listed6(ip, 4);
    }
  }

  /** Under the strict policy an IPv4 address gains nothing by being spelled as IPv6: the
      mapped spelling is judged like the address, the compatible one is refused. */
  lemma NoSecondSpelling(a: byte, b: byte, c: byte, d: byte)
    ensures AcceptsIp(PublicOnly, Mapped(a, b, c, d)) <==> AcceptsIp(PublicOnly, V4(a, b, c, d))
    ensures !AcceptsIp(PublicOnly, Compatible(a, b, c, d))
  {
    assert (a * 256 + b) / 256 == a && (a * 256 + b) % 256 == b;
    assert (c * 256 + d) / 256 == c && (c * 256 + d) % 256 == d;
  }

  /** The permissive policy looks at the spelling only: both IPv6 spellings get in (but for
      `::` itself), so an IPv4 address is judged differently from its mapped spelling exactly
      when it is unspecified, multicast or broadcast. */
  lemma PermissiveSpellings(a: byte, b: byte, c: byte, d: byte)
    ensures AcceptsIp(AllowPrivate, Mapped(a, b, c, d))
    ensures AcceptsIp(AllowPrivate, Compatible(a, b, c, d)) <==> (a, b, c, d) != (0, 0, 0, 0)
    ensures AcceptsIp(AllowPrivate, Mapped(a, b, c, d)) != AcceptsIp(AllowPrivate, V4(a, b, c, d))
       <==> (a, b, c, d) == (0, 0, 0, 0) || 224 <= a < 240 || (a, b, c, d) == (255, 255, 255, 255)
  {
  }

  /** The strict policy accepts nothing that the permissive one refuses. */
  lemma StrictIsStricter(ip: Ip, port: nat)
    ensures Accepts(PublicOnly, ip, port) ==> Accepts(AllowPrivate, ip, port)
  {
  }
}
