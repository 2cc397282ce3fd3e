/** MAP-Me packets byte by byte (lib/src/mapme.c): an Interest Update is an ICMP redirect
    with a sequence number and a prefix length after it; its acknowledgement is made from
    it in place.  Multi-byte fields are stored as on a little-endian host. */
module MapMePacket {
  import opened Lists

  type Byte = x: nat | x < 256

  const WORD := 0x1_0000_0000

  datatype Kind = UNKNOWN | UPDATE | UPDATE_ACK | NOTIFICATION | NOTIFICATION_ACK

  datatype Version = V4 | V6

  /** What a packet says: a prefix, which is a name and a length, and parameters. */
  datatype Info = Info(version: Version, name: seq<Byte>, len: Byte, kind: Kind, sn: nat)

  /** Where the fields are, and the types of update and acknowledgement. */
  datatype Layout = Layout(
    total: nat, src: nat, dst: nat, addr: nat, ttl: nat, typ: nat, csum: nat, sn: nat, len: nat,
    update: Byte, ack: Byte)

  /** The types of acknowledgements have the bits 0x60 besides. */
  function LayoutOf(v: Version): Layout {
    match v
    case V4 => Layout(120, 12, 16, 4, 8, 20, 22, 112, 116, 5, 5 + 0x60)
    case V6 => Layout(88, 8, 24, 16, 7, 40, 42, 80, 84, 137, 137 + 0x60)
  }

  predicate ValidInfo(info: Info) {
    |info.name| == LayoutOf(info.version).addr && info.sn < WORD
  }

  // -------------------------------------------------------------------- byte order

  /** The byte of a 32-bit number that comes `i`-th on the wire. */
  function WireByte(x: nat, i: nat): Byte {
    if i == 0 then x / 0x100_0000 % 256
    else if i == 1 then x / 0x1_0000 % 256
    else if i == 2 then x / 0x100 % 256
    else x % 256
  }

  function FromWire(a: Byte, b: Byte, c: Byte, d: Byte): nat {
    a * 0x100_0000 + b * 0x1_0000 + c * 0x100 + d
  }

  lemma WireRoundTrip(x: nat)
    requires x < WORD
    ensures FromWire(WireByte(x, 0), WireByte(x, 1), WireByte(x, 2), WireByte(x, 3)) == x
  {
    var y := x / 0x100;
    var z := y / 0x100;
    assert x / 0x1_0000 == z;
    assert x / 0x100_0000 == z / 0x100;
  }

  // -------------------------------------------------------------------- create

  predicate Within(i: int, at: nat, n: nat) {
    at <= i < at + n
  }

  /** The bytes that are the same in every packet. */
  function Fixed(v: Version, i: nat): Byte {
    match v
    case V4 => if i == 0 then 0x45 else if i == 2 then 120 else if i == 4 then 1 else if i == 5 then 44
               else if i == 8 then 255 else if i == 9 then 1 else 0
    case V6 => if i == 0 then 0x60 else if i == 5 then 88 - 40 else if i == 6 then 58
               else if i == 7 then 255 else 0
  }

  predicate IsUpdate(k: Kind) {
    k == UPDATE || k == NOTIFICATION
  }

  /** Byte `i` of the packet. */
  function PacketByte(info: Info, i: nat): Byte
    requires ValidInfo(info)
  {
    var l := LayoutOf(info.version);
    if Within(i, l.dst, l.addr) then info.name[i - l.dst]
    else if i == l.typ then (if IsUpdate(info.kind) then l.update else l.ack)
    else if info.version == V4 && Within(i, 24, 4) then info.name[i - 24]
    else if info.version == V6 && Within(i, 48, 16) then info.name[i - 48]
    else if info.version == V6 && Within(i, 64, 16) then info.name[i - 64]
    else if Within(i, l.sn, 4) then WireByte(info.sn, i - l.sn)
    else if i == l.len then info.len
    else Fixed(info.version, i)
  }

  function Create(info: Info): (p: seq<Byte>)
    requires ValidInfo(info)
  {
    seq(LayoutOf(info.version).total, i requires i >= 0 => PacketByte(info, i))
  }

  // -------------------------------------------------------------------- parse

  function VersionOf(p: seq<Byte>): Option<Version>
    requires p != []
  {
    if p[0] / 16 == 4 then Some(V4) else if p[0] / 16 == 6 then Some(V6) else None
  }

  /** The packet has all the fields of its version. */
  predicate Long(p: seq<Byte>) {
    p != [] && match VersionOf(p) case Some(v) => LayoutOf(v).total <= |p| case None => true
  }

  predicate TypeIsUpdate(b: Byte) {
    b == 5 || b == 137
  }

  function Parse(p: seq<Byte>): Option<Info>
    requires Long(p)
  {
    match VersionOf(p)
    case None => None
    case Some(v) =>
      var l := LayoutOf(v);
      var at := if TypeIsUpdate(p[l.typ]) then l.dst else l.src;
      var kind := if p[l.typ] == l.update then UPDATE else UPDATE_ACK;
      Some(Info(v, p[at..at + l.addr], p[l.len], kind, FromWire(p[l.sn], p[l.sn + 1], p[l.sn + 2], p[l.sn + 3])))
  }

  // ------------------------------------------------------------------------ ack

  /** Byte `i` once the first `k` bytes of the addresses are swapped. */
  function SwapByte(l: Layout, p: seq<Byte>, k: nat, i: nat): Byte
    requires k <= l.addr && l.src + l.addr <= |p| && l.dst + l.addr <= |p| && i < |p|
  {
    if Within(i, l.src, k) then p[i - l.src + l.dst]
    else if Within(i, l.dst, k) then p[i - l.dst + l.src]
    else p[i]
  }

  /** The acknowledgement of a packet: addresses swapped, hop limit, type and checksum
      set, everything else as it was. */
  function AckByte(l: Layout, p: seq<Byte>, i: nat): Byte
    requires l.src + l.addr <= |p| && l.dst + l.addr <= |p| && i < |p|
  {
    if i == l.ttl then 255
    else if i == l.typ then l.ack
    else if Within(i, l.csum, 2) then 0
    else SwapByte(l, p, l.addr, i)
  }

  function AckOf(v: Version, p: seq<Byte>): (q: seq<Byte>)
    requires LayoutOf(v).total <= |p|
    ensures |q| == |p|
  {
    seq(|p|, i requires 0 <= i < |p| => AckByte(LayoutOf(v), p, i))
  }

  // -------------------------------------------------------------------- round trips

  lemma CreatedVersion(info: Info)
    requires ValidInfo(info)
    ensures Long(Create(info)) && VersionOf(Create(info)) == Some(info.version)
  {
    assert Create(info)[0] == PacketByte(info, 0);
  }

  lemma CreatedNumber(info: Info)
    requires ValidInfo(info)
    ensures var p := Create(info); var at := LayoutOf(info.version).sn;
      at + 4 <= |p| && FromWire(p[at], p[at + 1], p[at + 2], p[at + 3]) == info.sn
  {
    hide FromWire, WireByte;
    WireRoundTrip(info.sn);
  }

  lemma CreatedAddresses(info: Info)
    requires ValidInfo(info)
    ensures var p := Create(info); var l := LayoutOf(info.version);
      && l.total <= |p| && p[l.dst..l.dst + l.addr] == info.name
      && p[l.src..l.src + l.addr] == seq(l.addr, _ => 0)
  {
    hide WireByte;
    var p, l := Create(info), LayoutOf(info.version);
    assert forall i | l.dst <= i < l.dst + l.addr :: p[i] == info.name[i - l.dst];
    assert forall i | l.src <= i < l.src + l.addr :: p[i] == 0;
  }

  /** Where everything is in a version 4 packet. */
  lemma FieldsOfV4(info: Info)
    requires ValidInfo(info) && info.version == V4
    ensures var p := Create(info);
      && |p| == 120 && p[..12] == [0x45, 0, 120, 0, 1, 44, 0, 0, 255, 1, 0, 0]
      && p[12..16] == [0, 0, 0, 0] && p[16..20] == info.name
      && p[20] == (if info.kind in {UPDATE, NOTIFICATION} then 5 else 101) && p[21..24] == [0, 0, 0] && p[24..28] == info.name
      && (forall i | 28 <= i < 112 || 117 <= i < 120 :: p[i] == 0)
      && p[112] as int * 0x100_0000 + p[113] as int * 0x1_0000 + p[114] as int * 0x100 + p[115] as int == info.sn && p[116] == info.len
  {
    hide WireByte;
    CreatedNumber(info);
    CreatedAddresses(info);
    var p := Create(info);
    assert forall i | 24 <= i < 28 :: p[i] == info.name[i - 24];
  }

  /** And in a version 6 packet. */
  lemma FieldsOfV6(info: Info)
    requires ValidInfo(info) && info.version == V6
    ensures var p := Create(info);
      && |p| == 88 && p[..8] == [0x60, 0, 0, 0, 0, 48, 58, 255]
      && (forall i | 8 <= i < 24 :: p[i] == 0) && p[24..40] == info.name
      && p[40] == (if info.kind in {UPDATE, NOTIFICATION} then 137 else 233) && p[41..48] == [0, 0, 0, 0, 0, 0, 0]
      && p[48..64] == info.name && p[64..80] == info.name
      && p[80] as int * 0x100_0000 + p[81] as int * 0x1_0000 + p[82] as int * 0x100 + p[83] as int == info.sn && p[84..] == [info.len, 0, 0, 0]
  {
    hide WireByte;
    CreatedNumber(info);
    CreatedAddresses(info);
    var p := Create(info);
    assert forall i | 48 <= i < 64 :: p[i] == info.name[i - 48];
    assert forall i | 64 <= i < 80 :: p[i] == info.name[i - 64];
  }

  /** What the acknowledgement of a packet differs in. */
  lemma AckFields(v: Version, p: seq<Byte>)
    requires LayoutOf(v).total <= |p|
    ensures var q := AckOf(v, p);
      match v
      case V4 =>
        && q[..8] == p[..8] && q[8] == 255 && q[9..12] == p[9..12] && q[12..16] == p[16..20] && q[16..20] == p[12..16]
        && q[20] == 101 && q[21] == p[21] && q[22..24] == [0, 0] && q[24..] == p[24..]
      case V6 =>
        && q[..7] == p[..7] && q[7] == 255 && q[8..24] == p[24..40] && q[24..40] == p[8..24]
        && q[40] == 233 && q[41] == p[41] && q[42..44] == [0, 0] && q[44..] == p[44..]
  {
  }

  /** Parsing a packet gives what it was made from; only an acknowledgement made this
      way has lost its name, and notifications read as updates. */
  lemma CreateThenParse(info: Info)
    requires ValidInfo(info)
    ensures Long(Create(info))
    ensures Parse(Create(info)) ==
      Some(if IsUpdate(info.kind) then info.(kind := UPDATE)
           else info.(kind := UPDATE_ACK, name := seq(LayoutOf(info.version).addr, _ => 0)))
  {
    hide WireByte, FromWire;
    CreatedVersion(info);
    CreatedNumber(info);
    CreatedAddresses(info);
    var p, l := Create(info), LayoutOf(info.version);
    assert p[l.typ] == PacketByte(info, l.typ);
    assert p[l.len] == PacketByte(info, l.len);
  }

  /** A made packet reads back exactly if it is an update, or an acknowledgement for the
      zero name. */
  lemma ReadsBackIff(info: Info)
    requires ValidInfo(info)
    ensures Long(Create(info))
    ensures Parse(Create(info)) == Some(info) <==>
      info.kind == UPDATE || (info.kind == UPDATE_ACK && info.name == seq(LayoutOf(info.version).addr, _ => 0))
  {
    hide Parse, Create;
    CreateThenParse(info);
  }

  /** The acknowledgement of any update, made or received, says the same. */
  lemma AckEchoes(p: seq<Byte>)
    requires Long(p) && Parse(p).Some? && Parse(p).value.kind == UPDATE
    ensures var v := VersionOf(p).value;
      Long(AckOf(v, p)) && Parse(AckOf(v, p)) == Some(Parse(p).value.(kind := UPDATE_ACK))
  {
    hide FromWire;
    var v := VersionOf(p).value;
    var l, q := LayoutOf(v), AckOf(v, p);
    assert q[0] == p[0];
    assert q[l.typ] == l.ack && q[l.len] == p[l.len];
    assert q[l.sn] == p[l.sn] && q[l.sn + 1] == p[l.sn + 1] && q[l.sn + 2] == p[l.sn + 2] && q[l.sn + 3] == p[l.sn + 3];
    assert forall i | l.src <= i < l.src + l.addr :: q[i] == p[i - l.src + l.dst];
    assert q[l.src..l.src + l.addr] == p[l.dst..l.dst + l.addr];
  }

  /** From the update that a node sends to the acknowledgement it gets. */
  lemma UpdateIsAcknowledged(info: Info)
    requires ValidInfo(info) && info.kind == UPDATE
    ensures var q := AckOf(info.version, Create(info)); Long(q) && Parse(q) == Some(info.(kind := UPDATE_ACK))
  {
    hide Parse, Create;
    CreateThenParse(info);
    CreatedVersion(info);
    AckEchoes(Create(info));
  }

  // ------------------------------------------------------------------------ the code

  /** `hicn_mapme_v4_create_ack` and `hicn_mapme_v6_create_ack`. */
  method CreateAck(v: Version, buf: array<Byte>)
    requires LayoutOf(v).total <= buf.Length
    modifies buf
    ensures buf[..] == AckOf(v, old(buf[..]))
  {
    var l := LayoutOf(v);
    ghost var was := buf[..];
    for k := 0 to l.addr
      invariant forall i | 0 <= i < buf.Length :: buf[i] == SwapByte(l, was, k, i)
    {
      var tmp := buf[l.dst + k];
      buf[l.dst + k] := buf[l.src + k];
      buf[l.src + k] := tmp;
    }
    buf[l.ttl] := 255;
    buf[l.typ] := l.ack;
    buf[l.csum], buf[l.csum + 1] := 0, 0;
  }
}
