/** The payloads of the FRI command protocol: written by hand on the client as a Java serialization stream
    (magic ACED, version 5, block data; section 6.4 of the Java Object Serialization Specification), read by
    an object input stream on the controller. */
module FriCodec {
  import opened Words
  import opened FriManager

  type Bytes = seq<uint8>

  // ----- numbers as bytes -----

  function PowerOf256(n: nat): (r: nat)
    ensures r > 0
  {
    if n == 0 then 1 else 0x100 * PowerOf256(n - 1)
  }

  /** The memory of an unsigned number on a little-endian host. */
  function LittleEndian(u: nat, width: nat): (r: Bytes)
    ensures |r| == width
  {
    if width == 0 then [] else [u % 0x100] + LittleEndian(u / 0x100, width - 1)
  }

  function Reversed(s: Bytes): (r: Bytes)
    ensures |r| == |s|
    ensures forall i | 0 <= i < |s| :: r[i] == s[|s| - 1 - i]
  {
    if s == [] then [] else Reversed(s[1..]) + [s[0]]
  }

  /** The number a big-endian reader makes of some bytes. */
  function BigEndianValue(s: Bytes): nat {
    if s == [] then 0 else BigEndianValue(s[..|s| - 1]) * 0x100 + s[|s| - 1]
  }

  lemma {:induction false} ReversedMemoryIsRead(u: nat, width: nat)
    requires u < PowerOf256(width)
    ensures BigEndianValue(Reversed(LittleEndian(u, width))) == u
  {
    if width > 0 {
      var memory := LittleEndian(u, width);
      assert memory[1..] == LittleEndian(u / 0x100, width - 1);
      ReversedMemoryIsRead(u / 0x100, width - 1);
      var r := Reversed(memory);
      assert r[..|r| - 1] == Reversed(memory[1..]);
    }
  }

  function Unsigned32(x: int32): uint32 {
    if x < 0 then x + TWO_TO_THE_32 else x
  }

  function Signed32(u: uint32): int32 {
    if u >= 0x8000_0000 then u - TWO_TO_THE_32 else u
  }

  function IntBytes(x: int32): Bytes {
    Reversed(LittleEndian(Unsigned32(x), 4))
  }

  function DoubleBytes(bits: uint64): Bytes {
    Reversed(LittleEndian(bits, 8))
  }

  function DoublesBytes(values: seq<uint64>): (r: Bytes)
    ensures |r| == 8 * |values|
  {
    if values == [] then [] else DoubleBytes(values[0]) + DoublesBytes(values[1..])
  }

  /** The vector the client serializes into. */
  class ByteVector {
    var bytes: Bytes

    constructor ()
      ensures bytes == []
    {
      bytes := [];
    }

    method PushBack(byte: uint8)
      modifies this
      ensures bytes == old(bytes) + [byte]
    {
      bytes := bytes + [byte];
    }

    /** Insert the memory of a number at the end, then reverse that tail in place. */
    method AppendReversed(memory: Bytes)
      modifies this
      ensures bytes == old(bytes) + Reversed(memory)
    {
      bytes := bytes + memory;
      var from, last := |bytes| - |memory|, |bytes|;
      ghost var n := |memory|;
      ghost var start := bytes;
      var i, j := from, last;
      while i + 1 < j
        invariant from <= i <= j + 1 && j <= last && i - from == last - j
        invariant |bytes| == last
        invariant forall k | 0 <= k < from :: bytes[k] == start[k]
        invariant forall k | from <= k < i || j <= k < last :: bytes[k] == start[from + last - 1 - k]
        invariant forall k | i <= k < j :: bytes[k] == start[k]
        decreases j - i
      {
        j := j - 1;
        bytes := bytes[i := bytes[j]][j := bytes[i]];
        i := i + 1;
      }
      assert bytes[..from] == old(bytes);
      assert bytes[from..] == Reversed(memory);
      assert bytes == bytes[..from] + bytes[from..];
    }

    /** Returns the number of bytes appended. */
    method SerializeNextInt(integer: int32) returns (size: nat)
      modifies this
      ensures bytes == old(bytes) + IntBytes(integer)
      ensures size == |bytes| - |old(bytes)|
    {
      AppendReversed(LittleEndian(Unsigned32(integer), 4));
      return 4;
    }

    /** Returns the size of an int, although it appends the eight bytes of a double. */
    method SerializeNextDouble(bits: uint64) returns (size: nat)
      modifies this
      ensures bytes == old(bytes) + DoubleBytes(bits)
      ensures size == 4 && |bytes| == |old(bytes)| + 8
    {
      AppendReversed(LittleEndian(bits, 8));
      return 4;
    }

    method AppendDoubles(values: seq<uint64>)
      modifies this
      ensures bytes == old(bytes) + DoublesBytes(values)
    {
      for i := 0 to |values|
        invariant bytes + DoublesBytes(values[i..]) == old(bytes) + DoublesBytes(values)
      {
        assert values[i..][1..] == values[i + 1..];
        ghost var before := bytes;
        var _ := SerializeNextDouble(values[i]);
        assert bytes + DoublesBytes(values[i + 1..]) == before + DoublesBytes(values[i..]);
      }
    }
  }

  // ----- the messages of the client -----

  datatype Octets = Octets(a: uint8, b: uint8, c: uint8, d: uint8)

  /** The address in network byte order, read as an int by a little-endian host. */
  function InetAddr(ip: Octets): int32 {
    Signed32(ip.a + 0x100 * ip.b + 0x1_0000 * ip.c + 0x100_0000 * ip.d)
  }

  function Dotted(ip: Octets): string {
    Digits(ip.a) + "." + Digits(ip.b) + "." + Digits(ip.c) + "." + Digits(ip.d)
  }

  const SET_FRI_CONFIG: uint8 := 8
  const SET_CONTROL_MODE: uint8 := 10
  const SET_COMMAND_MODE: uint8 := 12

  const POSITION_CONTROL_MODE: uint8 := 1
  const JOINT_IMPEDANCE_CONTROL_MODE: uint8 := 2

  const FRI_CONFIG_HEADER: Bytes := [0xAC, 0xED, 0x00, 0x05, 0x77, 0x10]
  const CONTROL_MODE_HEADER: Bytes := [0xAC, 0xED, 0x00, 0x05, 0x77, 0x70]

  function ConfigData(ip: Octets, port: int32, sendPeriod: int32, receiveMultiplier: int32): Bytes {
    FRI_CONFIG_HEADER + IntBytes(port) + IntBytes(sendPeriod) + IntBytes(receiveMultiplier) + IntBytes(InetAddr(ip))
  }

  function ImpedanceData(stiffness: seq<uint64>, damping: seq<uint64>): Bytes {
    CONTROL_MODE_HEADER + DoublesBytes(stiffness) + DoublesBytes(damping)
  }

  method SerializeConfig(ip: Octets, port: int32, sendPeriod: int32, receiveMultiplier: int32) returns (data: Bytes)
    ensures data == ConfigData(ip, port, sendPeriod, receiveMultiplier)
  {
    var serialized := new ByteVector();
    for i := 0 to |FRI_CONFIG_HEADER|
      invariant serialized.bytes == FRI_CONFIG_HEADER[..i]
    {
      serialized.PushBack(FRI_CONFIG_HEADER[i]);
    }
    var _ := serialized.SerializeNextInt(port);
    var _ := serialized.SerializeNextInt(sendPeriod);
    var _ := serialized.SerializeNextInt(receiveMultiplier);
    var _ := serialized.SerializeNextInt(InetAddr(ip));
    return serialized.bytes;
  }

  method SerializeImpedance(stiffness: seq<uint64>, damping: seq<uint64>) returns (data: Bytes)
    ensures data == [JOINT_IMPEDANCE_CONTROL_MODE] + ImpedanceData(stiffness, damping)
  {
    var serialized := new ByteVector();
    serialized.PushBack(JOINT_IMPEDANCE_CONTROL_MODE);
    for i := 0 to |CONTROL_MODE_HEADER|
      invariant serialized.bytes == [JOINT_IMPEDANCE_CONTROL_MODE] + CONTROL_MODE_HEADER[..i]
    {
      serialized.PushBack(CONTROL_MODE_HEADER[i]);
    }
    serialized.AppendDoubles(stiffness);
    serialized.AppendDoubles(damping);
    return serialized.bytes;
  }

  // ----- the object input stream of the controller -----

  const TC_BLOCKDATA: uint8 := 0x77
  const TC_RESET: uint8 := 0x79
  const TC_BLOCKDATALONG: uint8 := 0x7A

  /** The primitive data at the head of the stream's contents: blocks of data, short and long, up to the
      first thing that is not one. */
  function BlockData(contents: Bytes): Bytes
    decreases |contents|, 0
  {
    if contents == [] then []
    else if contents[0] == TC_RESET then BlockData(contents[1..])
    else if contents[0] == TC_BLOCKDATA && |contents| >= 2 then Block(contents[2..], contents[1])
    else if contents[0] == TC_BLOCKDATALONG && |contents| >= 5 && BigEndianValue(contents[1..5]) < 0x8000_0000 then
      Block(contents[5..], BigEndianValue(contents[1..5]))
    else []
  }

  /** The last block may be cut short. */
  function Block(contents: Bytes, length: nat): Bytes
    decreases |contents|, 1
  {
    if |contents| <= length then contents else contents[..length] + BlockData(contents[length..])
  }

  /** Opening the stream checks magic number and version; an IOException is None. */
  function StreamData(stream: Bytes): Option<Bytes> {
    if |stream| >= 4 && stream[..4] == [0xAC, 0xED, 0x00, 0x05] then Some(BlockData(stream[4..])) else None
  }

  function IntAt(data: Bytes, i: nat): int32
    requires i + 4 <= |data|
  {
    FourBytesAreAWord(data[i..i + 4]);
    Signed32(BigEndianValue(data[i..i + 4]))
  }

  lemma FourBytesAreAWord(s: Bytes)
    requires |s| == 4
    ensures BigEndianValue(s) < TWO_TO_THE_32
  {
    BytesAreBounded(s);
    assert PowerOf256(4) == TWO_TO_THE_32;
  }

  lemma {:induction false} BytesAreBounded(s: Bytes)
    ensures BigEndianValue(s) < PowerOf256(|s|)
  {
    if s != [] {
      BytesAreBounded(s[..|s| - 1]);
    }
  }

  function BitsAt(data: Bytes, i: nat): uint64
    requires i + 8 <= |data|
  {
    BytesAreBounded(data[i..i + 8]);
    assert PowerOf256(8) == TWO_TO_THE_64;
    BigEndianValue(data[i..i + 8])
  }

  /** Eight bytes each. */
  function DoublesOf(data: Bytes): (r: seq<uint64>)
    ensures |r| == |data| / 8
  {
    if |data| < 8 then [] else [BitsAt(data, 0)] + DoublesOf(data[8..])
  }

  /** Octet `k` of an int, as an arithmetic shift and a mask. */
  function OctetOf(ip: int32, k: nat): uint8 {
    (ip / PowerOf256(k)) % 0x100
  }

  function RemoteIP(ip: int32): string {
    Dotted(Octets(OctetOf(ip, 0), OctetOf(ip, 1), OctetOf(ip, 2), OctetOf(ip, 3)))
  }

  const CONFIG_LENGTH := 16
  const IMPEDANCE_LENGTH := 112
  const JOINTS := 7

  function DecodeConfig(stream: Bytes): Option<FriConfig> {
    match StreamData(stream)
    case None => None
    case Some(data) =>
      if |data| < CONFIG_LENGTH then None
      else Some(FriConfig(RemoteIP(IntAt(data, 12)), IntAt(data, 0), IntAt(data, 4), IntAt(data, 8)))
  }

  function DecodeImpedance(stream: Bytes): Option<ControlMode> {
    match StreamData(stream)
    case None => None
    case Some(data) =>
      if |data| < IMPEDANCE_LENGTH then None
      else Some(JointImpedance(DoublesOf(data[..8 * JOINTS]), DoublesOf(data[8 * JOINTS..IMPEDANCE_LENGTH])))
  }

  /** A stream being consumed. Running out of data is an IOException. */
  class ObjectInput {
    var data: Bytes
    ghost const all: Bytes
    ghost var position: nat

    ghost predicate Valid()
      reads this
    {
      position <= |all| && data == all[position..]
    }

    constructor (data: Bytes)
      ensures Valid() && all == data && position == 0
    {
      this.data := data;
      all := data;
      position := 0;
    }

    method ReadInt() returns (r: Option<int32>)
      requires Valid()
      modifies this
      ensures Valid()
      ensures r.Some? <==> old(position) + 4 <= |all|
      ensures r.Some? ==> position == old(position) + 4 && r.value == IntAt(all, old(position))
    {
      if |data| < 4 {
        return None;
      }
      assert data[..4] == all[position..position + 4];
      r := Some(IntAt(data, 0));
      data := data[4..];
      position := position + 4;
    }

    method ReadDouble() returns (r: Option<uint64>)
      requires Valid()
      modifies this
      ensures Valid()
      ensures r.Some? <==> old(position) + 8 <= |all|
      ensures r.Some? ==> position == old(position) + 8 && r.value == BitsAt(all, old(position))
    {
      if |data| < 8 {
        return None;
      }
      assert data[..8] == all[position..position + 8];
      r := Some(BitsAt(data, 0));
      data := data[8..];
      position := position + 8;
    }

    /** Read `n` doubles. */
    method ReadDoubles(n: nat) returns (r: Option<seq<uint64>>)
      requires Valid()
      modifies this
      ensures Valid()
      ensures r.Some? <==> old(position) + 8 * n <= |all|
      ensures r.Some? ==> position == old(position) + 8 * n && r.value == DoublesOf(all[old(position)..position])
    {
      var values: seq<uint64> := [];
      for i := 0 to n
        invariant Valid() && position == old(position) + 8 * i
        invariant values == DoublesOf(all[old(position)..position])
      {
        ghost var before := all[old(position)..position];
        var next := ReadDouble();
        if next == None {
          return None;
        }
        ghost var last := all[position - 8..position];
        Slices(all, old(position), position - 8, position);
        assert last[0..8] == last;
        DoublesOfAppend(before, last);
        values := values + [next.value];
      }
      return Some(values);
    }
  }

  lemma Slices<T>(s: seq<T>, from: nat, middle: nat, to: nat)
    requires from <= middle <= to <= |s|
    ensures s[from..to] == s[from..middle] + s[middle..to]
  {
  }

  lemma {:induction false} DoublesOfAppend(before: Bytes, last: Bytes)
    requires |before| % 8 == 0 && |last| == 8
    ensures DoublesOf(before + last) == DoublesOf(before) + [BitsAt(last, 0)]
  {
    if before == [] {
      assert before + last == last;
    } else {
      assert (before + last)[8..] == before[8..] + last;
      assert (before + last)[..8] == before[..8];
      DoublesOfAppend(before[8..], last);
    }
  }

  method ReadExternalConfig(stream: Bytes) returns (r: Option<FriConfig>)
    ensures r == DecodeConfig(stream)
  {
    if |stream| < 4 || stream[..4] != [0xAC, 0xED, 0x00, 0x05] {
      return None;
    }
    var input := new ObjectInput(BlockData(stream[4..]));
    var remotePort := input.ReadInt();
    if remotePort == None { return None; }
    var sendPeriod := input.ReadInt();
    if sendPeriod == None { return None; }
    var receiveMultiplier := input.ReadInt();
    if receiveMultiplier == None { return None; }
    var ip := input.ReadInt();
    if ip == None { return None; }
    return Some(FriConfig(RemoteIP(ip.value), remotePort.value, sendPeriod.value, receiveMultiplier.value));
  }

  method ReadExternalImpedance(stream: Bytes) returns (r: Option<ControlMode>)
    ensures r == DecodeImpedance(stream)
  {
    if |stream| < 4 || stream[..4] != [0xAC, 0xED, 0x00, 0x05] {
      return None;
    }
    var input := new ObjectInput(BlockData(stream[4..]));
    var stiffness := input.ReadDoubles(JOINTS);
    if stiffness == None { return None; }
    var damping := input.ReadDoubles(JOINTS);
    if damping == None { return None; }
    return Some(JointImpedance(stiffness.value, damping.value));
  }

  // ----- round trips -----

  lemma IntRoundTrip(data: Bytes, at: nat, x: int32)
    requires at + 4 <= |data| && data[at..at + 4] == IntBytes(x)
    ensures IntAt(data, at) == x
  {
    assert PowerOf256(4) == TWO_TO_THE_32;
    ReversedMemoryIsRead(Unsigned32(x), 4);
  }

  lemma {:induction false} DoublesRoundTrip(values: seq<uint64>)
    ensures DoublesOf(DoublesBytes(values)) == values
  {
    if values != [] {
      var data, first := DoublesBytes(values), DoubleBytes(values[0]);
      assert data[..8] == first && data[8..] == DoublesBytes(values[1..]);
      assert PowerOf256(8) == TWO_TO_THE_64;
      ReversedMemoryIsRead(values[0], 8);
      DoublesRoundTrip(values[1..]);
    }
  }

  /** One short block that is exactly the rest of the stream. */
  lemma OneBlock(header: Bytes, data: Bytes)
    requires |data| < 0x100 && header == [0xAC, 0xED, 0x00, 0x05, TC_BLOCKDATA, |data|]
    ensures StreamData(header + data) == Some(data)
  {
    var stream := header + data;
    assert stream[..4] == [0xAC, 0xED, 0x00, 0x05];
    var contents := stream[4..];
    assert contents == [TC_BLOCKDATA, |data|] + data;
    assert contents[2..] == data;
    assert BlockData(contents) == Block(data, |data|);
  }

  lemma InetAddrRoundTrip(ip: Octets)
    ensures RemoteIP(InetAddr(ip)) == Dotted(ip)
  {
    var x := InetAddr(ip);
    var d: int := if x < 0 then ip.d - 0x100 else ip.d;
    PowersOf256();
    Shifted(x, 0x1, ip.a + 0x100 * (ip.b + 0x100 * (ip.c + 0x100 * d)), 0);
    LowByte(ip.a, ip.b + 0x100 * (ip.c + 0x100 * d));
    Shifted(x, 0x100, ip.b + 0x100 * (ip.c + 0x100 * d), ip.a);
    LowByte(ip.b, ip.c + 0x100 * d);
    Shifted(x, 0x1_0000, ip.c + 0x100 * d, ip.a + 0x100 * ip.b);
    LowByte(ip.c, d);
    Shifted(x, 0x100_0000, d, ip.a + 0x100 * ip.b + 0x1_0000 * ip.c);
    LowByte(ip.d, if x < 0 then -1 else 0);
  }

  lemma PowersOf256()
    ensures PowerOf256(0) == 0x1 && PowerOf256(1) == 0x100 && PowerOf256(2) == 0x1_0000 && PowerOf256(3) == 0x100_0000
  {
  }

  /** An arithmetic shift drops the low bits. */
  lemma Shifted(x: int, power: nat, high: int, low: nat)
    requires low < power && x == high * power + low
    ensures x / power == high
  {
    var k := x / power - high;
    assert k * power == (x / power) * power - high * power;
    assert 0 < k * power + power < 2 * power;
    assert k >= 1 ==> k * power >= power;
    assert k <= -1 ==> k * power + power <= 0;
  }

  lemma LowByte(byte: uint8, rest: int)
    ensures (byte + 0x100 * rest) % 0x100 == byte
  {
  }

  /** For every port, period, multiplier and address, what the controller decodes is what the client was given;
      the payload has exactly the required length, and its block length byte is right. */
  lemma ConfigRoundTrip(ip: Octets, port: int32, sendPeriod: int32, receiveMultiplier: int32)
    ensures var data := ConfigData(ip, port, sendPeriod, receiveMultiplier);
            && DecodeConfig(data) == Some(FriConfig(Dotted(ip), port, sendPeriod, receiveMultiplier))
            && |data| == CONFIG_LENGTH + 6 && data[5] == CONFIG_LENGTH
  {
    var address := InetAddr(ip);
    var data := IntBytes(port) + IntBytes(sendPeriod) + IntBytes(receiveMultiplier) + IntBytes(address);
    assert ConfigData(ip, port, sendPeriod, receiveMultiplier) == FRI_CONFIG_HEADER + data;
    OneBlock(FRI_CONFIG_HEADER, data);
    IntRoundTrip(data, 0, port);
    IntRoundTrip(data, 4, sendPeriod);
    IntRoundTrip(data, 8, receiveMultiplier);
    IntRoundTrip(data, 12, address);
    InetAddrRoundTrip(ip);
  }

  /** Seven and seven doubles arrive bit for bit, in a payload of exactly the required length. */
  lemma ImpedanceRoundTrip(stiffness: seq<uint64>, damping: seq<uint64>)
    requires |stiffness| == JOINTS && |damping| == JOINTS
    ensures var data := ImpedanceData(stiffness, damping);
            && DecodeImpedance(data) == Some(JointImpedance(stiffness, damping))
            && |data| == IMPEDANCE_LENGTH + 6 && data[5] == IMPEDANCE_LENGTH
  {
    ImpedanceDecoded(stiffness, damping);
    assert (stiffness + damping)[..JOINTS] == stiffness && (stiffness + damping)[JOINTS..2 * JOINTS] == damping;
  }

  /** For vectors of any length: the block length announces fourteen doubles, and the first fourteen of both vectors
      together are what is decoded, wherever one vector ends and the other begins. */
  lemma ImpedanceDecoded(stiffness: seq<uint64>, damping: seq<uint64>)
    ensures var data := ImpedanceData(stiffness, damping);
            var all := stiffness + damping;
            && |data| == 6 + 8 * |all| && data[5] == IMPEDANCE_LENGTH
            && (|all| >= 2 * JOINTS ==>
                  DecodeImpedance(data) == Some(JointImpedance(all[..JOINTS], all[JOINTS..2 * JOINTS])))
  {
    var all := stiffness + damping;
    DoublesBytesAppend(stiffness, damping);
    assert ImpedanceData(stiffness, damping) == CONTROL_MODE_HEADER + DoublesBytes(all);
    if |all| >= 2 * JOINTS {
      var first, second, rest := all[..JOINTS], all[JOINTS..2 * JOINTS], all[2 * JOINTS..];
      assert all == first + second + rest;
      DoublesBytesAppend(first + second, rest);
      DoublesBytesAppend(first, second);
      DoublesRoundTrip(first);
      DoublesRoundTrip(second);
      TwoHalves(DoublesBytes(first), DoublesBytes(second), DoublesBytes(rest));
    }
  }

  lemma {:induction false} DoublesBytesAppend(a: seq<uint64>, b: seq<uint64>)
    ensures DoublesBytes(a + b) == DoublesBytes(a) + DoublesBytes(b)
    decreases |a|
  {
    if a == [] {
      assert a + b == b;
    } else {
      assert (a + b)[1..] == a[1..] + b;
      DoublesBytesAppend(a[1..], b);
    }
  }

  /** The block ends after the two halves; whatever follows is not looked at. */
  lemma TwoHalves(first: Bytes, second: Bytes, rest: Bytes)
    requires |first| == |second| == 8 * JOINTS
    ensures DecodeImpedance(CONTROL_MODE_HEADER + (first + second + rest))
         == Some(JointImpedance(DoublesOf(first), DoublesOf(second)))
  {
    var contents := [TC_BLOCKDATA, IMPEDANCE_LENGTH] + (first + second + rest);
    var stream := CONTROL_MODE_HEADER + (first + second + rest);
    assert stream[..4] == [0xAC, 0xED, 0x00, 0x05] && stream[4..] == contents;
    BlockStarts(first + second + rest, IMPEDANCE_LENGTH);
    var data := BlockData(contents);
    assert data[..8 * JOINTS] == first && data[8 * JOINTS..IMPEDANCE_LENGTH] == second;
  }

  lemma BlockStarts(contents: Bytes, length: uint8)
    requires |contents| >= length
    ensures var data := BlockData([TC_BLOCKDATA, length] + contents);
            |data| >= length && data[..length] == contents[..length]
  {
    assert ([TC_BLOCKDATA, length] + contents)[2..] == contents;
  }
}
