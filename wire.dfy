/** Byte-level vocabulary shared by the SOCKS5 codecs: octets, unsigned
    16-bit big-endian fields, and the eight-group IPv6 address encoding. */
module Wire {

  /** One octet of a Node.js Buffer. */
  type Byte = x: int | 0 <= x < 0x100

  /** An unsigned 16-bit field: a port or one IPv6 group. */
  type U16 = x: int | 0 <= x < 0x1_0000

  /** An IPv4 address as its four octets. */
  type Octets4 = s: seq<Byte> | |s| == 4 witness [0, 0, 0, 0]

  /** An IPv6 address as its eight 16-bit groups. */
  type Groups8 = s: seq<U16> | |s| == 8 witness [0, 0, 0, 0, 0, 0, 0, 0]

  datatype Option<T> = None | Some(value: T)

  function Min(a: int, b: int): int { if a <= b then a else b }

  /** `Buffer.writeUInt16BE`: the high octet first. */
  function BE16(v: U16): (r: seq<Byte>)
    ensures |r| == 2 && r[0] as int * 0x100 + r[1] == v
  {
    [v / 0x100, v % 0x100]
  }

  /** `Buffer.readUInt16BE`: the value of a high and a low octet; its
      inverse is BE16. */
  function ReadBE16(hi: Byte, lo: Byte): (v: U16)
    ensures BE16(v) == [hi, lo]
  {
    hi as int * 0x100 + lo
  }

  /** The wire octets of a list of groups, each group big-endian. */
  function GroupsToBytes(g: seq<U16>): (r: seq<Byte>)
    ensures |r| == 2 * |g|
  {
    if g == [] then [] else BE16(g[0]) + GroupsToBytes(g[1..])
  }

  /** Groups read back from wire octets, two at a time. */
  function BytesToGroups(b: seq<Byte>): (g: seq<U16>)
    requires |b| % 2 == 0
    ensures |g| == |b| / 2
  {
    if b == [] then [] else [ReadBE16(b[0], b[1])] + BytesToGroups(b[2..])
  }

  /** Group k of the encoding sits at octets 2k and 2k+1. */
  lemma {:induction false} GroupsToBytesAt(g: seq<U16>, k: nat)
    requires k < |g|
    ensures GroupsToBytes(g)[2 * k] == g[k] / 0x100 && GroupsToBytes(g)[2 * k + 1] == g[k] % 0x100
  {
    if k > 0 {
      GroupsToBytesAt(g[1..], k - 1);
      assert GroupsToBytes(g) == BE16(g[0]) + GroupsToBytes(g[1..]);
    }
  }

  /** Decoded group k comes from octets 2k and 2k+1. */
  lemma {:induction false} BytesToGroupsAt(b: seq<Byte>, k: nat)
    requires |b| % 2 == 0 && k < |b| / 2
    ensures BytesToGroups(b)[k] == ReadBE16(b[2 * k], b[2 * k + 1])
  {
    if k > 0 {
      BytesToGroupsAt(b[2..], k - 1);
    }
  }

  /** Decoding the encoding of a group list gives the list back. */
  lemma {:induction false} GroupsRoundTrip(g: seq<U16>)
    ensures BytesToGroups(GroupsToBytes(g)) == g
  {
    if g != [] {
      var b := GroupsToBytes(g);
      assert b[..2] == BE16(g[0]) && b[2..] == GroupsToBytes(g[1..]);
      GroupsRoundTrip(g[1..]);
    }
  }

  /** Encoding the groups read from an even number of octets gives those
      octets back. */
  lemma {:induction false} BytesGroupsRoundTrip(b: seq<Byte>)
    requires |b| % 2 == 0
    ensures GroupsToBytes(BytesToGroups(b)) == b
  {
    if b != [] {
      assert BytesToGroups(b)[1..] == BytesToGroups(b[2..]);
      BytesGroupsRoundTrip(b[2..]);
      assert b == [b[0], b[1]] + b[2..];
    }
  }
}
