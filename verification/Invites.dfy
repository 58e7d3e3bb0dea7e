/** The invite codec: a version byte, the space id behind its length, the key. */
module Invites {
  import opened Basics

  type Byte = x | 0 <= x < 256

  datatype InviteKind = Member | Guest | Unknown(kind: Byte)

  datatype Invite<+K> = Invite(spaceId: seq<Byte>, key: Option<K>, kind: InviteKind)

  datatype Result<+T> = Ok(value: T) | Err

  /** The key's own codec and the text encoding, as functions. */
  datatype Codec<!K> = Codec(marshal: K -> Option<seq<Byte>>, unmarshal: seq<Byte> -> Option<K>,
                             text: seq<Byte> -> string, bytes: string -> Option<seq<Byte>>)

  const MAX_VARINT := 10
  const LIMIT := 0x1_0000_0000_0000_0000

  /** b shifted by i groups of seven bits. */
  function Shift(b: nat, i: nat): nat {
    if i == 0 then b else 128 * Shift(b, i - 1)
  }

  /** `binary.AppendUvarint`. */
  function Uvarint(x: nat): (r: seq<Byte>)
    ensures r != []
  {
    if x < 128 then [x] else [x % 128 + 128] + Uvarint(x / 128)
  }

  /** `binary.Uvarint` from byte i on: the value and the bytes read, None on a
      truncated or overlong number. */
  function ReadUvarint(buf: seq<Byte>, i: nat, acc: nat): (r: Option<(nat, nat)>)
    requires i <= |buf|
    ensures r.Some? ==> i < r.value.1 <= |buf|
    decreases |buf| - i
  {
    if i == |buf| || i == MAX_VARINT then None
    else if buf[i] < 128 then
      if i == MAX_VARINT - 1 && buf[i] > 1 then None else Some((acc + Shift(buf[i], i), i + 1))
    else ReadUvarint(buf, i + 1, acc + Shift(buf[i] - 128, i))
  }

  /** `EncodeInvite`. */
  function Encode<K>(c: Codec<K>, i: Invite<K>): Result<string> {
    if i.spaceId == [] || i.key.None? then Err
    else
      var keyBytes := c.marshal(i.key.value);
      if keyBytes.None? || i.kind.Unknown? then Err
      else
        var version: Byte := if i.kind.Member? then 1 else 2;
        Ok(c.text([version] + Uvarint(|i.spaceId|) + i.spaceId + keyBytes.value))
  }

  /** `DecodeInvite` on the raw bytes. */
  function DecodeRaw<K>(c: Codec<K>, raw: seq<Byte>): Result<Invite<K>> {
    if raw == [] || (raw[0] != 1 && raw[0] != 2) then Err
    else
      var rest := raw[1..];
      match ReadUvarint(rest, 0, 0)
      case None => Err
      case Some((len, n)) =>
        if |rest| - n < len then Err
        else
          var spaceId, keyBytes := rest[n..n + len], rest[n + len..];
          if keyBytes == [] then Err
          else match c.unmarshal(keyBytes)
            case None => Err
            case Some(key) => Ok(Invite(spaceId, Some(key), if raw[0] == 1 then Member else Guest))
  }

  /** `DecodeInvite`. */
  function Decode<K>(c: Codec<K>, s: string): Result<Invite<K>> {
    if s == "" then Err
    else match c.bytes(s)
      case None => Err
      case Some(raw) => DecodeRaw(c, raw)
  }

  /** What the code relies on of the key codec and of base58. */
  ghost predicate Lawful<K(!new)>(c: Codec<K>) {
    && (forall k :: c.marshal(k).Some? ==> c.marshal(k).value != [] && c.unmarshal(c.marshal(k).value) == Some(k))
    && (forall raw :: c.bytes(c.text(raw)) == Some(raw) && (raw != [] ==> c.text(raw) != ""))
  }

  lemma {:induction false} ShiftSplits(hi: nat, lo: nat, i: nat)
    ensures Shift(128 * hi + lo, i) == Shift(hi, i + 1) + Shift(lo, i)
    decreases i
  {
    if i > 0 { ShiftSplits(hi, lo, i - 1); }
  }

  /** The tenth byte holds one bit. */
  lemma TenthByte(x: nat)
    ensures Shift(x, 9) == 0x8000_0000_0000_0000 * x
  {
    assert Shift(x, 1) == 0x80 * x;
    assert Shift(x, 2) == 0x4000 * x;
    assert Shift(x, 3) == 0x20_0000 * x;
    assert Shift(x, 4) == 0x1000_0000 * x;
    assert Shift(x, 5) == 0x8_0000_0000 * x;
    assert Shift(x, 6) == 0x400_0000_0000 * x;
    assert Shift(x, 7) == 0x2_0000_0000_0000 * x;
    assert Shift(x, 8) == 0x100_0000_0000_0000 * x;
  }

  /** Reading a number written at byte i gives it back, whatever follows, as
      long as it fits 64 bits. */
  lemma {:induction false} ReadBack(buf: seq<Byte>, i: nat, acc: nat, x: nat, rest: seq<Byte>)
    requires i <= |buf| && buf[i..] == Uvarint(x) + rest
    requires i < MAX_VARINT && Shift(x, i) < LIMIT
    ensures ReadUvarint(buf, i, acc) == Some((acc + Shift(x, i), i + |Uvarint(x)|))
    decreases x
  {
    assert buf[i] == buf[i..][0] == Uvarint(x)[0];
    if i == 9 { TenthByte(x); }
    if x >= 128 {
      var lo, hi := x % 128, x / 128;
      assert x == 128 * hi + lo;
      ShiftSplits(hi, lo, i);
      assert buf[i + 1..] == buf[i..][1..] == Uvarint(hi) + rest;
      ReadBack(buf, i + 1, acc + Shift(lo, i), hi, rest);
    }
  }

  /** Decoding undoes encoding for every space id, key and kind the encoder
      accepts, and those are all but the incomplete ones. */
  lemma RoundTrip<K(!new)>(c: Codec<K>, i: Invite<K>)
    requires Lawful(c) && |i.spaceId| < LIMIT
    ensures Encode(c, i).Ok? <==> i.spaceId != [] && i.key.Some? && c.marshal(i.key.value).Some? && !i.kind.Unknown?
    ensures Encode(c, i).Ok? ==> Decode(c, Encode(c, i).value) == Ok(i)
  {
    if Encode(c, i).Ok? {
      var keyBytes := c.marshal(i.key.value).value;
      var version: Byte := if i.kind.Member? then 1 else 2;
      var v := Uvarint(|i.spaceId|);
      var raw := [version] + v + i.spaceId + keyBytes;
      var rest := raw[1..];
      assert rest == v + i.spaceId + keyBytes;
      assert rest[0..] == v + (i.spaceId + keyBytes);
      ReadBack(rest, 0, 0, |i.spaceId|, i.spaceId + keyBytes);
      assert rest[|v|..|v| + |i.spaceId|] == i.spaceId;
      assert rest[|v| + |i.spaceId|..] == keyBytes;
    }
  }

  lemma {:induction false} ShiftBounds(b: nat, i: nat)
    requires b <= 127 && i <= 9
    ensures Shift(b, i) + Shift(1, i) <= Shift(1, i + 1) && (i > 0 ==> Shift(1, i) == 128 * Shift(1, i - 1))
    decreases i
  {
    if i > 0 { ShiftBounds(b, i - 1); }
  }

  lemma {:induction false} ShiftRises(i: nat)
    requires i <= 9
    ensures Shift(1, i) <= Shift(1, 9) == 0x8000_0000_0000_0000
    decreases 9 - i
  {
    TenthByte(1);
    if i < 9 { ShiftRises(i + 1); }
  }

  /** What is read fits 64 bits. */
  lemma {:induction false} ReadFits(buf: seq<Byte>, i: nat, acc: nat)
    requires i <= |buf| && i <= MAX_VARINT && (i < MAX_VARINT ==> acc < Shift(1, i))
    ensures var r := ReadUvarint(buf, i, acc); r.Some? ==> r.value.0 < LIMIT
    decreases |buf| - i
  {
    if i < |buf| && i < MAX_VARINT {
      ShiftRises(i);
      ShiftBounds(if buf[i] < 128 then buf[i] else buf[i] - 128, i);
      if buf[i] >= 128 {
        ReadFits(buf, i + 1, acc + Shift(buf[i] - 128, i));
      } else if i < 9 {
        ShiftRises(i + 1);
      } else {
        TenthByte(buf[i]);
      }
    }
  }

  lemma {:induction false} DecodedFits<K>(c: Codec<K>, raw: seq<Byte>)
    requires DecodeRaw(c, raw).Ok?
    ensures DecodeRaw(c, raw).value.key.Some? && !DecodeRaw(c, raw).value.kind.Unknown?
    ensures |DecodeRaw(c, raw).value.spaceId| < LIMIT
  {
    ReadFits(raw[1..], 0, 0);
  }

  /** The encoder takes back what the decoder accepts exactly when the space id
      is not empty and the key marshals, and its token decodes to the same
      invite. */
  lemma {:induction false} DecodedIsEncodableIff<K(!new)>(c: Codec<K>, s: string)
    requires Lawful(c) && Decode(c, s).Ok?
    ensures Decode(c, s).value.key.Some?
    ensures Encode(c, Decode(c, s).value).Ok? <==>
            Decode(c, s).value.spaceId != [] && c.marshal(Decode(c, s).value.key.value).Some?
    ensures Encode(c, Decode(c, s).value).Ok? ==> Decode(c, Encode(c, Decode(c, s).value).value) == Decode(c, s)
  {
    DecodedFits(c, c.bytes(s).value);
    RoundTrip(c, Decode(c, s).value);
  }

  /** Reading a number looks at its own bytes only. */
  lemma {:induction false} ReadPrefix(buf: seq<Byte>, rest: seq<Byte>, i: nat, acc: nat)
    requires i <= |buf| && ReadUvarint(buf, i, acc).Some?
    ensures ReadUvarint(buf + rest, i, acc) == ReadUvarint(buf, i, acc)
    decreases |buf| - i
  {
    assert (buf + rest)[i] == buf[i];
    if buf[i] >= 128 { ReadPrefix(buf, rest, i + 1, acc + Shift(buf[i] - 128, i)); }
  }

  lemma {:induction false} ReadOwnBytes(buf: seq<Byte>, i: nat, acc: nat, n: nat)
    requires i <= |buf| && ReadUvarint(buf, i, acc).Some? && ReadUvarint(buf, i, acc).value.1 == n
    ensures i < n <= |buf| && ReadUvarint(buf[..n], i, acc) == ReadUvarint(buf, i, acc)
    decreases |buf| - i
  {
    if buf[i] >= 128 { ReadOwnBytes(buf, i + 1, acc + Shift(buf[i] - 128, i), n); }
  }

  /** The bytes are a token of the invite: a version byte, a number that reads as
      the length of the space id, the space id, and bytes its key comes from. */
  ghost predicate TokenOf<K(!new)>(c: Codec<K>, raw: seq<Byte>, i: Invite<K>, length: seq<Byte>, keyBytes: seq<Byte>) {
    && (i.kind.Member? || i.kind.Guest?)
    && raw == (if i.kind.Member? then [1] else [2]) + length + i.spaceId + keyBytes
    && ReadUvarint(length, 0, 0) == Some((|i.spaceId|, |length|))
    && keyBytes != [] && i.key.Some? && c.unmarshal(keyBytes) == i.key
  }

  ghost predicate IsToken<K(!new)>(c: Codec<K>, raw: seq<Byte>, i: Invite<K>) {
    exists length, keyBytes :: TokenOf(c, raw, i, length, keyBytes)
  }

  lemma {:induction false} TokenDecodes<K(!new)>(c: Codec<K>, raw: seq<Byte>, i: Invite<K>, length: seq<Byte>,
                                                 keyBytes: seq<Byte>)
    requires TokenOf(c, raw, i, length, keyBytes)
    ensures DecodeRaw(c, raw) == Ok(i)
  {
    var rest, n := raw[1..], |length|;
    assert rest == length + (i.spaceId + keyBytes);
    ReadPrefix(length, i.spaceId + keyBytes, 0, 0);
    assert rest[n..n + |i.spaceId|] == i.spaceId && rest[n + |i.spaceId|..] == keyBytes;
  }

  lemma CutInThree(raw: seq<Byte>, n: nat, len: nat)
    requires raw != [] && n + len <= |raw[1..]|
    ensures raw == [raw[0]] + raw[1..][..n] + raw[1..][n..n + len] + raw[1..][n + len..]
  {}

  lemma {:induction false} DecodedIsToken<K(!new)>(c: Codec<K>, raw: seq<Byte>)
    requires DecodeRaw(c, raw).Ok?
    ensures IsToken(c, raw, DecodeRaw(c, raw).value)
  {
    var rest := raw[1..];
    var (len, n) := ReadUvarint(rest, 0, 0).value;
    ReadOwnBytes(rest, 0, 0, n);
    var i := DecodeRaw(c, raw).value;
    CutInThree(raw, n, len);
    assert TokenOf(c, raw, i, rest[..n], rest[n + len..]);
  }

  /** A text decodes to an invite exactly when it is not empty and stands for a
      token of that invite. */
  lemma {:induction false} DecodesIff<K(!new)>(c: Codec<K>, s: string, i: Invite<K>)
    ensures Decode(c, s) == Ok(i) <==> s != "" && c.bytes(s).Some? && IsToken(c, c.bytes(s).value, i)
  {
    if Decode(c, s) == Ok(i) { DecodedIsToken(c, c.bytes(s).value); }
    if s != "" && c.bytes(s).Some? && IsToken(c, c.bytes(s).value, i) {
      var length, keyBytes :| TokenOf(c, c.bytes(s).value, i, length, keyBytes);
      TokenDecodes(c, c.bytes(s).value, i, length, keyBytes);
    }
  }

  /** The one kind of invite with a key that marshals that the decoder accepts
      and the encoder refuses: an empty space id. */
  lemma DecodesEmptySpaceId<K(!new)>(c: Codec<K>, key: K)
    requires Lawful(c) && c.marshal(key).Some?
    ensures var raw: seq<Byte> := [1, 0] + c.marshal(key).value;
            Decode(c, c.text(raw)) == Ok(Invite([], Some(key), Member)) && Encode(c, Invite([], Some(key), Member)).Err?
  {
    var keyBytes := c.marshal(key).value;
    var raw: seq<Byte> := [1, 0] + keyBytes;
    var rest := raw[1..];
    assert rest == [0] + keyBytes && rest[0] == 0;
    assert ReadUvarint(rest, 0, 0) == Some((0, 1));
    assert rest[1..1 + 0] == [] && rest[1 + 0..] == keyBytes;
  }
}
