/** Engine.IO packets and the record-separated bodies of long-polling. */
module Payload {
  import opened Options
  import opened Text

  const SEPARATOR := '\U{1E}'
  const CLOSE := "1"
  const NOOP := "6"

  datatype Packet = Packet(kind: char, data: string)

  predicate IsPacketType(c: char) {
    '0' <= c <= '6'
  }

  function Encode(p: Packet): string {
    [p.kind] + p.data
  }

  function ParsePacket(encoded: string): Option<Packet> {
    if encoded == "" || !IsPacketType(encoded[0]) then None else Some(Packet(encoded[0], encoded[1..]))
  }

  /** Parsing undoes encoding exactly for the known packet types, and accepts nothing but encodings. */
  lemma ParseEncode(p: Packet, encoded: string)
    ensures ParsePacket(Encode(p)) == Some(p) <==> IsPacketType(p.kind)
    ensures ParsePacket(encoded) == Some(p) ==> Encode(p) == encoded
  {
    assert Encode(p)[1..] == p.data;
    if ParsePacket(encoded) == Some(p) {
      assert [encoded[0]] + encoded[1..] == encoded;
    }
  }

  /** A packet is anything that begins with one of the seven digits 0 to 6; the rest is its data. */
  lemma ParsesDigits(encoded: string)
    ensures ParsePacket(encoded).Some? <==> encoded != "" && 48 <= encoded[0] as int <= 54
    ensures ParsePacket(encoded).Some? ==> encoded == [ParsePacket(encoded).value.kind] + ParsePacket(encoded).value.data
  {
    if encoded != "" { assert [encoded[0]] + encoded[1..] == encoded; }
  }

  /** The segments that are not empty. */
  function NonEmpty(parts: seq<string>): seq<string> {
    if parts == [] then []
    else if parts[0] == "" then NonEmpty(parts[1..])
    else [parts[0]] + NonEmpty(parts[1..])
  }

  function EncodedPayload(packets: seq<string>): string {
    Join(packets, SEPARATOR)
  }

  /** Between two packets of a body stands the character 30, and none before, after or instead of one. */
  lemma BodyJoins(packet: string, others: seq<string>)
    ensures EncodedPayload([packet] + others) ==
            if others == [] then packet else packet + [30 as char] + EncodedPayload(others)
    ensures EncodedPayload([]) == ""
  {
    assert ([packet] + others)[1..] == others;
  }

  function DecodedPayload(body: string): seq<string> {
    NonEmpty(Split(body, SEPARATOR))
  }

  lemma {:induction false} JoinAppend(packets: seq<string>, p: string)
    requires packets != []
    ensures EncodedPayload(packets + [p]) == EncodedPayload(packets) + [SEPARATOR] + p
  {
    var all := packets + [p];
    assert EncodedPayload([p]) == p;
    if |packets| == 1 {
      assert all[1..] == [p];
      assert EncodedPayload(all) == all[0] + [SEPARATOR] + EncodedPayload(all[1..]);
    } else {
      assert all[1..] == packets[1..] + [p];
      JoinAppend(packets[1..], p);
      assert all[0] + [SEPARATOR] + (EncodedPayload(packets[1..]) + [SEPARATOR] + p)
          == (all[0] + [SEPARATOR] + EncodedPayload(packets[1..])) + [SEPARATOR] + p;
    }
  }

  method EncodePayload(packets: seq<string>) returns (out: string)
    ensures out == EncodedPayload(packets)
  {
    out := "";
    for i := 0 to |packets|
      invariant out == EncodedPayload(packets[..i])
    {
      assert packets[..i + 1] == packets[..i] + [packets[i]];
      if i != 0 {
        out := out + [SEPARATOR];
        JoinAppend(packets[..i], packets[i]);
      }
      out := out + packets[i];
    }
    assert packets[..|packets|] == packets;
  }

  lemma {:induction false} NonEmptyConcat(a: seq<string>, c: seq<string>)
    ensures NonEmpty(a + c) == NonEmpty(a) + NonEmpty(c)
  {
    if a == [] {
      assert a + c == c;
    } else {
      assert (a + c)[1..] == a[1..] + c;
      NonEmptyConcat(a[1..], c);
    }
  }

  lemma NonEmptyOne(seg: string)
    ensures NonEmpty([seg]) == if seg == "" then [] else [seg]
  {
    assert [seg][1..] == [];
  }

  method DecodePayload(body: string) returns (out: seq<string>)
    ensures out == DecodedPayload(body)
  {
    out := [];
    var start := 0;
    while true
      invariant 0 <= start <= |body|
      invariant out + DecodedPayload(body[start..]) == DecodedPayload(body)
      decreases |body| - start
    {
      var sep := Find(body, SEPARATOR, start);
      var rest := body[start..];
      var seg := if sep < 0 then rest else body[start..sep];
      NonEmptyOne(seg);
      if sep < 0 {
        SplitFree(rest, SEPARATOR);
      } else {
        assert rest[..sep - start] == seg && rest[sep - start + 1..] == body[sep + 1..];
        SplitAt(rest, sep - start, SEPARATOR);
        NonEmptyConcat([seg], Split(body[sep + 1..], SEPARATOR));
      }
      assert DecodedPayload(rest) == NonEmpty([seg]) + if sep < 0 then [] else DecodedPayload(body[sep + 1..]);
      if seg != "" { out := out + [seg]; }
      if sep < 0 { return; }
      start := sep + 1;
    }
  }

  /** What a body can carry: a packet that is not empty and holds no separator. */
  predicate WireSafe(p: string) {
    p != "" && Free(p, SEPARATOR)
  }

  lemma {:induction false} DecodedAreSafe(parts: seq<string>)
    requires forall i :: 0 <= i < |parts| ==> Free(parts[i], SEPARATOR)
    ensures forall p :: p in NonEmpty(parts) ==> WireSafe(p)
  {
    if parts != [] {
      DecodedAreSafe(parts[1..]);
      assert parts[0] == "" || WireSafe(parts[0]);
    }
  }

  lemma {:induction false} NothingEmpty(parts: seq<string>)
    requires forall i :: 0 <= i < |parts| ==> parts[i] != ""
    ensures NonEmpty(parts) == parts
  {
    if parts != [] {
      NothingEmpty(parts[1..]);
      assert [parts[0]] + parts[1..] == parts;
    }
  }

  /** Decoding a body gives back the batch, exactly when every packet of it is wire-safe. */
  lemma DecodeEncode(packets: seq<string>)
    ensures DecodedPayload(EncodedPayload(packets)) == packets <==> forall p :: p in packets ==> WireSafe(p)
  {
    if forall p :: p in packets ==> WireSafe(p) {
      assert forall i :: 0 <= i < |packets| ==> WireSafe(packets[i]);
      if packets == [] {
        SplitFree("", SEPARATOR);
        NonEmptyOne("");
      } else {
        SplitJoin(packets, SEPARATOR);
        NothingEmpty(packets);
      }
    } else {
      DecodedAreSafe(Split(EncodedPayload(packets), SEPARATOR));
    }
  }
}
