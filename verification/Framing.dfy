/** Packets on the wire: encoding, and cutting a byte stream back into packets. */
module Framing {
  import opened Domain
  import opened Bytes

  const HEADER: nat := 24
  const HEADER_FIELDS: seq<nat> := [2, 2, 4, 8, 8]

  datatype MessageHeader = MessageHeader(length: u16, messageType: u16, padding: u32, sequence: u64, timestamp: u64)

  lemma HeaderSize()
    ensures Size(HEADER_FIELDS) == HEADER
  {
    assert HEADER_FIELDS[1..] == [2, 4, 8, 8] && [2, 4, 8, 8][1..] == [4, 8, 8] && [4, 8, 8][1..] == [8, 8] &&
           [8, 8][1..] == [8];
    assert Size([8]) == 8;
  }

  function HeaderBytes(h: MessageHeader): (r: seq<byte>)
    ensures |r| == HEADER
  {
    HeaderSize();
    Pack(HEADER_FIELDS, [h.length, h.messageType, h.padding, h.sequence, h.timestamp])
  }

  function HeaderOf(s: seq<byte>): MessageHeader
    requires |s| == HEADER
  {
    HeaderSize();
    Powers();
    var v := Unpack(HEADER_FIELDS, s);
    MessageHeader(v[0], v[1], v[2], v[3], v[4])
  }

  lemma HeaderBack(h: MessageHeader)
    ensures |HeaderBytes(h)| == HEADER && HeaderOf(HeaderBytes(h)) == h
  {
    hide Pack, Unpack, Size, Pow256;
    HeaderSize();
    Powers();
    PackUnpack(HEADER_FIELDS, [h.length, h.messageType, h.padding, h.sequence, h.timestamp]);
  }

  /** A packet as handed over: its header and what its length claims behind the header. */
  datatype Packet = Packet(header: MessageHeader, payload: seq<byte>)

  /** The first packet of the data, if it is all there. */
  function Decode(data: seq<byte>): (r: Option<Packet>)
    ensures r.Some? <==> |data| >= HEADER && |data| >= HeaderOf(data[..HEADER]).length
    ensures r.Some? ==> r.value.header == HeaderOf(data[..HEADER]) && r.value.header.length <= |data|
  {
    if |data| < HEADER then None
    else
      var h := HeaderOf(data[..HEADER]);
      if |data| < h.length then None
      else Some(Packet(h, if h.length >= HEADER then data[HEADER..h.length] else []))
  }

  /** The parser meets a packet that claims no bytes at all, and would stand still. */
  predicate Stalls(s: seq<byte>)
    decreases |s|
  {
    var p := Decode(s);
    p.Some? && (p.value.header.length == 0 || Stalls(s[p.value.header.length..]))
  }

  datatype Parse = Parse(packets: seq<Packet>, rest: seq<byte>)

  /** The packets of a stream, and the tail that is not yet one. */
  function Parsed(s: seq<byte>): Parse
    requires !Stalls(s)
    decreases |s|
  {
    var p := Decode(s);
    if p.None? then Parse([], s)
    else
      var more := Parsed(s[p.value.header.length..]);
      Parse([p.value] + more.packets, more.rest)
  }

  // ----- cutting the stream anywhere

  /** More data does not change a packet that is all there. */
  lemma DecodeMore(a: seq<byte>, b: seq<byte>)
    requires Decode(a).Some?
    ensures Decode(a + b) == Decode(a)
    ensures (a + b)[Decode(a).value.header.length..] == a[Decode(a).value.header.length..] + b
  {
    hide HeaderOf;
    assert (a + b)[..HEADER] == a[..HEADER];
    var n := Decode(a).value.header.length;
    if n >= HEADER {
      assert (a + b)[HEADER..n] == a[HEADER..n];
    }
  }

  /** The input that loops: a header whose length field is zero. */
  lemma StallExample()
    ensures Stalls(HeaderBytes(MessageHeader(0, 0, 0, 0, 0)))
  {
    HeaderBack(MessageHeader(0, 0, 0, 0, 0));
    hide HeaderBytes, HeaderOf;
    var s := HeaderBytes(MessageHeader(0, 0, 0, 0, 0));
    assert s[..HEADER] == s;
  }

  lemma {:induction false} StallsMore(a: seq<byte>, b: seq<byte>)
    requires !Stalls(a + b)
    ensures !Stalls(a)
    decreases |a|
  {
    if Stalls(a) {
      DecodeMore(a, b);
      var n := Decode(a).value.header.length;
      if n > 0 {
        StallsMore(a[n..], b);
      }
    }
  }

  /** Parsing may stop anywhere and go on with the tail kept and the data that comes. */
  lemma {:induction false} ParseOn(a: seq<byte>, b: seq<byte>)
    requires !Stalls(a + b)
    ensures !Stalls(a) && !Stalls(Parsed(a).rest + b)
    ensures Parsed(a + b) == var more := Parsed(Parsed(a).rest + b); Parse(Parsed(a).packets + more.packets, more.rest)
    decreases |a|
  {
    hide Decode, Stalls, Parsed;
    StallsMore(a, b);
    if Decode(a).Some? {
      DecodeMore(a, b);
      ParseStep(a);
      ParseStep(a + b);
      var n := Decode(a).value.header.length;
      ParseOn(a[n..], b);
      var more := Parsed(Parsed(a[n..]).rest + b);
      assert [Decode(a).value] + (Parsed(a[n..]).packets + more.packets) == Parsed(a).packets + more.packets;
    } else {
      ParseEnd(a);
      assert [] + Parsed(a + b).packets == Parsed(a + b).packets;
    }
  }

  lemma ParseStep(s: seq<byte>)
    requires Decode(s).Some? && !Stalls(s)
    ensures var n := Decode(s).value.header.length;
            && 0 < n <= |s| && !Stalls(s[n..])
            && Parsed(s) == Parse([Decode(s).value] + Parsed(s[n..]).packets, Parsed(s[n..]).rest)
  {
  }

  lemma ParseEnd(s: seq<byte>)
    requires Decode(s).None?
    ensures !Stalls(s) && Parsed(s) == Parse([], s)
  {
  }

  /** What is left of the data after `n` rounds of the parser loop. */
  function Rounds(s: seq<byte>, n: nat): seq<byte>
    decreases n
  {
    if n == 0 || Decode(s).None? then s else Rounds(s[Decode(s).value.header.length..], n - 1)
  }

  /** The parser loop comes to an end exactly when it meets no packet of length zero. */
  lemma {:induction false} LoopEndsIff(s: seq<byte>)
    ensures (exists n: nat :: Decode(Rounds(s, n)).None?) <==> !Stalls(s)
    decreases |s|
  {
    if n: nat :| Decode(Rounds(s, n)).None? {
      if Stalls(s) {
        StallsForever(s, n);
      }
    }
    if !Stalls(s) {
      if Decode(s).None? {
        assert Rounds(s, 0) == s;
      } else {
        ParseStep(s);
        var rest := s[Decode(s).value.header.length..];
        LoopEndsIff(rest);
        var n: nat :| Decode(Rounds(rest, n)).None?;
        assert Rounds(s, n + 1) == Rounds(rest, n);
      }
    }
  }

  lemma {:induction false} StallsForever(s: seq<byte>, n: nat)
    requires Stalls(s)
    ensures Stalls(Rounds(s, n)) && Decode(Rounds(s, n)).Some?
    decreases n
  {
    if n > 0 {
      var k := Decode(s).value.header.length;
      if k == 0 {
        assert s[k..] == s;
      }
      StallsForever(s[k..], n - 1);
    }
  }

  /** Every header the parser meets gives a length from 24 to 4096. */
  predicate Sane(s: seq<byte>)
    decreases |s|
  {
    |s| >= HEADER ==>
      var n := HeaderOf(s[..HEADER]).length;
      HEADER <= n <= 4096 && (n <= |s| ==> Sane(s[n..]))
  }

  lemma {:induction false} SaneParses(s: seq<byte>)
    requires Sane(s)
    ensures !Stalls(s) && |Parsed(s).rest| < 4096 && Sane(Parsed(s).rest)
    decreases |s|
  {
    hide HeaderOf;
    if Decode(s).Some? {
      SaneParses(s[Decode(s).value.header.length..]);
    }
  }

  lemma {:induction false} SanePrefix(a: seq<byte>, b: seq<byte>)
    requires Sane(a + b)
    ensures Sane(a)
    decreases |a|
  {
    hide HeaderOf;
    if |a| >= HEADER {
      assert (a + b)[..HEADER] == a[..HEADER];
      var n := HeaderOf(a[..HEADER]).length;
      if n <= |a| {
        assert (a + b)[n..] == a[n..] + b;
        SanePrefix(a[n..], b);
      }
    }
  }

  const BUFFER_SIZE: nat := 8192

  /** The stream that these reads are cut from. */
  ghost function Joined(chunks: seq<seq<byte>>): seq<byte> {
    if chunks == [] then [] else Joined(chunks[..|chunks| - 1]) + chunks[|chunks| - 1]
  }

  lemma {:induction false} SaneCut(chunks: seq<seq<byte>>, k: nat)
    requires k <= |chunks| && Sane(Joined(chunks))
    ensures Sane(Joined(chunks[..k]))
    decreases |chunks|
  {
    hide Sane;
    if k == |chunks| {
      assert chunks[..k] == chunks;
    } else {
      var init := chunks[..|chunks| - 1];
      SanePrefix(Joined(init), chunks[|chunks| - 1]);
      SaneCut(init, k);
      assert init[..k] == chunks[..k];
    }
  }

  lemma NothingParsed()
    ensures !Stalls([]) && Parsed([]) == Parse([], [])
  {
  }

  // ----- what a sender encodes

  /** A packet struct with its header filled in; the header's padding bytes stay. */
  function Encoded(packet: seq<byte>, messageType: u16, sequence: u64, timestamp: u64): (r: seq<byte>)
    requires |packet| >= HEADER
    ensures |r| == |packet|
  {
    Powers();
    HeaderBytes(MessageHeader(|packet| % 0x1_0000, messageType, Get(packet[4..8]), sequence, timestamp)) +
      packet[HEADER..]
  }

  /** The header fields as they lie in the packet. */
  lemma {:induction false} EncodedParts(packet: seq<byte>, messageType: u16, sequence: u64, timestamp: u64)
    requires |packet| >= HEADER
    ensures Encoded(packet, messageType, sequence, timestamp)
            == Put(|packet| % 0x1_0000, 2) + Put(messageType, 2) + packet[4..8] + Put(sequence, 8) +
              Put(timestamp, 8) + packet[HEADER..]
  {
    hide Put, Get;
    Powers();
    GetPut(packet[4..8]);
    GetBelow(packet[4..8]);
    HeaderParts(MessageHeader(|packet| % 0x1_0000, messageType, Get(packet[4..8]), sequence, timestamp));
  }

  lemma GetBelow(s: seq<byte>)
    requires |s| == 4
    ensures 0 <= Get(s) < 0x1_0000_0000
  {
    Powers();
  }

  lemma HeaderParts(h: MessageHeader)
    ensures HeaderBytes(h) == Put(h.length, 2) + Put(h.messageType, 2) + Put(h.padding, 4) + Put(h.sequence, 8) +
            Put(h.timestamp, 8)
  {
    hide Put;
    PackConcat([2, 2], [h.length, h.messageType], [4, 8, 8], [h.padding, h.sequence, h.timestamp]);
    assert [2, 2] + [4, 8, 8] == HEADER_FIELDS;
    assert [h.length, h.messageType] + [h.padding, h.sequence, h.timestamp] ==
           [h.length, h.messageType, h.padding, h.sequence, h.timestamp];
    assert [2, 2][1..] == [2] && [4, 8, 8][1..] == [8, 8] && [8, 8][1..] == [8];
    assert Pack([2], [h.messageType]) == Put(h.messageType, 2) + [];
    assert Pack([8], [h.timestamp]) == Put(h.timestamp, 8) + [];
  }

  /** `s` with the bytes from `at` on overwritten. */
  ghost function Stored(s: seq<byte>, at: nat, field: seq<byte>): (r: seq<byte>)
    requires at + |field| <= |s|
    ensures |r| == |s|
  {
    s[..at] + field + s[at + |field|..]
  }

  lemma StoredFields(s: seq<byte>, a: seq<byte>, b: seq<byte>, c: seq<byte>, d: seq<byte>)
    requires |s| >= HEADER && |a| == |b| == 2 && |c| == |d| == 8
    ensures Stored(Stored(Stored(Stored(s, 0, a), 2, b), 8, c), 16, d) == a + b + s[4..8] + c + d + s[HEADER..]
  {
    var s1 := Stored(s, 0, a);
    assert s1 == a + s[2..];
    var s2 := Stored(s1, 2, b);
    assert s2 == a + b + s[4..];
    var s3 := Stored(s2, 8, c);
    assert s3 == a + b + s[4..8] + c + s[16..];
  }

  /** Copying the struct and then writing the header fields over it encodes it. */
  lemma {:induction false} EncodedStored(packet: seq<byte>, tail: seq<byte>, messageType: u16, sequence: u64,
                                         timestamp: u64)
    requires |packet| >= HEADER
    ensures Stored(Stored(Stored(Stored(packet + tail, 0, Put(|packet| % 0x1_0000, 2)), 2, Put(messageType, 2)), 8,
                          Put(sequence, 8)), 16, Put(timestamp, 8))
            == Encoded(packet, messageType, sequence, timestamp) + tail
  {
    hide Encoded, Stored;
    var s, a, b, c, d := packet + tail, Put(|packet| % 0x1_0000, 2), Put(messageType, 2), Put(sequence, 8),
      Put(timestamp, 8);
    StoredFields(s, a, b, c, d);
    EncodedParts(packet, messageType, sequence, timestamp);
    BehindHeader(a + b + packet[4..8] + c + d, packet, tail);
  }

  lemma BehindHeader(header: seq<byte>, packet: seq<byte>, tail: seq<byte>)
    requires |packet| >= HEADER
    ensures (packet + tail)[4..8] == packet[4..8]
    ensures header + (packet + tail)[HEADER..] == header + packet[HEADER..] + tail
  {
  }

  /** An encoded packet in front of anything is decoded as itself. */
  lemma EncodedDecodes(packet: seq<byte>, messageType: u16, sequence: u64, timestamp: u64, tail: seq<byte>)
    requires HEADER <= |packet| < 0x1_0000
    ensures var s, p := Encoded(packet, messageType, sequence, timestamp) + tail,
            Decode(Encoded(packet, messageType, sequence, timestamp) + tail);
            && p.Some? && p.value.payload == packet[HEADER..]
            && p.value.header.length == |packet| && p.value.header.messageType == messageType
            && p.value.header.sequence == sequence && p.value.header.timestamp == timestamp
            && s[p.value.header.length..] == tail
  {
    hide HeaderBytes, HeaderOf;
    Powers();
    var h := MessageHeader(|packet|, messageType, Get(packet[4..8]), sequence, timestamp);
    HeaderBack(h);
    var s := Encoded(packet, messageType, sequence, timestamp) + tail;
    assert s[..HEADER] == HeaderBytes(h);
    assert s[HEADER..|packet|] == packet[HEADER..] && s[|packet|..] == tail;
  }

  /** A packet given to the encoder, with the header values it fills in. */
  datatype Outgoing = Outgoing(packet: seq<byte>, messageType: u16, sequence: u64, timestamp: u64)

  ghost predicate Sendable(out: seq<Outgoing>) {
    forall i :: 0 <= i < |out| ==> HEADER <= |out[i].packet| <= 4096
  }

  ghost function EncodedAll(out: seq<Outgoing>): seq<byte>
    requires Sendable(out)
    decreases |out|
  {
    if out == [] then []
    else Encoded(out[0].packet, out[0].messageType, out[0].sequence, out[0].timestamp) + EncodedAll(out[1..])
  }

  ghost predicate Delivers(p: Packet, o: Outgoing)
    requires |o.packet| >= HEADER
  {
    && p.payload == o.packet[HEADER..] && p.header.length == |o.packet|
    && p.header.messageType == o.messageType && p.header.sequence == o.sequence && p.header.timestamp == o.timestamp
  }

  /** A stream of encoded packets parses into exactly those packets with nothing left, and may be cut
      in any way. */
  lemma {:induction false} EncodedStream(out: seq<Outgoing>)
    requires Sendable(out)
    ensures var s := EncodedAll(out);
            && Sane(s) && !Stalls(s) && Parsed(s).rest == [] && |Parsed(s).packets| == |out|
            && forall i :: 0 <= i < |out| ==> Delivers(Parsed(s).packets[i], out[i])
    decreases |out|
  {
    hide HeaderOf, Encoded;
    if out != [] {
      EncodedStream(out[1..]);
      EncodedDecodes(out[0].packet, out[0].messageType, out[0].sequence, out[0].timestamp, EncodedAll(out[1..]));
    }
  }
}
