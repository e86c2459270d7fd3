/** The gateway's receiving side: the connection buffer and the framing loop, and the encoder. */
module Gateways {
  import opened Domain
  import opened Bytes
  import opened Framing

  class ClientConnection {
    const buffer: array<byte>
    var bufferLen: nat

    ghost predicate Valid()
      reads this
    {
      buffer.Length == BUFFER_SIZE && bufferLen <= BUFFER_SIZE
    }

    /** The bytes kept from earlier reads. */
    ghost function Kept(): seq<byte>
      requires Valid()
      reads this, buffer
    {
      buffer[..bufferLen]
    }

    constructor ()
      ensures Valid() && Kept() == [] && fresh(buffer) && buffer.Length == 8192
    {
      buffer := new byte[BUFFER_SIZE](_ => 0);
      bufferLen := 0;
    }

    /** Copy the data behind what is kept. */
    method Fill(data: seq<byte>)
      requires Valid() && bufferLen + |data| <= BUFFER_SIZE
      modifies this, buffer
      ensures Valid() && Kept() == old(Kept()) + data
    {
      var start := bufferLen;
      forall i | 0 <= i < |data| {
        buffer[start + i] := data[i];
      }
      bufferLen := bufferLen + |data|;
      assert forall i :: 0 <= i < start ==> buffer[i] == old(buffer[i]);
      assert buffer[..start] == old(Kept());
      assert buffer[start..bufferLen] == data;
    }

    /** Move what is behind the first `processed` bytes to the front. */
    method Shift(processed: nat)
      requires Valid() && processed <= bufferLen
      modifies this, buffer
      ensures Valid() && Kept() == old(Kept())[processed..]
    {
      if processed > 0 {
        if processed < bufferLen {
          var n := bufferLen - processed;
          forall i | 0 <= i < n {
            buffer[i] := buffer[processed + i];
          }
          bufferLen := n;
        } else {
          bufferLen := 0;
        }
      }
    }

    /** The framing loop: every packet that is all there, and how many bytes they took. */
    method ParseLoop() returns (packets: seq<Packet>, processed: nat)
      requires Valid() && !Stalls(Kept())
      ensures processed <= bufferLen
      ensures packets == Parsed(Kept()).packets && Kept()[processed..] == Parsed(Kept()).rest
    {
      hide Stalls, Parsed, Decode;
      packets, processed := [], 0;
      ghost var all := Kept();
      assert all[0..] == all;
      assert [] + Parsed(all).packets == Parsed(all).packets;
      while processed < bufferLen
        invariant processed <= bufferLen && !Stalls(all[processed..])
        invariant Parsed(all) == Parse(packets + Parsed(all[processed..]).packets, Parsed(all[processed..]).rest)
        decreases bufferLen - processed
      {
        var frame := buffer[processed..bufferLen];
        assert frame == all[processed..];
        var p := Decode(frame);
        if p.None? {
          break;
        }
        ParseStep(frame);
        packets := packets + [p.value];
        processed := processed + p.value.header.length;
        assert frame[p.value.header.length..] == all[processed..];
      }
      if processed == bufferLen {
        assert all[processed..] == [];
        NothingDecoded();
      }
      ParseEnd(all[processed..]);
      assert packets + [] == packets;
    }

    /** One read: data that would not fit is not taken and the client is to be disconnected; otherwise
        exactly the packets completed by the data are handed over and the unparsed tail is kept. */
    method Receive(data: seq<byte>) returns (packets: seq<Packet>, overflow: bool)
      requires Valid() && (bufferLen + |data| <= BUFFER_SIZE ==> !Stalls(Kept() + data))
      modifies this, buffer
      ensures Valid() && overflow == (old(bufferLen) + |data| > BUFFER_SIZE)
      ensures overflow ==> packets == [] && Kept() == old(Kept())
      ensures !overflow ==> packets == Parsed(old(Kept()) + data).packets && Kept() == Parsed(old(Kept()) + data).rest
    {
      hide Stalls, Parsed;
      packets, overflow := [], bufferLen + |data| > BUFFER_SIZE;
      if overflow {
        return;
      }
      Fill(data);
      var processed;
      packets, processed := ParseLoop();
      Shift(processed);
    }
  }

  class Gateway {
    var connections: map<int, ClientConnection>

    constructor ()
      ensures connections == map[]
    {
      connections := map[];
    }

    ghost function Touched(connId: int): set<object>
      reads this
    {
      if connId in connections then {connections[connId], connections[connId].buffer} else {}
    }

    /** The connection is forgotten. */
    method OnDisconnect(connId: int)
      modifies this
      ensures connections == old(connections) - {connId}
    {
      connections := connections - {connId};
    }

    /** Data of an unknown connection is ignored; data that would not fit disconnects the client. */
    method OnRead(connId: int, data: seq<byte>) returns (packets: seq<Packet>, disconnect: bool)
      requires connId in connections ==>
                 var conn := connections[connId];
                 conn.Valid() && (conn.bufferLen + |data| <= BUFFER_SIZE ==> !Stalls(conn.Kept() + data))
      modifies this, Touched(connId)
      ensures connId !in old(connections) ==> packets == [] && !disconnect
      ensures connId in old(connections) ==>
                var conn, had := old(connections[connId]), old(connections[connId].Kept());
                && conn.Valid() && disconnect == (|had| + |data| > BUFFER_SIZE)
                && (if disconnect then packets == []
                    else packets == Parsed(had + data).packets && conn.Kept() == Parsed(had + data).rest)
      ensures connections == if disconnect then old(connections) - {connId} else old(connections)
    {
      hide Stalls, Parsed;
      packets, disconnect := [], false;
      if connId in connections {
        packets, disconnect := connections[connId].Receive(data);
        if disconnect {
          OnDisconnect(connId);
        }
      }
    }
  }

  lemma NothingDecoded()
    ensures Decode([]).None?
  {
  }

  /** A connection that is fed a stream of 24- to 4096-byte packets in reads of at most 4096 bytes, cut
      in any way, never overflows, and hands over exactly the packets of the stream. */
  method FeedAll(conn: ClientConnection, chunks: seq<seq<byte>>) returns (packets: seq<Packet>, overflowed: bool)
    requires conn.Valid() && conn.Kept() == []
    requires Sane(Joined(chunks)) && forall i :: 0 <= i < |chunks| ==> |chunks[i]| <= 4096
    modifies conn, conn.buffer
    ensures conn.Valid() && !overflowed && !Stalls(Joined(chunks))
    ensures packets == Parsed(Joined(chunks)).packets && conn.Kept() == Parsed(Joined(chunks)).rest
  {
    hide Stalls, Parsed, Sane;
    packets, overflowed := [], false;
    NothingParsed();
    for k := 0 to |chunks|
      invariant conn.Valid() && !overflowed && !Stalls(Joined(chunks[..k]))
      invariant packets == Parsed(Joined(chunks[..k])).packets && conn.Kept() == Parsed(Joined(chunks[..k])).rest
    {
      ghost var before := Joined(chunks[..k]);
      assert chunks[..k + 1][..k] == chunks[..k];
      assert Joined(chunks[..k + 1]) == before + chunks[k];
      SaneCut(chunks, k + 1);
      SanePrefix(before, chunks[k]);
      SaneParses(before);
      SaneParses(before + chunks[k]);
      ParseOn(before, chunks[k]);
      var more, overflow := conn.Receive(chunks[k]);
      packets, overflowed := packets + more, overflowed || overflow;
    }
    assert chunks[..|chunks|] == chunks;
  }

  /** Encode a packet struct into the destination, or refuse when it does not fit. */
  method Encode(dest: array<byte>, packet: seq<byte>, messageType: u16, sequence: u64, timestamp: u64)
    returns (size: nat)
    requires |packet| >= HEADER
    modifies dest
    ensures size == if dest.Length < |packet| then 0 else |packet|
    ensures size > 0 ==> dest[..size] == Encoded(packet, messageType, sequence, timestamp)
    ensures forall i :: size <= i < dest.Length ==> dest[i] == old(dest[i])
  {
    hide Stored;
    if dest.Length < |packet| {
      return 0;
    }
    ghost var tail := dest[|packet|..];
    size := |packet|;
    forall i | 0 <= i < size {
      dest[i] := packet[i];
    }
    assert dest[..] == packet + tail;
    EncodedStored(packet, tail, messageType, sequence, timestamp);
    Store(dest, 0, Put(size % 0x1_0000, 2));
    Store(dest, 2, Put(messageType, 2));
    Store(dest, 8, Put(sequence, 8));
    Store(dest, 16, Put(timestamp, 8));
  }

  /** Overwrite the bytes at `at`. */
  method Store(dest: array<byte>, at: nat, field: seq<byte>)
    requires at + |field| <= dest.Length
    modifies dest
    ensures dest[..] == Stored(old(dest[..]), at, field)
  {
    forall i | 0 <= i < |field| {
      dest[at + i] := field[i];
    }
  }
}
