/** Damaged command records and replay: what passes the checksum does what the command did. */
module CommandDamage {
  import opened Bytes
  import opened Wal
  import opened Journals
  import opened WalCorruption
  import opened Commands
  import opened BookSpec
  import opened Replay

  lemma IdFieldsBehind(s: seq<byte>)
    requires |s| == 40
    ensures var r := IdsOf(s);
            [r.1, r.2, r.3, r.4] == Unpack([8, 8, 8, 8], s[8..])
  {
    hide Get;
    CommandSizes();
    assert ID_FIELDS[1..] == [7, 8, 8, 8, 8] && [7, 8, 8, 8, 8][1..] == [8, 8, 8, 8];
    assert s[1..][7..] == s[8..];
    assert Unpack([7, 8, 8, 8, 8], s[1..]) == [Get(s[1..][..7])] + Unpack([8, 8, 8, 8], s[8..]);
  }

  /** The first eight bytes of a command hold its kind and padding, neither of which makes an order. */
  lemma SameOrder(p: seq<byte>, q: seq<byte>)
    requires |p| == |q| == COMMAND_SIZE && p[8..] == q[8..]
    ensures OrderOf(CommandOf(p)) == OrderOf(CommandOf(q)) && CommandOf(p).sequence == CommandOf(q).sequence
    ensures CommandOf(p).origClientOrderId == CommandOf(q).origClientOrderId
  {
    hide IdsOf, SizesOf, KindsOf;
    assert p[40..64] == p[8..][32..56] && q[40..64] == q[8..][32..56];
    assert p[64..] == p[8..][56..] && q[64..] == q[8..][56..];
    assert p[..40][8..] == p[8..][..32] && q[..40][8..] == q[8..][..32];
    IdFieldsBehind(p[..40]);
    IdFieldsBehind(q[..40]);
    var x, y := IdsOf(p[..40]), IdsOf(q[..40]);
    assert [x.1, x.2, x.3, x.4][0] == [y.1, y.2, y.3, y.4][0] && [x.1, x.2, x.3, x.4][2] == [y.1, y.2, y.3, y.4][2];
    assert [x.1, x.2, x.3, x.4][3] == [y.1, y.2, y.3, y.4][3];
  }

  lemma SameEffect(p: Progress, e: LogEntry, f: LogEntry)
    requires |e.payload| == |f.payload| == COMMAND_SIZE && e.payload[8..] == f.payload[8..]
    requires f.header.sequence == e.header.sequence && f.header.messageType == e.header.messageType
    ensures Apply(p, f) == Apply(p, e)
  {
    hide CommandOf, InsertSpec, CancelSpec;
    SameOrder(e.payload, f.payload);
  }

  /** Bytes that start as a record's header does, sealed with the checksum they hold. */
  lemma EntryOf(e: LogEntry, bad: seq<byte>) returns (f: LogEntry)
    requires |bad| == |EntryBytes(e)| && bad[..20] == EntryBytes(e)[..20] && Accepted(bad) && Sealed(e)
    ensures Sealed(f) && EntryBytes(f) == bad && f.payload == bad[24..]
    ensures f.header == e.header.(checksum := f.header.checksum)
  {
    hide Check, HeaderBytes, Get, Put;
    Powers();
    f := LogEntry(e.header.(checksum := Get(bad[20..24])), bad[24..]);
    PrefixOnly(e.header);
    PrefixOnly(f.header);
    HeaderBack(f.header);
    HeaderFields(HeaderBytes(f.header));
    var h := HeaderBytes(f.header);
    assert EntryBytes(e)[..20] == HeaderBytes(e.header)[..20];
    GetInjective(h[20..24], bad[20..24]);
    assert h == h[..20] + h[20..24] && bad == bad[..20] + bad[20..24] + bad[24..];
  }

  /** Any change within four consecutive bytes of a command record that leaves its length field intact is
      refused, or replay goes on exactly as if nothing had changed. */
  lemma DamageHarmless(e: LogEntry, bad: seq<byte>, at: nat, tail: seq<byte>, p: Progress)
    requires Altered(e, bad, at) && |e.payload| == COMMAND_SIZE
    ensures var was, now := Records(EntryBytes(e) + tail), Records(bad + tail);
            now == Scan([], false) || (now.intact == was.intact && Replayed(p, now.entries) == Replayed(p, was.entries))
  {
    hide Altered, Refused, Accepted, Sealed, Records, EntryBytes, Apply;
    if at != 22 {
      CommandWindow(e, bad, at, tail);
      RefusedIs(bad, tail);
    } else if Records(bad + tail) != Scan([], false) {
      RefusedIs(bad, tail);
      AlteredAccepted(e, bad, at, tail);
      AlteredParts(e, bad);
      var f := EntryOf(e, bad);
      RecordRead(e, tail);
      RecordRead(f, tail);
      SameEffect(p, e, f);
      FirstApplied(p, e, Records(tail).entries);
      FirstApplied(p, f, Records(tail).entries);
    }
  }

  lemma RefusedIs(bad: seq<byte>, tail: seq<byte>)
    ensures Refused(bad, tail) <==> Records(bad + tail) == Scan([], false)
  {
  }

  lemma FirstApplied(p: Progress, e: LogEntry, rest: seq<LogEntry>)
    ensures Replayed(p, [e] + rest) == Replayed(Apply(p, e), rest)
  {
    hide Apply;
    assert ([e] + rest)[1..] == rest;
  }

  lemma AlteredParts(e: LogEntry, bad: seq<byte>)
    requires Altered(e, bad, 22) && |e.payload| == COMMAND_SIZE
    ensures Sealed(e) && |bad| == |EntryBytes(e)| == 96 && bad[..20] == EntryBytes(e)[..20]
    ensures bad[24..][8..] == e.payload[8..]
  {
    hide Sealed, HeaderBytes;
    var good := EntryBytes(e);
    assert good[24..] == e.payload;
    assert bad[24..][8..] == bad[32..] && e.payload[8..] == good[32..];
  }
}
