/** Damaged snapshots: what the checksum of the body catches. */
module SnapshotDamage {
  import opened Domain
  import opened Bytes
  import opened Crc32c
  import opened Wal
  import opened BookSpec
  import opened SnapshotFormat
  import opened SnapshotLaws

  /** `bad` is a file of the same length with the same header and some change in four bytes of the body. */
  ghost predicate BodyAltered(file: seq<byte>, bad: seq<byte>, at: nat) {
    && |file| >= SNAPSHOT_HEADER && bad != file && SameOutside(bad, file, at)
    && bad[..SNAPSHOT_HEADER] == file[..SNAPSHOT_HEADER]
  }

  lemma BodiesDiffer(file: seq<byte>, bad: seq<byte>, at: nat)
    requires BodyAltered(file, bad, at)
    ensures var a, b := bad[SNAPSHOT_HEADER..], file[SNAPSHOT_HEADER..];
            a != b && SameOutside(a, b, if at < SNAPSHOT_HEADER then 0 else at - SNAPSHOT_HEADER)
  {
    var a, b := bad[SNAPSHOT_HEADER..], file[SNAPSHOT_HEADER..];
    assert file == file[..SNAPSHOT_HEADER] + b && bad == bad[..SNAPSHOT_HEADER] + a;
    assert forall i :: 0 <= i < |a| ==> a[i] == bad[i + SNAPSHOT_HEADER] && b[i] == file[i + SNAPSHOT_HEADER];
  }

  lemma DamageRefused(file: seq<byte>, bad: seq<byte>, at: nat)
    requires BodyAltered(file, bad, at) && GoodSnapshot(file) && Loads(file)
    requires var h := SnapshotHeaderOf(file[..SNAPSHOT_HEADER]);
             && ReadBody(h, file[SNAPSHOT_HEADER..]).used == |file| - SNAPSHOT_HEADER
             && ReadBody(h, bad[SNAPSHOT_HEADER..]).used == |file| - SNAPSHOT_HEADER
    ensures GoodSnapshot(bad) && !Loads(bad)
  {
    hide SnapshotHeaderOf, ReadBody, SameOutside, Register, Complement, Word32;
    SameSize(file, bad, at);
    BodiesDiffer(file, bad, at);
    var a, b := bad[SNAPSHOT_HEADER..], file[SNAPSHOT_HEADER..];
    assert a[..|a|] == a && b[..|b|] == b;
    BurstDetected(a, b, if at < SNAPSHOT_HEADER then 0 else at - SNAPSHOT_HEADER, 0);
    if BodyCheck(a) == BodyCheck(b) {
      WordInjective32(Complement(Crc(a, 0)), Complement(Crc(b, 0)));
      ComplementTwice(Crc(a, 0));
      ComplementTwice(Crc(b, 0));
    }
  }

  /** A saved snapshot with a change within four consecutive bytes behind its header loads only if the change
      makes the reader stop before the end of the body, as a smaller order count can; otherwise it is
      refused. */
  lemma SavedDamageRefused(book: Book, sequence: u64, timestamp: u64, bad: seq<byte>, at: nat)
    requires Countable(book.bids) && Countable(book.asks)
    requires BodyAltered(SnapshotBytes(book, sequence, timestamp), bad, at)
    ensures GoodSnapshot(bad)
    ensures Loads(bad) ==>
              ReadBody(SnapshotHeaderOf(bad[..SNAPSHOT_HEADER]), bad[SNAPSHOT_HEADER..]).used < |bad| - SNAPSHOT_HEADER
  {
    hide SnapshotHeaderOf, ReadBody, SameOutside, SnapshotBytes, Loads, Countable;
    var file := SnapshotBytes(book, sequence, timestamp);
    SavedLoads(book, sequence, timestamp);
    SameSize(file, bad, at);
    ReadWithin(SnapshotHeaderOf(bad[..SNAPSHOT_HEADER]), bad[SNAPSHOT_HEADER..]);
    if Loads(bad) &&
       ReadBody(SnapshotHeaderOf(bad[..SNAPSHOT_HEADER]), bad[SNAPSHOT_HEADER..]).used == |bad| - SNAPSHOT_HEADER {
      DamageRefused(file, bad, at);
    }
  }

  lemma ReadWithin(h: SnapshotHeader, body: seq<byte>)
    ensures ReadBody(h, body).used <= |body|
  {
  }

  lemma SameSize(file: seq<byte>, bad: seq<byte>, at: nat)
    requires BodyAltered(file, bad, at)
    ensures |bad| == |file| >= SNAPSHOT_HEADER
  {
  }
}
