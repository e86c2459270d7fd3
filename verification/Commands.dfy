/** The inbound order command and its 72-byte form, the payload of every journal record. */
module Commands {
  import opened Domain
  import opened Bytes

  const NEW_ORDER: u8 := 0
  const CANCEL_ORDER: u8 := 1

  /** The inbound command; `connId` is the bit pattern of a signed field. */
  datatype OrderCommand = OrderCommand(kind: u8, sequence: u64, timestamp: u64, clientOrderId: u64,
                                       origClientOrderId: u64,
                                       symbolId: u32, accountId: u32, price: Price, qty: u64,
                                       side: Side, orderType: OrderType, tif: u8, connId: u32)

  // The 72 bytes of the command in three runs of fields: 40, 24 and 8 bytes.
  const COMMAND_SIZE: nat := 72
  const ID_FIELDS: seq<nat> := [1, 7, 8, 8, 8, 8]
  const SIZE_FIELDS: seq<nat> := [4, 4, 8, 8]
  const KIND_FIELDS: seq<nat> := [1, 1, 1, 1, 4]

  lemma CommandSizes()
    ensures Size(ID_FIELDS) == 40 && Size(SIZE_FIELDS) == 24 && Size(KIND_FIELDS) == 8
  {
    assert ID_FIELDS[1..] == [7, 8, 8, 8, 8] && [7, 8, 8, 8, 8][1..] == [8, 8, 8, 8] && [8, 8, 8, 8][1..] == [8, 8, 8];
    assert [8, 8, 8][1..] == [8, 8] && [8, 8][1..] == [8] && Size([8]) == 8;
    assert SIZE_FIELDS[1..] == [4, 8, 8] && [4, 8, 8][1..] == [8, 8];
    assert KIND_FIELDS[1..] == [1, 1, 1, 4] && [1, 1, 1, 4][1..] == [1, 1, 4] && [1, 1, 4][1..] == [1, 4] &&
           [1, 4][1..] == [4];
    assert Size([4]) == 4;
  }

  function SideCode(side: Side): u8 { if side == Buy then 1 else 2 }

  function SideOf(code: u8): Side { if code == 1 then Buy else Sell }

  function TypeCode(t: OrderType): u8 {
    match t case Limit => 1 case Market => 2 case Stop => 3
  }

  function TypeOf(code: u8): OrderType { if code == 1 then Limit else if code == 2 then Market else Stop }

  function IdBytes(c: OrderCommand): (r: seq<byte>)
    ensures |r| == 40
  {
    CommandSizes();
    Pack(ID_FIELDS, [c.kind, 0, c.sequence, c.timestamp, c.clientOrderId, c.origClientOrderId])
  }

  function SizeBytes(c: OrderCommand): (r: seq<byte>)
    ensures |r| == 24
  {
    CommandSizes();
    Pack(SIZE_FIELDS, [c.symbolId, c.accountId, Wrap64(c.price), c.qty])
  }

  function KindBytes(c: OrderCommand): (r: seq<byte>)
    ensures |r| == 8
  {
    CommandSizes();
    Pack(KIND_FIELDS, [SideCode(c.side), TypeCode(c.orderType), c.tif, 0, c.connId])
  }

  function CommandBytes(c: OrderCommand): (r: seq<byte>)
    ensures |r| == COMMAND_SIZE
  {
    IdBytes(c) + SizeBytes(c) + KindBytes(c)
  }

  function IdsOf(s: seq<byte>): (r: (u8, u64, u64, u64, u64))
    requires |s| == 40
  {
    CommandSizes();
    Powers();
    var v := Unpack(ID_FIELDS, s);
    (v[0], v[2], v[3], v[4], v[5])
  }

  function SizesOf(s: seq<byte>): (r: (u32, u32, Price, u64))
    requires |s| == 24
  {
    CommandSizes();
    Powers();
    var v := Unpack(SIZE_FIELDS, s);
    (v[0], v[1], Signed(v[2]), v[3])
  }

  function KindsOf(s: seq<byte>): (r: (Side, OrderType, u8, u32))
    requires |s| == 8
  {
    CommandSizes();
    Powers();
    var v := Unpack(KIND_FIELDS, s);
    (SideOf(v[0]), TypeOf(v[1]), v[2], v[4])
  }

  function CommandOf(s: seq<byte>): OrderCommand
    requires |s| == COMMAND_SIZE
  {
    var (a, b, c) := (IdsOf(s[..40]), SizesOf(s[40..64]), KindsOf(s[64..]));
    OrderCommand(a.0, a.1, a.2, a.3, a.4, b.0, b.1, b.2, b.3, c.0, c.1, c.2, c.3)
  }

  lemma IdsBack(c: OrderCommand)
    ensures IdsOf(IdBytes(c)) == (c.kind, c.sequence, c.timestamp, c.clientOrderId, c.origClientOrderId)
  {
    hide Pack, Unpack, Size, Pow256;
    CommandSizes();
    Powers();
    PackUnpack(ID_FIELDS, [c.kind, 0, c.sequence, c.timestamp, c.clientOrderId, c.origClientOrderId]);
  }

  lemma SizesBack(c: OrderCommand)
    ensures SizesOf(SizeBytes(c)) == (c.symbolId, c.accountId, c.price, c.qty)
  {
    hide Pack, Unpack, Size, Pow256, Signed;
    CommandSizes();
    Powers();
    SignedWrap(c.price);
    PackUnpack(SIZE_FIELDS, [c.symbolId, c.accountId, Wrap64(c.price), c.qty]);
  }

  lemma KindsBack(c: OrderCommand)
    ensures KindsOf(KindBytes(c)) == (c.side, c.orderType, c.tif, c.connId)
  {
    hide Pack, Unpack, Size, Pow256;
    CommandSizes();
    Powers();
    PackUnpack(KIND_FIELDS, [SideCode(c.side), TypeCode(c.orderType), c.tif, 0, c.connId]);
  }

  lemma CommandBack(c: OrderCommand)
    ensures CommandOf(CommandBytes(c)) == c
  {
    hide IdsOf, SizesOf, KindsOf;
    IdsBack(c);
    SizesBack(c);
    KindsBack(c);
    var s := CommandBytes(c);
    assert s[..40] == IdBytes(c) && s[40..64] == SizeBytes(c) && s[64..] == KindBytes(c);
  }

  function OrderOf(c: OrderCommand): Order {
    Order(c.clientOrderId, c.price, c.qty, c.sequence, c.symbolId, c.side, c.orderType)
  }
}
