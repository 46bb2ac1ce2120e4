/** Record bodies of the write-ahead log: item and ack encodings, the whole-body
    decoder used on delivery and the streaming header reader used on recovery. */
module WalCodec {
  import opened Bytes

  type Id = seq<byte>

  /** EnqueuedAt is nanoseconds since the Unix epoch, unbounded as time.Time is. */
  datatype Item = Item(id: Id, payload: seq<byte>, enqueuedAt: int, attempts: int)

  const MAX_ID: nat := 0x10_0000
  const MAX_BODY: nat := 0x100_0000

  /** What encodeItemRecord accepts. */
  predicate Encodable(item: Item) {
    |item.id| <= MAX_ID && |item.payload| <= MAX_BODY
  }

  function BodyLength(item: Item): nat {
    20 + |item.id| + |item.payload|
  }

  /** What the readers accept: every record body they will look at. */
  predicate Fits(item: Item) {
    Encodable(item) && BodyLength(item) <= MAX_BODY
  }

  function Tail(item: Item): (b: seq<byte>)
    ensures |b| == 12
  {
    BigEndian(8, ToWord(item.enqueuedAt)) + BigEndian(4, item.attempts % TWO_32)
  }

  function ItemBody(item: Item): (b: seq<byte>)
    ensures |b| == BodyLength(item)
  {
    BigEndian(4, |item.id|) + item.id + BigEndian(4, |item.payload|) + item.payload + Tail(item)
  }

  function AckBody(id: Id): (b: seq<byte>)
    ensures |b| == 4 + |id|
  {
    BigEndian(4, |id| % TWO_32) + id
  }

  /** The item a reader gets back: the clock as a signed 64-bit word, attempts as an unsigned 32-bit one. */
  function Canonical(item: Item): Item {
    item.(enqueuedAt := FromWord(ToWord(item.enqueuedAt)), attempts := item.attempts % TWO_32)
  }

  /** Reading back is exact precisely for clocks of int64 nanoseconds and attempts of 32 bits. */
  lemma CanonicalIff(item: Item)
    ensures Canonical(item) == item <==>
            -TWO_63 <= item.enqueuedAt < TWO_63 && 0 <= item.attempts < TWO_32
  {
    var n := item.enqueuedAt;
    if -TWO_63 <= n < 0 {
      assert ToWord(n) == n + TWO_64 by {
        assert (n + TWO_64) % TWO_64 == n + TWO_64;
        assert n % TWO_64 == (n + TWO_64) % TWO_64;
      }
    }
  }

  function DecodeItem(body: seq<byte>): Option<Item> {
    if |body| < 16 then None else
    var idLen := FromBigEndian(body[..4]);
    if idLen > |body| - 4 then None else
    var id := body[4..4 + idLen];
    var off := 4 + idLen;
    if |body| < off + 4 then None else
    var payloadLen := FromBigEndian(body[off..off + 4]);
    if payloadLen > |body| - (off + 4) then None else
    var payload := body[off + 4..off + 4 + payloadLen];
    var end := off + 4 + payloadLen;
    if |body| < end + 12 then None else
    Some(Item(id, payload, FromWord(FromBigEndian(body[end..end + 8])),
              FromBigEndian(body[end + 8..end + 12])))
  }

  function DecodeAck(body: seq<byte>): Option<Id> {
    if |body| < 4 then None else
    var idLen := FromBigEndian(body[..4]);
    if idLen > |body| - 4 then None else Some(body[4..4 + idLen])
  }

  /** What recovery keeps of an item record. */
  datatype ItemHeader = ItemHeader(id: Id, enqueuedAt: int, attempts: int)

  /** readItemHeader over the bytes that follow a record header; None is a corrupt record. */
  function ReadHeader(s: seq<byte>, bodyLen: nat): (h: Option<ItemHeader>)
    ensures h.Some? ==> bodyLen <= |s|
  {
    if bodyLen < 20 || |s| < 4 then None else
    var idLen := FromBigEndian(s[..4]);
    if idLen > MAX_ID || idLen + 20 > bodyLen || |s| < 4 + idLen then None else
    var off := 4 + idLen;
    if |s| < off + 4 then None else
    var payloadLen := FromBigEndian(s[off..off + 4]);
    if 4 + idLen + 4 + payloadLen + 12 != bodyLen then None else
    var end := off + 4 + payloadLen;
    if |s| < end + 12 then None else
    Some(ItemHeader(s[4..4 + idLen], FromWord(FromBigEndian(s[end..end + 8])),
                    FromBigEndian(s[end + 8..end + 12])))
  }

  // ---- Round trips ----

  lemma LengthRoundTrip(n: nat)
    requires n < TWO_32
    ensures FromBigEndian(BigEndian(4, n)) == n
  {
    Widths();
    BigEndianRoundTrip(4, n);
  }

  lemma TailRoundTrip(item: Item)
    ensures FromWord(FromBigEndian(Tail(item)[..8])) == Canonical(item).enqueuedAt
    ensures FromBigEndian(Tail(item)[8..12]) == Canonical(item).attempts
  {
    Widths();
    var t := Tail(item);
    assert t[..8] == BigEndian(8, ToWord(item.enqueuedAt));
    assert t[8..12] == BigEndian(4, item.attempts % TWO_32);
    BigEndianRoundTrip(8, ToWord(item.enqueuedAt));
    BigEndianRoundTrip(4, item.attempts % TWO_32);
  }

  lemma BodyLayout(item: Item, rest: seq<byte>)
    ensures var s := ItemBody(item) + rest; var off := 4 + |item.id|; var end := off + 4 + |item.payload|;
            && s[..4] == BigEndian(4, |item.id|)
            && s[4..off] == item.id
            && s[off..off + 4] == BigEndian(4, |item.payload|)
            && s[off + 4..end] == item.payload
            && s[end..end + 8] == Tail(item)[..8]
            && s[end + 8..end + 12] == Tail(item)[8..12]
  {
    var s := ItemBody(item) + rest;
    var off := 4 + |item.id|;
    var end := off + 4 + |item.payload|;
    Slices(BigEndian(4, |item.id|), item.id, BigEndian(4, |item.payload|), item.payload, Tail(item), rest);
    assert s[end..end + 12] == Tail(item);
    assert s[end..end + 8] == s[end..end + 12][..8];
    assert s[end + 8..end + 12] == s[end..end + 12][8..12];
  }

  /** decodeItemRecord undoes encodeItemRecord, up to the widths of the two trailing numbers. */
  lemma ItemRoundTrip(item: Item)
    requires Encodable(item)
    ensures DecodeItem(ItemBody(item)) == Some(Canonical(item))
  {
    hide FromBigEndian, BigEndian, ItemBody, Tail;
    var b := ItemBody(item);
    var off := 4 + |item.id|;
    var end := off + 4 + |item.payload|;
    assert FromBigEndian(b[..4]) == |item.id| && b[4..off] == item.id
        && FromBigEndian(b[off..off + 4]) == |item.payload| && b[off + 4..end] == item.payload
        && b[end..end + 8] == Tail(item)[..8] && b[end + 8..end + 12] == Tail(item)[8..12] by {
      assert b + [] == b;
      BodyLayout(item, []);
      LengthRoundTrip(|item.id|);
      LengthRoundTrip(|item.payload|);
    }
    TailRoundTrip(item);
  }

  lemma AckRoundTrip(id: Id)
    requires |id| < TWO_32
    ensures DecodeAck(AckBody(id)) == Some(id)
  {
    var b := AckBody(id);
    assert b[..4] == BigEndian(4, |id|);
    LengthRoundTrip(|id|);
    assert b[4..4 + |id|] == id;
  }

  /** The streaming reader accepts every encoded item, whatever follows it in the file. */
  lemma HeaderRoundTrip(item: Item, rest: seq<byte>)
    requires Encodable(item)
    ensures ReadHeader(ItemBody(item) + rest, BodyLength(item)) ==
            Some(ItemHeader(item.id, Canonical(item).enqueuedAt, Canonical(item).attempts))
  {
    hide FromBigEndian, BigEndian, ItemBody, Tail;
    BodyLayout(item, rest);
    LengthRoundTrip(|item.id|);
    LengthRoundTrip(|item.payload|);
    TailRoundTrip(item);
  }

  /** On any bytes at all, the streaming reader accepts exactly the bodies the whole-body
      decoder accepts with no byte left over and an id within the limit, and it reports the
      same id, clock and attempts. */
  lemma HeaderAgreesWithDecode(body: seq<byte>, rest: seq<byte>)
    ensures var h := ReadHeader(body + rest, |body|); var d := DecodeItem(body);
            && (h.Some? <==> d.Some? && BodyLength(d.value) == |body| && |d.value.id| <= MAX_ID)
            && (h.Some? ==> h.value == ItemHeader(d.value.id, d.value.enqueuedAt, d.value.attempts))
  {
    var s := body + rest;
    if |body| >= 20 {
      assert s[..4] == body[..4];
      var idLen := FromBigEndian(body[..4]);
      var off := 4 + idLen;
      if idLen <= MAX_ID && off + 16 <= |body| {
        assert s[4..off] == body[4..off];
        assert s[off..off + 4] == body[off..off + 4];
        var end := off + 4 + FromBigEndian(body[off..off + 4]);
        if end + 12 == |body| {
          assert s[end..end + 8] == body[end..end + 8];
          assert s[end + 8..end + 12] == body[end + 8..end + 12];
        }
      }
    }
  }

  /** A body the reader refuses for its length alone comes only from an item in the band between
      the two limits: accepted by the writer, never readable again. */
  lemma UnreadableBand(item: Item)
    requires Encodable(item)
    ensures Fits(item) <==> |item.payload| <= MAX_BODY - 20 - |item.id|
    ensures exists big: Item :: Encodable(big) && !Fits(big)
  {
    var big := Item([], seq(MAX_BODY, i => 0), 0, 0);
    assert Encodable(big) && !Fits(big);
  }

  // ---- encodeItemRecord fills one buffer front to back ----

  method CopyInto(a: array<byte>, off: nat, src: seq<byte>)
    requires off + |src| <= a.Length
    modifies a
    ensures a[..] == old(a[..off]) + src + old(a[off + |src|..])
  {
    var i := 0;
    while i < |src|
      invariant 0 <= i <= |src|
      invariant forall j | 0 <= j < i :: a[off + j] == src[j]
      invariant forall j | 0 <= j < off || off + i <= j < a.Length :: a[j] == old(a[j])
    {
      a[off + i] := src[i];
      i := i + 1;
    }
  }

  method EncodeItemRecord(item: Item) returns (r: Option<seq<byte>>)
    ensures r.Some? <==> Encodable(item)
    ensures r.Some? ==> r.value == ItemBody(item)
  {
    if |item.id| > MAX_ID || |item.payload| > MAX_BODY {
      return None;
    }
    var body := new byte[4 + |item.id| + 4 + |item.payload| + 8 + 4](_ => 0);
    var off := 0;
    CopyInto(body, off, BigEndian(4, |item.id|));
    off := off + 4;
    ghost var done := BigEndian(4, |item.id|);
    assert body[..off] == done;
    CopyInto(body, off, item.id);
    off := off + |item.id|;
    done := done + item.id;
    assert body[..off] == done;
    CopyInto(body, off, BigEndian(4, |item.payload|));
    off := off + 4;
    done := done + BigEndian(4, |item.payload|);
    assert body[..off] == done;
    CopyInto(body, off, item.payload);
    off := off + |item.payload|;
    done := done + item.payload;
    assert body[..off] == done;
    CopyInto(body, off, BigEndian(8, ToWord(item.enqueuedAt)));
    off := off + 8;
    done := done + BigEndian(8, ToWord(item.enqueuedAt));
    assert body[..off] == done;
    CopyInto(body, off, BigEndian(4, item.attempts % TWO_32));
    done := done + BigEndian(4, item.attempts % TWO_32);
    assert body[..] == done;
    return Some(body[..]);
  }
}
