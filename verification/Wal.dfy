/** One WAL segment file: its records, its bytes, reading one record back at an
    offset and replaying the whole file. */
module Wal {
  import opened Bytes
  import opened WalCodec

  datatype Record = ItemRec(item: Item) | AckRec(id: Id)

  /** Locates one spilled item without holding its payload. */
  datatype DiskRef = DiskRef(id: Id, segment: nat, offset: nat, enqueuedAt: int, attempts: int)

  /** The two maps a replay fills: references still owed, and ids seen acked. */
  datatype Recovery = Recovery(pending: map<Id, DiskRef>, acked: set<Id>)

  const TYPE_ITEM: byte := 1
  const TYPE_ACK: byte := 2
  const MAGIC: seq<byte> := [75, 88, 87, 81]
  const HEADER_SIZE: nat := 5

  function Body(r: Record): seq<byte> {
    match r
    case ItemRec(item) => ItemBody(item)
    case AckRec(id) => AckBody(id)
  }

  function RecordSize(r: Record): nat {
    5 + |Body(r)|
  }

  function RecordBytes(r: Record): (b: seq<byte>)
    ensures |b| == RecordSize(r)
  {
    [if r.ItemRec? then TYPE_ITEM else TYPE_ACK] + BigEndian(4, |Body(r)|) + Body(r)
  }

  function SegmentSize(recs: seq<Record>): nat {
    if recs == [] then HEADER_SIZE else SegmentSize(recs[..|recs| - 1]) + RecordSize(recs[|recs| - 1])
  }

  /** The file: magic, version, then the records in append order. */
  function SegmentBytes(recs: seq<Record>): (b: seq<byte>)
    ensures |b| == SegmentSize(recs)
  {
    if recs == [] then MAGIC + [1] else SegmentBytes(recs[..|recs| - 1]) + RecordBytes(recs[|recs| - 1])
  }

  /** Records as the encoders produce them. */
  predicate Sound(r: Record) {
    match r
    case ItemRec(item) => Encodable(item)
    case AckRec(id) => |id| <= MAX_ID
  }

  predicate Readable(r: Record) {
    Sound(r) && |Body(r)| <= MAX_BODY
  }

  // ---- readItem ----

  function ReadAt(data: seq<byte>, off: nat): Option<Item> {
    if off + 5 > |data| || data[off] != TYPE_ITEM then None else
    var bodyLen := FromBigEndian(data[off + 1..off + 5]);
    if bodyLen > MAX_BODY || off + 5 + bodyLen > |data| then None else
    DecodeItem(data[off + 5..off + 5 + bodyLen])
  }

  // ---- replaySegment, byte for byte ----

  function ReplayFrom(num: nat, data: seq<byte>, off: nat, st: Recovery): Recovery
    decreases if off <= |data| then |data| - off else 0
  {
    if off + 5 > |data| then st else
    var bodyLen := FromBigEndian(data[off + 1..off + 5]);
    var next := off + 5 + bodyLen;
    if bodyLen > MAX_BODY then st
    else if data[off] == TYPE_ITEM then
      match ReadHeader(data[off + 5..], bodyLen)
      case None => st
      case Some(h) => ReplayFrom(num, data, next, SeeItem(num, off, h, st))
    else if next > |data| then st
    else if data[off] == TYPE_ACK then
      match DecodeAck(data[off + 5..next])
      case None => ReplayFrom(num, data, next, st)
      case Some(id) => ReplayFrom(num, data, next, SeeAck(id, st))
    else ReplayFrom(num, data, next, st)
  }

  function ReplayBytes(num: nat, data: seq<byte>, st: Recovery): Recovery {
    if |data| < HEADER_SIZE || data[..4] != MAGIC then st else ReplayFrom(num, data, HEADER_SIZE, st)
  }

  function SeeItem(num: nat, off: nat, h: ItemHeader, st: Recovery): Recovery {
    if h.id in st.acked then st
    else st.(pending := st.pending[h.id := DiskRef(h.id, num, off, h.enqueuedAt, h.attempts)])
  }

  function SeeAck(id: Id, st: Recovery): Recovery {
    Recovery(st.pending - {id}, st.acked + {id})
  }

  // ---- replaySegment, record for record ----

  function Visit(num: nat, off: nat, r: Record, st: Recovery): Recovery {
    match r
    case ItemRec(item) =>
      SeeItem(num, off, ItemHeader(item.id, Canonical(item).enqueuedAt, Canonical(item).attempts), st)
    case AckRec(id) => SeeAck(id, st)
  }

  function Fold(num: nat, recs: seq<Record>, st: Recovery): Recovery {
    if recs == [] then st else
    var init := recs[..|recs| - 1];
    Visit(num, SegmentSize(init), recs[|recs| - 1], Fold(num, init, st))
  }

  // ---- Where records sit ----

  lemma {:induction false} RecordInPlace(recs: seq<Record>, i: nat) returns (rest: seq<byte>)
    requires i < |recs|
    ensures SegmentBytes(recs) == SegmentBytes(recs[..i]) + RecordBytes(recs[i]) + rest
    ensures SegmentSize(recs[..i + 1]) == SegmentSize(recs[..i]) + RecordSize(recs[i])
    ensures i + 1 == |recs| ==> rest == []
    decreases |recs|
  {
    hide RecordBytes, RecordSize;
    var n := |recs| - 1;
    assert recs[..i + 1][..i] == recs[..i];
    assert recs[..i + 1][i] == recs[i];
    if i == n {
      rest := [];
      assert recs[..i + 1] == recs;
      assert SegmentBytes(recs) + rest == SegmentBytes(recs);
    } else {
      var init := recs[..n];
      assert init[..i] == recs[..i] && init[..i + 1] == recs[..i + 1] && init[i] == recs[i];
      var mid := RecordInPlace(init, i);
      rest := mid + RecordBytes(recs[n]);
      Regroup(SegmentBytes(recs[..i]), RecordBytes(recs[i]), mid, RecordBytes(recs[n]));
    }
  }

  lemma HeaderBytes(pre: seq<byte>, r: Record, rest: seq<byte>)
    requires |Body(r)| < TWO_32
    ensures var data := pre + RecordBytes(r) + rest; var off := |pre|;
            && data[off] == (if r.ItemRec? then TYPE_ITEM else TYPE_ACK)
            && FromBigEndian(data[off + 1..off + 5]) == |Body(r)|
            && data[off + 5..] == Body(r) + rest
            && data[off + 5..off + RecordSize(r)] == Body(r)
  {
    hide Body, BigEndian, FromBigEndian;
    Parts(pre, [if r.ItemRec? then TYPE_ITEM else TYPE_ACK], BigEndian(4, |Body(r)|), Body(r), rest);
    LengthRoundTrip(|Body(r)|);
  }

  lemma Parts(pre: seq<byte>, t: seq<byte>, len: seq<byte>, body: seq<byte>, rest: seq<byte>)
    requires |t| == 1 && |len| == 4
    ensures var data := pre + (t + len + body) + rest; var off := |pre|;
            && data[off] == t[0]
            && data[off + 1..off + 5] == len
            && data[off + 5..] == body + rest
            && data[off + 5..off + 5 + |body|] == body
  {
  }

  /** readItem at the place a record was written gives back the item, and refuses the record
      exactly when it is an ack or too long for the readers. */
  lemma ReadBack(recs: seq<Record>, i: nat)
    requires i < |recs| && Sound(recs[i])
    ensures ReadAt(SegmentBytes(recs), SegmentSize(recs[..i])) ==
            if recs[i].ItemRec? && Readable(recs[i]) then Some(Canonical(recs[i].item)) else None
  {
    hide RecordBytes, SegmentBytes, SegmentSize, ReadAt, Readable, Canonical;
    var rest := RecordInPlace(recs, i);
    ReadRecord(SegmentBytes(recs[..i]), recs[i], rest);
  }

  lemma ReadRecord(pre: seq<byte>, r: Record, rest: seq<byte>)
    requires Sound(r)
    ensures ReadAt(pre + RecordBytes(r) + rest, |pre|)
            == if r.ItemRec? && Readable(r) then Some(Canonical(r.item)) else None
  {
    hide RecordBytes, FromBigEndian, DecodeItem, ItemBody, AckBody, Canonical;
    HeaderBytes(pre, r, rest);
    if r.ItemRec? {
      ItemRoundTrip(r.item);
    }
  }

  /** One round of the replay loop, on a record followed by anything. */
  lemma ReplayOne(num: nat, pre: seq<byte>, r: Record, rest: seq<byte>, st: Recovery)
    requires Sound(r)
    ensures var data := pre + RecordBytes(r) + rest;
            ReplayFrom(num, data, |pre|, st) ==
            if Readable(r) then ReplayFrom(num, data, |pre| + RecordSize(r), Visit(num, |pre|, r, st)) else st
  {
    hide RecordBytes, FromBigEndian, ReadHeader, DecodeAck, SeeItem, SeeAck, ItemBody, AckBody;
    HeaderBytes(pre, r, rest);
    match r {
      case ItemRec(item) => HeaderRoundTrip(item, rest);
      case AckRec(id) => AckRoundTrip(id);
    }
  }

  /** A record cut short at the end of the file is not seen at all. */
  lemma ReplayTorn(num: nat, pre: seq<byte>, r: Record, k: nat, st: Recovery)
    requires Sound(r) && k < RecordSize(r)
    ensures ReplayFrom(num, pre + RecordBytes(r)[..k], |pre|, st) == st
  {
    if k >= 5 {
      TornHeader(pre, r, k);
      hide RecordBytes, FromBigEndian, ReadHeader;
      var data := pre + RecordBytes(r)[..k];
      var h := ReadHeader(data[|pre| + 5..], |Body(r)|);
      assert |data[|pre| + 5..]| == k - 5;
    }
  }

  lemma TornHeader(pre: seq<byte>, r: Record, k: nat)
    requires Sound(r) && 5 <= k < RecordSize(r)
    ensures var data := pre + RecordBytes(r)[..k]; var off := |pre|;
            && data[off] == (if r.ItemRec? then TYPE_ITEM else TYPE_ACK)
            && FromBigEndian(data[off + 1..off + 5]) == |Body(r)|
  {
    hide FromBigEndian, ItemBody, AckBody, BigEndian;
    var t := [if r.ItemRec? then TYPE_ITEM else TYPE_ACK];
    var len := BigEndian(4, |Body(r)|);
    var part := Body(r)[..k - 5];
    assert RecordBytes(r)[..k] == t + len + part;
    assert pre + (t + len + part) + [] == pre + (t + len + part);
    Parts(pre, t, len, part, []);
    LengthRoundTrip(|Body(r)|);
  }

  lemma FoldSnoc(num: nat, recs: seq<Record>, i: nat, st: Recovery)
    requires i < |recs|
    ensures Fold(num, recs[..i + 1], st) == Visit(num, SegmentSize(recs[..i]), recs[i], Fold(num, recs[..i], st))
  {
    assert recs[..i + 1][..i] == recs[..i];
  }

  /** Replaying a file whose first records are whole visits each at the offset it was appended at. */
  lemma {:induction false} ReplayVisits(num: nat, recs: seq<Record>, junk: seq<byte>, i: nat, st: Recovery)
    requires i <= |recs| && forall j | 0 <= j < |recs| :: Readable(recs[j])
    ensures ReplayFrom(num, SegmentBytes(recs) + junk, SegmentSize(recs[..i]), Fold(num, recs[..i], st)) ==
            ReplayFrom(num, SegmentBytes(recs) + junk, SegmentSize(recs), Fold(num, recs, st))
    decreases |recs| - i
  {
    hide RecordBytes, SegmentBytes, SegmentSize, Body, Fold, ReplayFrom, Visit;
    if i == |recs| {
      assert recs[..i] == recs;
    } else {
      var rest := RecordInPlace(recs, i);
      var pre := SegmentBytes(recs[..i]);
      Regroup(pre, RecordBytes(recs[i]), rest, junk);
      ReplayOne(num, pre, recs[i], rest + junk, Fold(num, recs[..i], st));
      FoldSnoc(num, recs, i, st);
      ReplayVisits(num, recs, junk, i + 1, st);
    }
  }

  lemma StartsWithMagic(recs: seq<Record>)
    ensures |SegmentBytes(recs)| >= HEADER_SIZE && SegmentBytes(recs)[..4] == MAGIC
  {
    if recs != [] {
      StartsWithMagic(recs[..|recs| - 1]);
    }
  }

  /** Replaying a file of readable records, whole or with its last append torn at any byte,
      is visiting the whole records in order. */
  lemma ReplayIsFold(num: nat, recs: seq<Record>, r: Record, k: nat, st: Recovery)
    requires forall j | 0 <= j < |recs| :: Readable(recs[j])
    requires Sound(r) && k < RecordSize(r)
    ensures ReplayBytes(num, SegmentBytes(recs) + RecordBytes(r)[..k], st) == Fold(num, recs, st)
  {
    var data := SegmentBytes(recs) + RecordBytes(r)[..k];
    StartsWithMagic(recs);
    assert data[..4] == SegmentBytes(recs)[..4];
    assert recs[..0] == [];
    ReplayVisits(num, recs, RecordBytes(r)[..k], 0, st);
    ReplayTorn(num, SegmentBytes(recs), r, k, Fold(num, recs, st));
  }

  lemma ReplayWhole(num: nat, recs: seq<Record>, st: Recovery)
    requires forall j | 0 <= j < |recs| :: Readable(recs[j])
    ensures ReplayBytes(num, SegmentBytes(recs), st) == Fold(num, recs, st)
  {
    ReplayIsFold(num, recs, AckRec([]), 0, st);
    assert SegmentBytes(recs) + RecordBytes(AckRec([]))[..0] == SegmentBytes(recs);
  }

  /** One record too long for the readers hides itself and everything appended to its segment
      after it, acks included: the replay is that of the records before it. */
  lemma UnreadableHidesTheRest(num: nat, recs: seq<Record>, big: Record, later: seq<Record>, st: Recovery)
    requires forall j | 0 <= j < |recs| :: Readable(recs[j])
    requires Sound(big) && !Readable(big)
    ensures ReplayBytes(num, SegmentBytes(recs + [big] + later), st) == Fold(num, recs, st)
  {
    hide RecordBytes, SegmentBytes, ReplayFrom, Visit, Body;
    var all := recs + [big] + later;
    var i := |recs|;
    assert all[..i] == recs && all[i] == big;
    var rest := RecordInPlace(all, i);
    var pre := SegmentBytes(recs);
    var data := SegmentBytes(all);
    StartsWithMagic(all);
    assert data == pre + (RecordBytes(big) + rest);
    assert recs[..0] == [];
    assert SegmentSize(recs[..0]) == HEADER_SIZE;
    ReplayVisits(num, recs, RecordBytes(big) + rest, 0, st);
    ReplayOne(num, pre, big, rest, Fold(num, recs, st));
  }
}
