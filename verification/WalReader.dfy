/** The recovery reader: a cursor over one segment file and the loop that replays it. */
module WalReader {
  import opened Bytes
  import opened WalCodec
  import opened Wal

  /** A buffered file reader; a short read consumes what is left and fails. */
  class ByteReader {
    const data: seq<byte>
    var pos: nat

    ghost predicate Valid()
      reads this
    {
      pos <= |data|
    }

    constructor (d: seq<byte>)
      ensures Valid() && data == d && pos == 0
    {
      data := d;
      pos := 0;
    }

    method ReadFull(n: nat) returns (b: Option<seq<byte>>)
      requires Valid()
      modifies this
      ensures Valid()
      ensures b == if old(pos) + n <= |data| then Some(data[old(pos)..old(pos) + n]) else None
      ensures b.Some? ==> pos == old(pos) + n
    {
      if n <= |data| - pos {
        b := Some(data[pos..pos + n]);
        pos := pos + n;
      } else {
        b := None;
        pos := |data|;
      }
    }

    method Discard(n: nat) returns (ok: bool)
      requires Valid()
      modifies this
      ensures Valid()
      ensures ok == (old(pos) + n <= |data|)
      ensures ok ==> pos == old(pos) + n
    {
      ok := n <= |data| - pos;
      pos := if ok then pos + n else |data|;
    }
  }

  /** The header read in place: what ReadHeader gives for the bytes from pos on. */
  ghost function HeaderAt(data: seq<byte>, pos: nat, bodyLen: nat): Option<ItemHeader> {
    var left := |data| - pos;
    if bodyLen < 20 || left < 4 then None else
    var idLen := FromBigEndian(data[pos..pos + 4]);
    if idLen > MAX_ID || idLen + 20 > bodyLen || left < 4 + idLen then None else
    var off := 4 + idLen;
    if left < off + 4 then None else
    var payloadLen := FromBigEndian(data[pos + off..pos + off + 4]);
    if 4 + idLen + 4 + payloadLen + 12 != bodyLen || left < bodyLen then None else
    Some(ItemHeader(data[pos + 4..pos + off], FromWord(FromBigEndian(data[pos + bodyLen - 12..pos + bodyLen][..8])),
                    FromBigEndian(data[pos + bodyLen - 12..pos + bodyLen][8..])))
  }

  lemma Within(data: seq<byte>, pos: nat, i: nat, j: nat)
    requires i <= j && pos + j <= |data|
    ensures data[pos..][i..j] == data[pos + i..pos + j]
  {
  }

  lemma Tail(data: seq<byte>, e: nat)
    requires e + 12 <= |data|
    ensures data[e..e + 12][..8] == data[e..e + 8] && data[e..e + 12][8..] == data[e + 8..e + 12]
  {
  }

  lemma HeaderInPlace(data: seq<byte>, pos: nat, bodyLen: nat)
    requires pos <= |data|
    ensures HeaderAt(data, pos, bodyLen) == ReadHeader(data[pos..], bodyLen)
  {
    hide FromBigEndian;
    var left := |data| - pos;
    if bodyLen >= 20 && left >= 4 {
      Within(data, pos, 0, 4);
      var idLen := FromBigEndian(data[pos..pos + 4]);
      if idLen <= MAX_ID && left >= 8 + idLen {
        HeaderParts(data, pos, bodyLen, idLen);
      }
    }
  }

  lemma HeaderParts(data: seq<byte>, pos: nat, bodyLen: nat, idLen: nat)
    requires bodyLen >= 20 && pos + 8 + idLen <= |data|
    ensures data[pos..][4..4 + idLen] == data[pos + 4..pos + (4 + idLen)]
    ensures data[pos..][4 + idLen..8 + idLen] == data[pos + (4 + idLen)..pos + (4 + idLen) + 4]
    ensures pos + bodyLen <= |data| ==>
              && data[pos..][bodyLen - 12..bodyLen - 4] == data[pos + bodyLen - 12..pos + bodyLen][..8]
              && data[pos..][bodyLen - 4..bodyLen] == data[pos + bodyLen - 12..pos + bodyLen][8..]
  {
    Within(data, pos, 4, 4 + idLen);
    Within(data, pos, 4 + idLen, 8 + idLen);
    if pos + bodyLen <= |data| {
      Tail(data, pos + bodyLen - 12);
      Within(data, pos, bodyLen - 12, bodyLen - 4);
      Within(data, pos, bodyLen - 4, bodyLen);
    }
  }

  /** Streams one item record off r without keeping its payload. */
  method ReadItemHeader(r: ByteReader, bodyLen: nat) returns (h: Option<ItemHeader>)
    requires r.Valid()
    modifies r
    ensures r.Valid()
    ensures h == ReadHeader(r.data[old(r.pos)..], bodyLen)
    ensures h.Some? ==> r.pos == old(r.pos) + bodyLen
  {
    hide FromBigEndian, ReadHeader;
    HeaderInPlace(r.data, r.pos, bodyLen);
    if bodyLen < 20 {
      return None;
    }
    var num := r.ReadFull(4);
    if num.None? {
      return None;
    }
    var idLen := FromBigEndian(num.value);
    if idLen > MAX_ID || idLen + 20 > bodyLen {
      return None;
    }
    var id := r.ReadFull(idLen);
    if id.None? {
      return None;
    }
    num := r.ReadFull(4);
    if num.None? {
      return None;
    }
    var payloadLen := FromBigEndian(num.value);
    if 4 + idLen + 4 + payloadLen + 12 != bodyLen {
      return None;
    }
    var ok := r.Discard(payloadLen);
    if !ok {
      return None;
    }
    var tail := r.ReadFull(12);
    if tail.None? {
      return None;
    }
    return Some(ItemHeader(id.value, FromWord(FromBigEndian(tail.value[..8])), FromBigEndian(tail.value[8..])));
  }

  /** replaySegment: fills the pending and acked maps from one file. */
  method ReplaySegment(num: nat, data: seq<byte>, st0: Recovery) returns (st: Recovery)
    ensures st == ReplayBytes(num, data, st0)
  {
    hide FromBigEndian, ReadHeader, DecodeAck, SeeItem, SeeAck;
    st := st0;
    var r := new ByteReader(data);
    var magic := r.ReadFull(4);
    if magic.None? || magic.value != MAGIC {
      return;
    }
    var version := r.ReadFull(1);
    if version.None? {
      return;
    }
    var offset := HEADER_SIZE;
    while true
      invariant r.Valid() && r.data == data && r.pos == offset
      invariant ReplayFrom(num, data, offset, st) == ReplayBytes(num, data, st0)
      decreases |data| - offset
    {
      var header := r.ReadFull(5);
      if header.None? {
        return;
      }
      var kind, bodyLen := header.value[0], FromBigEndian(header.value[1..]);
      assert header.value[1..] == data[offset + 1..offset + 5];
      if bodyLen > MAX_BODY {
        return;
      }
      var recordOffset := offset;
      offset := offset + 5 + bodyLen;
      if kind == TYPE_ITEM {
        var h := ReadItemHeader(r, bodyLen);
        if h.None? {
          return;
        }
        st := SeeItem(num, recordOffset, h.value, st);
      } else if kind == TYPE_ACK {
        var body := r.ReadFull(bodyLen);
        if body.None? {
          return;
        }
        assert body.value == data[recordOffset + 5..offset];
        match DecodeAck(body.value) {
          case None =>
          case Some(id) => st := SeeAck(id, st);
        }
      } else {
        var ok := r.Discard(bodyLen);
        if !ok {
          return;
        }
      }
    }
  }
}
