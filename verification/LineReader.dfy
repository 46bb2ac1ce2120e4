/** Reading capped lines from a byte stream that arrives in arbitrary pieces. */
module LineReaders {
  import opened Bytes
  import opened Utf8

  const NEWLINE: byte := 10

  /** How the stream ends: at its end, or in some other error. */
  datatype Ending = Eof | Broken

  datatype SliceResult = Whole | BufferFull | Stopped

  /** Where the first newline is, or the length. */
  function Break(s: seq<byte>): (i: nat)
    ensures i <= |s| && (i < |s| ==> s[i] == NEWLINE) && forall j | 0 <= j < i :: s[j] != NEWLINE
  {
    if s == [] || s[0] == NEWLINE then 0 else 1 + Break(s[1..])
  }

  lemma BreakIs(s: seq<byte>, i: nat)
    requires i <= |s| && (i < |s| ==> s[i] == NEWLINE) && forall j | 0 <= j < i :: s[j] != NEWLINE
    ensures Break(s) == i
  {
  }

  /** The buffered reader under the line reader: `room` is how much it has buffered at each call
      before it gives up looking for a newline. */
  class SliceReader {
    var rest: seq<byte>
    var calls: nat
    const ending: Ending
    const room: nat -> nat

    constructor (stream: seq<byte>, ending: Ending, room: nat -> nat)
      ensures rest == stream && calls == 0 && this.ending == ending && this.room == room
    {
      rest, calls := stream, 0;
      this.ending, this.room := ending, room;
    }

    /** ReadSlice: through the newline, or a full buffer without one, or what is left. */
    method ReadSlice() returns (chunk: seq<byte>, res: SliceResult)
      requires room(calls) > 0
      modifies this
      ensures old(rest) == chunk + rest && calls == old(calls) + 1
      ensures res.Whole? ==> chunk != [] && chunk[|chunk| - 1] == NEWLINE && NEWLINE !in chunk[..|chunk| - 1]
      ensures !res.Whole? ==> NEWLINE !in chunk
      ensures res.BufferFull? ==> chunk != []
      ensures res.Stopped? ==> rest == []
    {
      var n := room(calls);
      calls := calls + 1;
      var i := Break(rest);
      if i < |rest| && i < n {
        chunk, res := rest[..i + 1], Whole;
        assert chunk[..i] == rest[..i];
        rest := rest[i + 1..];
      } else if n <= |rest| {
        chunk, res := rest[..n], BufferFull;
        rest := rest[n..];
      } else {
        chunk, res := rest, Stopped;
        rest := [];
      }
    }
  }

  /** A line as it is handed on. */
  datatype Line = Line(bytes: seq<byte>, truncated: bool)

  predicate TooLong(line: seq<byte>, max: int) {
    0 < max < |line|
  }

  function Cut(line: seq<byte>, max: int): Line {
    if TooLong(line, max) then Line(Trimmed(line[..max]), true) else Line(line, false)
  }

  datatype Next = Got(line: Line) | End | Failed

  /** What is left after the first line. */
  function RestAfter(s: seq<byte>): seq<byte> {
    if Break(s) < |s| then s[Break(s) + 1..] else []
  }

  /** next, on the stream itself. */
  function NextOf(s: seq<byte>, max: int, ending: Ending): Next {
    if Break(s) < |s| then Got(Cut(s[..Break(s)], max))
    else if ending.Broken? then Failed
    else if s == [] then End
    else Got(Cut(s, max))
  }

  function Capped(seen: seq<byte>, max: int): seq<byte> {
    if TooLong(seen, max) then seen[..max] else seen
  }

  lemma CappedMore(seen: seq<byte>, chunk: seq<byte>, max: int)
    ensures var out := Capped(seen, max);
            && (max > 0 && |out| + |chunk| > max && chunk != [] ==>
                  && Capped(seen + chunk, max) == (if max - |out| > 0 then out + chunk[..max - |out|] else out)
                  && TooLong(seen + chunk, max))
            && (max > 0 && |out| + |chunk| <= max ==> Capped(seen + chunk, max) == out + chunk)
            && (max > 0 && |out| + |chunk| <= max && chunk != [] ==> !TooLong(seen + chunk, max))
            && (max <= 0 ==> Capped(seen + chunk, max) == out + chunk)
            && (chunk == [] ==> seen + chunk == seen)
  {
  }

  class LineReader {
    const r: SliceReader
    const max: int

    constructor (r: SliceReader, max: int)
      ensures this.r == r && this.max == max
    {
      this.r, this.max := r, max;
    }

    /** The part of a piece that still fits is kept; the rest is read and dropped. */
    method Keep(out: seq<byte>, truncated: bool, chunk: seq<byte>, ghost seen: seq<byte>)
      returns (out': seq<byte>, truncated': bool)
      requires out == Capped(seen, max) && truncated == TooLong(seen, max)
      ensures out' == Capped(seen + chunk, max) && truncated' == TooLong(seen + chunk, max)
    {
      out', truncated' := out, truncated;
      CappedMore(seen, chunk, max);
      if |chunk| > 0 {
        if max <= 0 {
          out' := out + chunk;
        } else if |out| + |chunk| > max {
          if max - |out| > 0 {
            out' := out + chunk[..max - |out|];
          }
          truncated' := true;
        } else {
          out' := out + chunk;
        }
      }
    }

    /** next: however the bytes come, it is the next line of the stream. */
    method ReadLine() returns (res: Next)
      requires forall n :: r.room(n) > 0
      modifies r
      ensures res == NextOf(old(r.rest), max, r.ending)
      ensures r.rest == RestAfter(old(r.rest))
    {
      hide Trimmed, Capped, TooLong, NextOf, RestAfter, Cut, Break;
      var out: seq<byte>, truncated := [], false;
      ghost var seen: seq<byte> := [];
      ghost var all := r.rest;
      CutIs(seen, max);
      while true
        invariant all == seen + r.rest && NEWLINE !in seen
        invariant out == Capped(seen, max) && truncated == TooLong(seen, max)
        decreases |r.rest|
      {
        var chunk, err := r.ReadSlice();
        ghost var slice := chunk;
        if |chunk| > 0 && chunk[|chunk| - 1] == NEWLINE {
          chunk := chunk[..|chunk| - 1];
        }
        Arrived(all, seen, slice, chunk, r.rest);
        out, truncated := Keep(out, truncated, chunk, seen);
        seen := seen + chunk;
        CutIs(seen, max);
        match err {
          case Whole =>
            WholeLine(all, seen, r.rest, max, r.ending);
            var line := TrimToRune(out, truncated);
            return Got(Line(line, truncated));
          case BufferFull =>
          case Stopped =>
            LastLine(all, seen, max, r.ending);
            if r.ending.Broken? {
              return Failed;
            }
            if |out| > 0 {
              var line := TrimToRune(out, truncated);
              return Got(Line(line, truncated));
            }
            return End;
        }
      }
    }
  }

  /** The stream, with a slice taken off it and its newline off the slice. */
  lemma Arrived(all: seq<byte>, seen: seq<byte>, slice: seq<byte>, chunk: seq<byte>, rest: seq<byte>)
    requires all == seen + (slice + rest) && NEWLINE !in seen
    requires if slice != [] && slice[|slice| - 1] == NEWLINE then chunk == slice[..|slice| - 1] else chunk == slice
    ensures slice != [] && slice[|slice| - 1] == NEWLINE ==> all == seen + chunk + [NEWLINE] + rest
    ensures slice == [] || slice[|slice| - 1] != NEWLINE ==> all == seen + chunk + rest
    ensures NEWLINE !in chunk ==> NEWLINE !in seen + chunk
  {
  }

  lemma CutIs(line: seq<byte>, max: int)
    ensures Cut(line, max)
            == Line(if TooLong(line, max) then Trimmed(Capped(line, max)) else Capped(line, max), TooLong(line, max))
    ensures Capped(line, max) == [] <==> line == []
    ensures !TooLong([], max)
  {
  }

  lemma WholeLine(all: seq<byte>, seen: seq<byte>, rest: seq<byte>, max: int, ending: Ending)
    requires all == seen + [NEWLINE] + rest && NEWLINE !in seen
    ensures NextOf(all, max, ending) == Got(Cut(seen, max)) && RestAfter(all) == rest
  {
    hide Cut;
    assert all[|seen|] == NEWLINE;
    BreakIs(all, |seen|);
    assert all[..|seen|] == seen;
  }

  lemma LastLine(all: seq<byte>, seen: seq<byte>, max: int, ending: Ending)
    requires all == seen + [] && NEWLINE !in seen
    ensures RestAfter(all) == []
    ensures NextOf(all, max, ending)
            == if ending.Broken? then Failed else if seen == [] then End else Got(Cut(seen, max))
  {
    hide Cut;
    assert all == seen;
    BreakIs(all, |all|);
  }

  // ---- The whole stream ----

  /** The lines of a stream: split on newlines, a last unterminated one counting when it is not
      empty and the stream did not break. */
  function Lines(s: seq<byte>, max: int, ending: Ending): seq<Line>
    decreases |s|
  {
    if NextOf(s, max, ending).Got? then [NextOf(s, max, ending).line] + LinesAfter(s, max, ending) else []
  }

  function LinesAfter(s: seq<byte>, max: int, ending: Ending): seq<Line>
    requires NextOf(s, max, ending).Got?
    decreases |s|, 0
  {
    if s == [] then [] else Lines(RestAfter(s), max, ending)
  }

  /** Every line of the stream, in order, whatever the pieces. */
  method ReadAll(stream: seq<byte>, ending: Ending, room: nat -> nat, max: int) returns (lines: seq<Line>)
    requires forall n :: room(n) > 0
    ensures lines == Lines(stream, max, ending)
  {
    hide NextOf;
    var slices := new SliceReader(stream, ending, room);
    var reader := new LineReader(slices, max);
    lines := [];
    var res := reader.ReadLine();
    ghost var at := stream;
    while res.Got?
      invariant slices.ending == ending && slices.room == room && reader.r == slices && reader.max == max
      invariant res == NextOf(at, max, ending) && slices.rest == RestAfter(at)
      invariant lines + Lines(at, max, ending) == Lines(stream, max, ending)
      decreases |at|, res.Got?
    {
      GotShrinks(at, max, ending);
      Assoc(lines, [res.line], Lines(RestAfter(at), max, ending));
      lines := lines + [res.line];
      at := slices.rest;
      res := reader.ReadLine();
    }
    assert lines + [] == lines;
  }

  lemma GotShrinks(s: seq<byte>, max: int, ending: Ending)
    requires NextOf(s, max, ending).Got?
    ensures |RestAfter(s)| < |s|
    ensures Lines(s, max, ending) == [NextOf(s, max, ending).line] + Lines(RestAfter(s), max, ending)
  {
  }

  /** The uncut pieces between newlines. */
  function Pieces(s: seq<byte>): (p: seq<seq<byte>>)
    ensures p != []
    decreases |s|
  {
    if Break(s) < |s| then [s[..Break(s)]] + Pieces(s[Break(s) + 1..]) else [s]
  }

  function JoinWith(parts: seq<seq<byte>>): seq<byte> {
    if parts == [] then [] else if |parts| == 1 then parts[0] else parts[0] + [NEWLINE] + JoinWith(parts[1..])
  }

  /** The pieces hold no newline and, joined by newlines, are the stream. */
  lemma {:induction false} PiecesJoin(s: seq<byte>)
    ensures JoinWith(Pieces(s)) == s && forall p | p in Pieces(s) :: NEWLINE !in p
    decreases |s|
  {
    hide Break, JoinWith;
    var i := Break(s);
    if i < |s| {
      var rest := s[i + 1..];
      PiecesJoin(rest);
      JoinMore(s[..i], Pieces(rest));
      Around(s, i);
    } else {
      JoinOne(s);
    }
  }

  lemma Around(s: seq<byte>, i: nat)
    requires i < |s| && s[i] == NEWLINE
    ensures s == s[..i] + [NEWLINE] + s[i + 1..]
  {
  }

  lemma JoinOne(s: seq<byte>)
    ensures JoinWith([s]) == s
  {
  }

  lemma JoinMore(first: seq<byte>, rest: seq<seq<byte>>)
    requires rest != []
    ensures JoinWith([first] + rest) == first + [NEWLINE] + JoinWith(rest)
  {
    assert ([first] + rest)[1..] == rest;
  }

  /** Lines that are the pieces cut at the limit, but for an empty or lost last one. */
  ghost predicate CutsOf(lines: seq<Line>, p: seq<seq<byte>>, max: int, ending: Ending)
    requires p != []
  {
    && |lines| == (if ending.Broken? || p[|p| - 1] == [] then |p| - 1 else |p|)
    && forall i | 0 <= i < |lines| :: lines[i] == Cut(p[i], max)
  }

  lemma CutsMore(lines: seq<Line>, p: seq<seq<byte>>, max: int, ending: Ending, first: seq<byte>)
    requires p != [] && CutsOf(lines, p, max, ending)
    ensures CutsOf([Cut(first, max)] + lines, [first] + p, max, ending)
  {
    hide Cut;
  }

  /** Each line read is a piece cut at the limit: truncated exactly when the piece is longer. */
  lemma {:induction false} LinesArePieces(s: seq<byte>, max: int, ending: Ending)
    ensures CutsOf(Lines(s, max, ending), Pieces(s), max, ending)
    decreases |s|
  {
    hide CutsOf, Break, Cut;
    if Break(s) < |s| {
      var rest := s[Break(s) + 1..];
      LinesArePieces(rest, max, ending);
      GotShrinks(s, max, ending);
      CutsMore(Lines(rest, max, ending), Pieces(rest), max, ending, s[..Break(s)]);
    } else {
      LastPiece(s, max, ending);
    }
  }

  lemma LastPiece(s: seq<byte>, max: int, ending: Ending)
    requires Break(s) == |s|
    ensures CutsOf(Lines(s, max, ending), [s], max, ending)
  {
    hide Cut;
    if ending.Eof? && s != [] {
      GotShrinks(s, max, ending);
    }
  }

  /** A cut line of valid UTF-8 is the whole characters that fit in the limit. */
  lemma CutLaw(chars: seq<seq<byte>>, max: int)
    requires Chars(chars)
    ensures var c := Cut(Flatten(chars), max);
            && (c.truncated <==> 0 < max < |Flatten(chars)|)
            && (!c.truncated ==> c.bytes == Flatten(chars))
            && (c.truncated ==> c.bytes == Flatten(chars[..Fitting(chars, max)]) && |c.bytes| <= max)
  {
    hide Trimmed, Flatten, Fitting;
    if TooLong(Flatten(chars), max) {
      TrimLaw(chars, max);
    }
  }
}
