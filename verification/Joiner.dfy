/** Folding continuation lines into the record they belong to. */
module Joiners {
  import opened Bytes
  import opened LineReaders

  /** A parsed line: its text, whether it was cut, and everything parsed from it. */
  datatype ParsedLine = ParsedLine(raw: seq<byte>, truncated: bool, parsed: nat)

  const SPACE: byte := 0x20
  const TAB: byte := 0x09
  const BRACE: byte := 0x7B
  // "Caused by:", "... " and "goroutine "
  const CAUSED_BY: seq<byte> := [0x43, 0x61, 0x75, 0x73, 0x65, 0x64, 0x20, 0x62, 0x79, 0x3A]
  const DOTS: seq<byte> := [0x2E, 0x2E, 0x2E, 0x20]
  const GOROUTINE: seq<byte> := [0x67, 0x6F, 0x72, 0x6F, 0x75, 0x74, 0x69, 0x6E, 0x65, 0x20]

  function TrimBlanks(s: seq<byte>): seq<byte> {
    if s != [] && (s[0] == SPACE || s[0] == TAB) then TrimBlanks(s[1..]) else s
  }

  predicate IsJson(raw: seq<byte>) {
    var t := TrimBlanks(raw);
    t != [] && t[0] == BRACE
  }

  predicate IsContinuation(raw: seq<byte>) {
    raw != [] && (raw[0] == SPACE || raw[0] == TAB || CAUSED_BY <= raw || DOTS <= raw || GOROUTINE <= raw)
  }

  datatype State = State(pending: Option<ParsedLine>, openedAt: int)

  function Extended(p: ParsedLine, line: ParsedLine): ParsedLine {
    p.(raw := p.raw + [NEWLINE] + line.raw, truncated := p.truncated || line.truncated)
  }

  /** The line starts a record of its own. */
  predicate Opens(s: State, line: ParsedLine, now: int, maxBytes: int, hold: int) {
    || s.pending.None?
    || now - s.openedAt > hold
    || IsJson(s.pending.value.raw) || !IsContinuation(line.raw)
    || |Extended(s.pending.value, line).raw| > maxBytes
  }

  function Taken(s: State): seq<ParsedLine> {
    if s.pending.Some? then [s.pending.value] else []
  }

  /** Add, on a value. */
  function Added(s: State, line: ParsedLine, now: int, maxBytes: int, hold: int): (State, seq<ParsedLine>) {
    if Opens(s, line, now, maxBytes, hold) then (State(Some(line), now), Taken(s))
    else (s.(pending := Some(Extended(s.pending.value, line))), [])
  }

  class Joiner {
    const maxBytes: int
    const hold: int
    var pending: Option<ParsedLine>
    var openedAt: int

    ghost function Abs(): State
      reads this
    {
      State(pending, openedAt)
    }

    constructor (maxBytes: int, hold: int)
      ensures this.maxBytes == maxBytes && this.hold == hold && pending == None
    {
      this.maxBytes, this.hold := maxBytes, hold;
      pending, openedAt := None, 0;
    }

    method Take() returns (out: seq<ParsedLine>)
      modifies this`pending
      ensures out == Taken(old(Abs())) && pending == None
    {
      if pending.None? {
        return [];
      }
      out := [pending.value];
      pending := None;
    }

    method Open(line: ParsedLine, now: int)
      modifies this`pending, this`openedAt
      ensures Abs() == State(Some(line), now)
    {
      pending, openedAt := Some(line), now;
    }

    method Add(line: ParsedLine, now: int) returns (out: seq<ParsedLine>)
      modifies this
      ensures (Abs(), out) == Added(old(Abs()), line, now, maxBytes, hold)
    {
      if pending.Some? && now - openedAt > hold {
        out := Take();
        Open(line, now);
        return;
      }
      if pending.None? || IsJson(pending.value.raw) || !IsContinuation(line.raw) {
        out := Take();
        Open(line, now);
        return;
      }
      var joined := Extended(pending.value, line);
      if |joined.raw| > maxBytes {
        out := Take();
        Open(line, now);
        return;
      }
      pending := Some(joined);
      return [];
    }

    method Flush() returns (out: seq<ParsedLine>)
      modifies this`pending
      ensures out == Taken(old(Abs())) && pending == None
    {
      out := Take();
    }
  }

  // ---- Runs ----

  /** A line and when it came. */
  datatype Input = Input(line: ParsedLine, now: int)

  /** Everything that comes out for these lines and a final Flush. */
  function Fed(s: State, inputs: seq<Input>, maxBytes: int, hold: int): seq<ParsedLine>
    decreases |inputs|
  {
    if inputs == [] then Taken(s) else
    var (s', out) := Added(s, inputs[0].line, inputs[0].now, maxBytes, hold);
    out + Fed(s', inputs[1..], maxBytes, hold)
  }

  function LinesOf(inputs: seq<Input>): seq<ParsedLine> {
    if inputs == [] then [] else [inputs[0].line] + LinesOf(inputs[1..])
  }

  /** The record a group of lines makes. */
  function Merged(g: seq<Input>): ParsedLine
    requires g != []
  {
    if |g| == 1 then g[0].line else Extended(Merged(g[..|g| - 1]), g[|g| - 1].line)
  }

  /** A line does not belong to the record of those before it: that was opened too long ago or is
      JSON, the line is no continuation, or the two would be too long together. */
  ghost predicate Apart(g: seq<Input>, next: Input, maxBytes: int, hold: int)
    requires g != []
  {
    || next.now - g[0].now > hold || IsJson(g[0].line.raw) || !IsContinuation(next.line.raw)
    || |Merged(g).raw| + 1 + |next.line.raw| > maxBytes
  }

  /** A group may be one record: each line after the first belongs to those before it. */
  ghost predicate Fair(g: seq<Input>, maxBytes: int, hold: int) {
    g != [] && forall k | 1 <= k < |g| :: !Apart(g[..k], g[k], maxBytes, hold)
  }

  /** Fair groups of which none could have taken the next one's first line. */
  ghost predicate Parted(groups: seq<seq<Input>>, maxBytes: int, hold: int)
    requires [] !in groups
  {
    && (forall g | g in groups :: Fair(g, maxBytes, hold))
    && forall i | 0 <= i < |groups| - 1 :: Apart(groups[i], groups[i + 1][0], maxBytes, hold)
  }

  ghost function Flat(groups: seq<seq<Input>>): seq<Input> {
    if groups == [] then [] else groups[0] + Flat(groups[1..])
  }

  ghost function MergedAll(groups: seq<seq<Input>>): seq<ParsedLine>
    requires [] !in groups
  {
    if groups == [] then [] else [Merged(groups[0])] + MergedAll(groups[1..])
  }

  /** The group a state is holding. */
  ghost predicate Holds(s: State, g: seq<Input>, maxBytes: int, hold: int) {
    if g == [] then s.pending == None else Fair(g, maxBytes, hold) && s == State(Some(Merged(g)), g[0].now)
  }

  lemma {:induction false} JsonPrefix(a: seq<byte>, rest: seq<byte>)
    requires rest == [] || rest[0] == NEWLINE
    ensures IsJson(a + rest) <==> IsJson(a)
    decreases |a|
  {
    if a == [] {
      assert a + rest == rest;
    } else if a[0] == SPACE || a[0] == TAB {
      assert (a + rest)[1..] == a[1..] + rest;
      JsonPrefix(a[1..], rest);
    }
  }

  /** A record is its first line, and whatever else there is comes after a newline. */
  lemma {:induction false} MergedStarts(g: seq<Input>) returns (rest: seq<byte>)
    requires g != []
    ensures Merged(g).raw == g[0].line.raw + rest && (rest == [] || rest[0] == NEWLINE)
    decreases |g|
  {
    rest := [];
    if |g| > 1 {
      var n := |g| - 1;
      var before := MergedStarts(g[..n]);
      rest := before + [NEWLINE] + g[n].line.raw;
      Assoc(g[0].line.raw, before, [NEWLINE]);
      Assoc(g[0].line.raw, before + [NEWLINE], g[n].line.raw);
    }
  }

  /** The joiner starts a new record exactly when the line does not belong to the one it holds. */
  lemma OpensIff(s: State, g: seq<Input>, next: Input, maxBytes: int, hold: int)
    requires Holds(s, g, maxBytes, hold)
    ensures Opens(s, next.line, next.now, maxBytes, hold) <==> g == [] || Apart(g, next, maxBytes, hold)
  {
    hide IsJson, IsContinuation, Merged, Fair;
    if g != [] {
      var rest := MergedStarts(g);
      JsonPrefix(g[0].line.raw, rest);
    }
  }

  lemma FairMore(g: seq<Input>, next: Input, maxBytes: int, hold: int)
    requires Fair(g, maxBytes, hold) && !Apart(g, next, maxBytes, hold)
    ensures Fair(g + [next], maxBytes, hold) && Merged(g + [next]) == Extended(Merged(g), next.line)
  {
    hide Apart, Extended;
    var g' := g + [next];
    assert g'[..|g|] == g;
    forall k | 1 <= k < |g'| ensures !Apart(g'[..k], g'[k], maxBytes, hold) {
      if k < |g| {
        assert g'[..k] == g[..k];
      }
    }
  }

  /** What comes out of a run is its lines, in order, cut into fair groups, one record each, and cut
      nowhere else than where a line does not belong to those before it. */
  lemma {:induction false} Groups(s: State, held: seq<Input>, inputs: seq<Input>, maxBytes: int, hold: int)
    returns (groups: seq<seq<Input>>)
    requires Holds(s, held, maxBytes, hold)
    ensures [] !in groups && Parted(groups, maxBytes, hold)
    ensures Flat(groups) == held + inputs
    ensures held != [] ==> groups != [] && groups[0][0] == held[0]
    ensures Fed(s, inputs, maxBytes, hold) == MergedAll(groups)
    decreases |inputs|
  {
    hide Opens, Fair, Merged, Extended, Apart, Parted, Flat, MergedAll;
    if inputs == [] {
      groups := if held == [] then [] else [held];
      OneGroup(held, maxBytes, hold);
    } else {
      var next, rest := inputs[0], inputs[1..];
      var (s', out) := Added(s, next.line, next.now, maxBytes, hold);
      OpensIff(s, held, next, maxBytes, hold);
      if Opens(s, next.line, next.now, maxBytes, hold) {
        assert Fair([next], maxBytes, hold) && Merged([next]) == next.line by { Single(next, maxBytes, hold); }
        var more := Groups(s', [next], rest, maxBytes, hold);
        assert inputs == [next] + rest;
        if held == [] {
          groups := more;
          assert [] + Fed(s', rest, maxBytes, hold) == Fed(s', rest, maxBytes, hold);
          assert [] + inputs == inputs;
        } else {
          groups := [held] + more;
          GroupsMore(held, more, maxBytes, hold);
        }
      } else {
        FairMore(held, next, maxBytes, hold);
        groups := Groups(s', held + [next], rest, maxBytes, hold);
        assert held + [next] + rest == held + inputs;
        assert [] + Fed(s', rest, maxBytes, hold) == Fed(s', rest, maxBytes, hold);
      }
    }
  }

  lemma Single(next: Input, maxBytes: int, hold: int)
    ensures Fair([next], maxBytes, hold) && Merged([next]) == next.line
  {
  }

  lemma OneGroup(held: seq<Input>, maxBytes: int, hold: int)
    requires held != [] ==> Fair(held, maxBytes, hold)
    ensures var groups := if held == [] then [] else [held];
            && [] !in groups && Parted(groups, maxBytes, hold) && Flat(groups) == held + []
            && MergedAll(groups) == if held == [] then [] else [Merged(held)]
  {
    if held != [] {
      assert [held][1..] == [] && Flat([held]) == held + Flat([]);
      assert MergedAll([held]) == [Merged(held)] + MergedAll([]);
    }
  }

  lemma GroupsMore(held: seq<Input>, more: seq<seq<Input>>, maxBytes: int, hold: int)
    requires held != [] && Fair(held, maxBytes, hold) && more != [] && [] !in more && Parted(more, maxBytes, hold)
    requires Apart(held, more[0][0], maxBytes, hold)
    ensures [] !in [held] + more && Parted([held] + more, maxBytes, hold)
    ensures Flat([held] + more) == held + Flat(more)
    ensures MergedAll([held] + more) == [Merged(held)] + MergedAll(more)
  {
    hide Apart, Merged;
    assert ([held] + more)[1..] == more;
  }

  // ---- The law ----

  function Raws(lines: seq<ParsedLine>): seq<seq<byte>> {
    if lines == [] then [] else [lines[0].raw] + Raws(lines[1..])
  }

  lemma {:induction false} RawsOf(a: seq<ParsedLine>, b: seq<ParsedLine>)
    ensures Raws(a + b) == Raws(a) + Raws(b) && |Raws(a)| == |a|
    decreases |a|
  {
    if a == [] {
      assert a + b == b;
    } else {
      assert (a + b)[1..] == a[1..] + b;
      RawsOf(a[1..], b);
    }
  }

  lemma {:induction false} JoinTwo(a: seq<seq<byte>>, b: seq<seq<byte>>)
    requires a != [] && b != []
    ensures JoinWith(a + b) == JoinWith(a) + [NEWLINE] + JoinWith(b)
    decreases |a|
  {
    assert (a + b)[1..] == a[1..] + b;
    if |a| > 1 {
      JoinTwo(a[1..], b);
      Regroup(a[0] + [NEWLINE], JoinWith(a[1..]), [NEWLINE], JoinWith(b));
      Assoc(a[0] + [NEWLINE], JoinWith(a[1..]) + [NEWLINE], JoinWith(b));
    }
  }

  lemma {:induction false} LinesOfBoth(a: seq<Input>, b: seq<Input>)
    ensures LinesOf(a + b) == LinesOf(a) + LinesOf(b) && |LinesOf(a)| == |a|
    decreases |a|
  {
    if a == [] {
      assert a + b == b;
    } else {
      assert (a + b)[1..] == a[1..] + b;
      LinesOfBoth(a[1..], b);
    }
  }

  /** A group's record is its lines joined by newlines, cut exactly when one of them was. */
  lemma {:induction false} MergedIs(g: seq<Input>)
    requires g != []
    ensures LinesOf(g) != [] && Merged(g).raw == JoinWith(Raws(LinesOf(g))) && Merged(g).parsed == g[0].line.parsed
    ensures Merged(g).truncated <==> exists l | l in LinesOf(g) :: l.truncated
    decreases |g|
  {
    var n := |g| - 1;
    if n == 0 {
      assert g == [g[0]] && LinesOf(g) == [g[0].line] && Raws(LinesOf(g)) == [g[0].line.raw];
    } else {
      var first, last := g[..n], g[n];
      MergedIs(first);
      assert g == first + [last];
      LinesOfBoth(first, [last]);
      assert LinesOf([last]) == [last.line] && Raws([last.line]) == [last.line.raw];
      RawsOf(LinesOf(first), [last.line]);
      JoinTwo(Raws(LinesOf(first)), [last.line.raw]);
    }
  }

  lemma {:induction false} JoinGroups(groups: seq<seq<Input>>)
    requires [] !in groups
    ensures JoinWith(Raws(MergedAll(groups))) == JoinWith(Raws(LinesOf(Flat(groups))))
    ensures |MergedAll(groups)| == |groups| && (groups != [] ==> LinesOf(Flat(groups)) != [])
    decreases |groups|
  {
    hide Merged;
    if groups != [] {
      var g, rest := groups[0], groups[1..];
      MergedIs(g);
      JoinGroups(rest);
      LinesOfBoth(g, Flat(rest));
      var lines, more := LinesOf(g), LinesOf(Flat(rest));
      RawsOf(lines, more);
      RawsOf([Merged(g)], MergedAll(rest));
      assert Raws([Merged(g)]) == [Merged(g).raw];
      if rest == [] {
        assert Raws(lines) + [] == Raws(lines) && [Merged(g).raw] + [] == [Merged(g).raw];
      } else {
        RawsOf(MergedAll(rest), []);
        RawsOf(more, []);
        JoinTwo(Raws(lines), Raws(more));
        JoinTwo([Merged(g).raw], Raws(MergedAll(rest)));
      }
    }
  }

  /** No text is lost, added or reordered: over any lines ended by a Flush, the records joined by
      newlines are the lines joined by newlines, and each record is one line or within the size. */
  lemma JoinLaw(inputs: seq<Input>, maxBytes: int, hold: int)
    ensures var outs := Fed(State(None, 0), inputs, maxBytes, hold);
            && JoinWith(Raws(outs)) == JoinWith(Raws(LinesOf(inputs)))
            && forall o | o in outs :: o in LinesOf(inputs) || |o.raw| <= maxBytes
  {
    hide Fair, Merged, Added, Taken;
    var groups := Groups(State(None, 0), [], inputs, maxBytes, hold);
    assert [] + inputs == inputs;
    JoinGroups(groups);
    forall o | o in MergedAll(groups) ensures o in LinesOf(Flat(groups)) || |o.raw| <= maxBytes {
      OneOrSmall(groups, maxBytes, hold, o);
    }
  }

  lemma {:induction false} OneOrSmall(groups: seq<seq<Input>>, maxBytes: int, hold: int, o: ParsedLine)
    requires [] !in groups && (forall g | g in groups :: Fair(g, maxBytes, hold)) && o in MergedAll(groups)
    ensures o in LinesOf(Flat(groups)) || |o.raw| <= maxBytes
    decreases |groups|
  {
    var g := groups[0];
    LinesOfBoth(g, Flat(groups[1..]));
    if o == Merged(g) {
      var n := |g| - 1;
      if n == 0 {
        assert LinesOf(g)[0] == o;
      } else {
        assert Fair(g, maxBytes, hold) && !Apart(g[..n], g[n], maxBytes, hold);
      }
    } else {
      OneOrSmall(groups[1..], maxBytes, hold, o);
    }
  }
}
