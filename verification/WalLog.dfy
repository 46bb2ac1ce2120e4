/** What appends, rotations and segment removals do to the result of a replay. */
module WalLog {
  import opened Bytes
  import opened WalCodec
  import opened Wal
  import opened SpillDisk

  ghost function AckIds(recs: seq<Record>): set<Id> {
    set r | r in recs && r.AckRec? :: r.id
  }

  ghost function ItemIds(recs: seq<Record>): set<Id> {
    set r | r in recs && r.ItemRec? :: r.item.id
  }

  /** Every ack record sits at or after its item's segment. */
  ghost predicate AcksFollowItems(segs: Segments) {
    forall i, j | 0 <= i < j < |segs| :: AckIds(Records(segs, i)) !! ItemIds(Records(segs, j))
  }

  /** The references a replay keeps once those into segment k are taken out. */
  ghost function Outside(pending: map<Id, DiskRef>, k: nat): map<Id, DiskRef> {
    map id | id in pending && pending[id].segment != k :: pending[id]
  }

  // ---- Appends and rotations ----

  lemma ReplayAppend(segs: Segments, r: Record)
    requires Live(segs)
    ensures var n := Active(segs); var recs := ActiveRecords(segs);
            Replay(segs[n := Some(recs + [r])]) == Visit(n, SegmentSize(recs), r, Replay(segs))
  {
    var n := Active(segs);
    var recs := ActiveRecords(segs);
    var segs' := segs[n := Some(recs + [r])];
    assert segs'[..n] == segs[..n];
    assert (recs + [r])[..|recs|] == recs;
  }

  lemma ReplayRotate(segs: Segments)
    ensures Replay(segs + [Some([])]) == Replay(segs)
  {
    assert (segs + [Some([])])[..|segs|] == segs;
  }

  lemma AllReadableAppend(segs: Segments, r: Record)
    requires Live(segs) && AllReadable(segs) && Readable(r)
    ensures AllReadable(segs[Active(segs) := Some(ActiveRecords(segs) + [r])])
  {
    var segs' := segs[Active(segs) := Some(ActiveRecords(segs) + [r])];
    forall n, i | 0 <= n < |segs'| && 0 <= i < |Records(segs', n)| ensures Readable(Records(segs', n)[i]) {
      if n == Active(segs) {
        assert Records(segs', n) == Records(segs, n) + [r];
      } else {
        assert Records(segs', n) == Records(segs, n);
      }
    }
  }

  lemma AllReadableRotate(segs: Segments)
    requires AllReadable(segs)
    ensures AllReadable(segs + [Some([])])
  {
    var segs' := segs + [Some([])];
    forall n, i | 0 <= n < |segs'| && 0 <= i < |Records(segs', n)| ensures Readable(Records(segs', n)[i]) {
      assert Records(segs', n) == Records(segs, n);
    }
  }

  lemma AcksFollowRotate(segs: Segments)
    requires AcksFollowItems(segs)
    ensures AcksFollowItems(segs + [Some([])])
  {
    var segs' := segs + [Some([])];
    forall i, j | 0 <= i < j < |segs'| ensures AckIds(Records(segs', i)) !! ItemIds(Records(segs', j)) {
      assert Records(segs', i) == Records(segs, i) && Records(segs', j) == Records(segs, j);
    }
  }

  /** The order of acks and items survives an append, unless it writes an item already acked. */
  lemma AcksFollowAppend(segs: Segments, r: Record)
    requires Live(segs) && AcksFollowItems(segs)
    requires r.ItemRec? ==> r.item.id !in Replay(segs).acked
    ensures AcksFollowItems(segs[Active(segs) := Some(ActiveRecords(segs) + [r])])
  {
    var n := Active(segs);
    var segs' := segs[n := Some(ActiveRecords(segs) + [r])];
    forall i, j | 0 <= i < j < |segs'| ensures AckIds(Records(segs', i)) !! ItemIds(Records(segs', j)) {
      assert Records(segs', i) == Records(segs, i);
      assert AckIds(Records(segs, i)) !! ItemIds(Records(segs, j));
      if j == n && r.ItemRec? {
        ReplayAcked(segs, i);
        assert Records(segs', j) == Records(segs, j) + [r];
        assert ItemIds(Records(segs', j)) == ItemIds(Records(segs, j)) + {r.item.id};
      } else if j == n {
        assert Records(segs', j) == Records(segs, j) + [r];
        assert ItemIds(Records(segs', j)) == ItemIds(Records(segs, j));
      } else {
        assert Records(segs', j) == Records(segs, j);
      }
    }
  }

  lemma {:induction false} FoldAcked(num: nat, recs: seq<Record>, st: Recovery)
    ensures Fold(num, recs, st).acked == st.acked + AckIds(recs)
  {
    hide Visit, SegmentSize, AckIds;
    if recs == [] {
      assert AckIds([]) == {} by { NoAcks(); }
    } else {
      var init, r := recs[..|recs| - 1], recs[|recs| - 1];
      FoldAcked(num, init, st);
      AcksSnoc(init, r);
      assert recs == init + [r];
      VisitAcked(num, SegmentSize(init), r, Fold(num, init, st));
    }
  }

  lemma NoAcks()
    ensures AckIds([]) == {}
  {
  }

  lemma AcksSnoc(init: seq<Record>, r: Record)
    ensures AckIds(init + [r]) == AckIds(init) + (if r.AckRec? then {r.id} else {})
  {
  }

  lemma VisitAcked(num: nat, off: nat, r: Record, st: Recovery)
    ensures Visit(num, off, r, st).acked == st.acked + (if r.AckRec? then {r.id} else {})
  {
  }

  /** A replay has seen every ack record on disk. */
  lemma {:induction false} ReplayAcked(segs: Segments, i: nat)
    requires i < |segs|
    ensures AckIds(Records(segs, i)) <= Replay(segs).acked
    decreases |segs|
  {
    hide Replay, AckIds, Records;
    var n := |segs| - 1;
    ReplayAckedStep(segs);
    if i < n {
      assert Records(segs[..n], i) == Records(segs, i) by { SameRecords(segs, n, i); }
      ReplayAcked(segs[..n], i);
    }
  }

  lemma SameRecords(segs: Segments, n: nat, i: nat)
    requires i < n <= |segs|
    ensures Records(segs[..n], i) == Records(segs, i)
  {
  }

  lemma ReplayAckedStep(segs: Segments)
    requires segs != []
    ensures var n := |segs| - 1; Replay(segs).acked == Replay(segs[..n]).acked + AckIds(Records(segs, n))
  {
    hide Fold, AckIds;
    var n := |segs| - 1;
    if segs[n].Some? {
      FoldAcked(n, segs[n].value, Replay(segs[..n]));
    } else {
      NoAcks();
    }
  }

  // ---- References found by a replay point at item records ----

  ghost predicate Locates(segs: Segments, ref: DiskRef) {
    ref.segment < |segs| && exists i :: HoldsAt(Records(segs, ref.segment), i, ref)
  }

  ghost predicate HoldsAt(recs: seq<Record>, i: int, ref: DiskRef) {
    && 0 <= i < |recs| && recs[i].ItemRec?
    && var item := Canonical(recs[i].item);
       ref == DiskRef(item.id, ref.segment, SegmentSize(recs[..i]), item.enqueuedAt, item.attempts)
  }

  lemma {:induction false} FoldLocates(num: nat, recs: seq<Record>, st: Recovery, id: Id)
    requires id in Fold(num, recs, st).pending
    ensures var ref := Fold(num, recs, st).pending[id];
            || (id in st.pending && ref == st.pending[id])
            || (ref.segment == num && ref.id == id && exists i :: HoldsAt(recs, i, ref))
  {
    if recs != [] {
      var n := |recs| - 1;
      var init := recs[..n];
      var before := Fold(num, init, st);
      var ref := Fold(num, recs, st).pending[id];
      if id in before.pending && ref == before.pending[id] {
        FoldLocates(num, init, st, id);
        if !(id in st.pending && ref == st.pending[id]) {
          var i :| HoldsAt(init, i, ref);
          assert init[..i] == recs[..i];
          assert HoldsAt(recs, i, ref);
        }
      } else {
        assert HoldsAt(recs, n, ref);
      }
    }
  }

  lemma {:induction false} ReplayLocates(segs: Segments, id: Id)
    requires id in Replay(segs).pending
    ensures Replay(segs).pending[id].id == id
    ensures Locates(segs, Replay(segs).pending[id])
    decreases |segs|
  {
    var n := |segs| - 1;
    var ref := Replay(segs).pending[id];
    var before := Replay(segs[..n]);
    if segs[n].Some? {
      FoldLocates(n, segs[n].value, before, id);
    }
    if id in before.pending && ref == before.pending[id] {
      ReplayLocates(segs[..n], id);
      assert Records(segs[..n], ref.segment) == Records(segs, ref.segment);
    } else {
      assert Records(segs, n) == segs[n].value;
    }
  }

  // ---- Removing a segment ----

  lemma {:induction false} FoldOutside(k: nat, recs: seq<Record>, st: Recovery)
    requires forall id | id in st.pending :: st.pending[id].segment != k
    requires AckIds(recs) !! st.pending.Keys && ItemIds(recs) !! st.pending.Keys
    ensures Outside(Fold(k, recs, st).pending, k) == st.pending
  {
    if recs == [] {
      assert Outside(st.pending, k) == st.pending;
    } else {
      var init, r := recs[..|recs| - 1], recs[|recs| - 1];
      assert r in recs && forall x | x in init :: x in recs;
      FoldOutside(k, init, st);
      var before := Fold(k, init, st);
      var after := Fold(k, recs, st);
      match r {
        case ItemRec(item) =>
          assert item.id in ItemIds(recs);
          assert item.id !in Outside(before.pending, k);
          assert Outside(after.pending, k) == Outside(before.pending, k);
        case AckRec(id) =>
          assert id in AckIds(recs);
          assert id !in Outside(before.pending, k);
          assert Outside(after.pending, k) == Outside(before.pending, k);
      }
    }
  }

  /** The two replays, with and without segment k, agree outside k. */
  ghost predicate Shadows(p: Recovery, q: Recovery, k: nat, acks: set<Id>) {
    && q.pending == Outside(p.pending, k)
    && p.acked == q.acked + acks
  }

  lemma {:induction false} FoldShadows(num: nat, recs: seq<Record>, p: Recovery, q: Recovery, k: nat, acks: set<Id>)
    requires num != k && Shadows(p, q, k, acks) && acks !! ItemIds(recs)
    ensures Shadows(Fold(num, recs, p), Fold(num, recs, q), k, acks)
  {
    if recs != [] {
      var init, r := recs[..|recs| - 1], recs[|recs| - 1];
      assert r in recs && forall x | x in init :: x in recs;
      FoldShadows(num, init, p, q, k, acks);
      VisitShadows(num, SegmentSize(init), r, Fold(num, init, p), Fold(num, init, q), k, acks);
    }
  }

  lemma VisitShadows(num: nat, off: nat, r: Record, p: Recovery, q: Recovery, k: nat, acks: set<Id>)
    requires num != k && Shadows(p, q, k, acks) && (r.ItemRec? ==> r.item.id !in acks)
    ensures Shadows(Visit(num, off, r, p), Visit(num, off, r, q), k, acks)
  {
    var p', q' := Visit(num, off, r, p), Visit(num, off, r, q);
    assert q'.pending == Outside(p'.pending, k);
  }

  /** Nothing in segment k reaches outside it: its acks settle nothing older, and no later
      segment holds an item one of its acks names. */
  ghost predicate SelfContained(segs: Segments, k: nat)
    requires k < |segs|
  {
    && AckIds(Records(segs, k)) !! Replay(segs[..k]).pending.Keys
    && ItemIds(Records(segs, k)) !! Replay(segs[..k]).pending.Keys
    && forall j | k < j < |segs| :: AckIds(Records(segs, k)) !! ItemIds(Records(segs, j))
  }

  lemma {:induction false} RemoveShadows(segs: Segments, k: nat, m: nat)
    requires k < m <= |segs| && SelfContained(segs, k)
    ensures Replay(segs[k := None][..m]).pending == Outside(Replay(segs[..m]).pending, k)
    ensures Replay(segs[..m]).acked == Replay(segs[k := None][..m]).acked + AckIds(Records(segs, k))
    decreases m
  {
    hide Outside, Fold, AckIds, ItemIds;
    var gone := segs[k := None];
    var n := m - 1;
    assert segs[..m][..n] == segs[..n] && gone[..m][..n] == gone[..n];
    if n == k {
      RemoveHere(segs, k);
    } else {
      RemoveShadows(segs, k, n);
      if segs[n].Some? {
        assert Records(segs, n) == segs[n].value;
        FoldShadows(n, segs[n].value, Replay(segs[..n]), Replay(gone[..n]), k, AckIds(Records(segs, k)));
      }
    }
  }

  lemma RemoveHere(segs: Segments, k: nat)
    requires k < |segs| && SelfContained(segs, k)
    ensures Replay(segs[k := None][..k + 1]).pending == Outside(Replay(segs[..k + 1]).pending, k)
    ensures Replay(segs[..k + 1]).acked == Replay(segs[k := None][..k + 1]).acked + AckIds(Records(segs, k))
  {
    hide Fold, AckIds, ItemIds;
    var gone := segs[k := None];
    assert segs[..k + 1][..k] == segs[..k] && gone[..k + 1][..k] == segs[..k];
    forall id | id in Replay(segs[..k]).pending ensures Replay(segs[..k]).pending[id].segment != k {
      ReplayLocates(segs[..k], id);
    }
    FoldOutside(k, Records(segs, k), Replay(segs[..k]));
    FoldAcked(k, Records(segs, k), Replay(segs[..k]));
    if segs[k].None? {
      assert AckIds([]) == {} by { NoAcks(); }
    }
  }

  /** Deleting a self-contained segment takes from recovery exactly the references into it. */
  lemma RemoveIsInvisible(segs: Segments, k: nat)
    requires k < |segs| && SelfContained(segs, k)
    ensures Replay(segs[k := None]).pending == Outside(Replay(segs).pending, k)
    ensures Replay(segs[k := None]).acked <= Replay(segs).acked
  {
    RemoveShadows(segs, k, |segs|);
    assert segs[..|segs|] == segs && segs[k := None][..|segs|] == segs[k := None];
  }

  lemma {:induction false} ReplayNothing(segs: Segments)
    requires forall i | 0 <= i < |segs| :: segs[i].None?
    ensures Replay(segs) == EMPTY
  {
    if segs != [] {
      ReplayNothing(segs[..|segs| - 1]);
    }
  }

  /** The oldest segment left is always self-contained: the reason only a prefix is ever deleted. */
  lemma PrefixIsSelfContained(segs: Segments, k: nat)
    requires k < |segs| && AcksFollowItems(segs)
    requires forall i | 0 <= i < k :: segs[i].None?
    ensures SelfContained(segs, k)
  {
    ReplayNothing(segs[..k]);
  }

  lemma AcksFollowRemove(segs: Segments, k: nat)
    requires k < |segs| && AcksFollowItems(segs)
    ensures AcksFollowItems(segs[k := None])
  {
    var gone := segs[k := None];
    forall i, j | 0 <= i < j < |gone| ensures AckIds(Records(gone, i)) !! ItemIds(Records(gone, j)) {
      assert AckIds(Records(segs, i)) !! ItemIds(Records(segs, j));
      assert Records(gone, i) == (if i == k then [] else Records(segs, i));
      assert Records(gone, j) == (if j == k then [] else Records(segs, j));
    }
  }

  lemma AllReadableRemove(segs: Segments, k: nat)
    requires k < |segs| && AllReadable(segs)
    ensures AllReadable(segs[k := None])
  {
    var gone := segs[k := None];
    forall n, i | 0 <= n < |gone| && 0 <= i < |Records(gone, n)| ensures Readable(Records(gone, n)[i]) {
      assert Records(gone, n) == (if n == k then [] else Records(segs, n));
    }
  }

  // ---- Why never a hole ----

  ghost predicate Mentions(recs: seq<Record>, id: Id) {
    id in AckIds(recs) + ItemIds(recs)
  }

  lemma {:induction false} FoldSilent(num: nat, recs: seq<Record>, st: Recovery, id: Id)
    requires !Mentions(recs, id)
    ensures id in Fold(num, recs, st).pending <==> id in st.pending
  {
    if recs != [] {
      var init, r := recs[..|recs| - 1], recs[|recs| - 1];
      assert r in recs && forall x | x in init :: x in recs;
      FoldSilent(num, init, st, id);
    }
  }

  lemma {:induction false} ReplaySilent(segs: Segments, k: nat, id: Id)
    requires k <= |segs| && forall j | k <= j < |segs| :: !Mentions(Records(segs, j), id)
    ensures id in Replay(segs).pending <==> id in Replay(segs[..k]).pending
    decreases |segs|
  {
    hide Mentions, Fold;
    if k == |segs| {
      assert segs[..k] == segs;
    } else {
      var n := |segs| - 1;
      assert segs[..n][..k] == segs[..k];
      forall j | k <= j < n ensures !Mentions(Records(segs[..n], j), id) {
        assert Records(segs[..n], j) == Records(segs, j);
      }
      ReplaySilent(segs[..n], k, id);
      assert !Mentions(Records(segs, n), id);
      if segs[n].Some? {
        assert Records(segs, n) == segs[n].value;
        FoldSilent(n, segs[n].value, Replay(segs[..n]), id);
      }
    }
  }

  /** Deleting a segment out of the middle brings back every item of an older segment whose only
      ack it held: settled before the deletion, pending after it. */
  lemma HoleResurrects(segs: Segments, k: nat, id: Id)
    requires k < |segs| && segs[k].Some?
    requires id in Replay(segs[..k]).pending && id in AckIds(segs[k].value) && id !in ItemIds(segs[k].value)
    requires forall j | k < j < |segs| :: !Mentions(Records(segs, j), id)
    ensures id !in Replay(segs).pending
    ensures id in Replay(segs[k := None]).pending
  {
    var gone := segs[k := None];
    assert gone[..k] == segs[..k];
    forall j | k <= j < |gone| ensures !Mentions(Records(gone, j), id) {
      assert j > k ==> Records(gone, j) == Records(segs, j);
    }
    ReplaySilent(gone, k, id);
    ReplaySilent(segs, k + 1, id);
    assert segs[..k + 1][..k] == segs[..k];
    FoldSettles(k, segs[k].value, Replay(segs[..k]), id);
  }

  lemma {:induction false} FoldSettles(num: nat, recs: seq<Record>, st: Recovery, id: Id)
    requires id in AckIds(recs) && id !in ItemIds(recs)
    ensures id !in Fold(num, recs, st).pending
  {
    var init, r := recs[..|recs| - 1], recs[|recs| - 1];
    assert recs == init + [r];
    assert r in recs && forall x | x in init :: x in recs;
    if r != AckRec(id) {
      assert id in AckIds(init);
      FoldSettles(num, init, st, id);
    }
  }
}
