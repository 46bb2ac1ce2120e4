/** Applying managed sets one after another: all or nothing, with an identical set skipped. */
module ManagedStates {
  import opened Bytes
  import opened ManagedConfig

  /** A complete managed set as it is received. */
  datatype ManagedSet = ManagedSet(revision: int, blocks: seq<(Text, Text)>)

  /** The last of several blocks with one key wins. */
  function BlocksOf(blocks: seq<(Text, Text)>): map<Text, Text> {
    if blocks == [] then map[] else
    var n := |blocks| - 1;
    BlocksOf(blocks[..n])[blocks[n].0 := blocks[n].1]
  }

  /** What overlaying the blocks and the effective-config hook, if any, say to a set. */
  datatype Applied<C> = Overlaid(cfg: C) | Malformed(err: string)
  datatype Hooked = Accepted(warnings: seq<string>) | Refused(err: string) | NoHook

  datatype Managed<C> = Managed(cfg: Option<C>, revision: int, err: string, warnings: seq<string>, identity: Text)

  predicate Succeeds<C>(a: Applied<C>, h: Hooked) {
    a.Overlaid? && !h.Refused?
  }

  function Complaint<C>(a: Applied<C>, h: Hooked): string
    requires !Succeeds(a, h)
  {
    if a.Malformed? then a.err else h.err
  }

  function Warnings(h: Hooked): seq<string> {
    if h.Accepted? then h.warnings else []
  }

  predicate Skips<C>(prev: Option<Managed<C>>, revision: int, identity: Text) {
    prev.Some? && prev.value.err == "" && prev.value.revision == revision && prev.value.identity == identity
  }

  /** What an attempt stores. */
  function Attempted<C>(prev: Option<Managed<C>>, revision: int, identity: Text, a: Applied<C>, h: Hooked): Managed<C> {
    if Succeeds(a, h) then Managed(Some(a.cfg), revision, "", Warnings(h), identity)
    else if prev.Some? then prev.value.(err := Complaint(a, h))
    else Managed(None, 0, Complaint(a, h), [], [])
  }

  /** The part of the stream manager that holds the applied config. */
  class ConfigHolder<C> {
    const fileConfig: C
    const hash: Text -> Text
    var managed: Option<Managed<C>>

    constructor (fileConfig: C, hash: Text -> Text)
      ensures this.fileConfig == fileConfig && this.hash == hash && managed == None
    {
      this.fileConfig, this.hash := fileConfig, hash;
      managed := None;
    }

    /** applyManaged, with the answers the overlay and the hook give should they be asked. */
    method ApplyManaged(s: Option<ManagedSet>, a: Applied<C>, h: Hooked)
      modifies this
      ensures s.None? ==> managed == old(managed)
      ensures s.Some? ==> exists bytes ::
                && Encodes(bytes, BlocksOf(s.value.blocks))
                && managed == (if Skips(old(managed), s.value.revision, hash(bytes)) then old(managed)
                               else Some(Attempted(old(managed), s.value.revision, hash(bytes), a, h)))
    {
      if s.None? {
        return;
      }
      var revision, blocks := s.value.revision, map[];
      var i := 0;
      while i < |s.value.blocks|
        invariant 0 <= i <= |s.value.blocks| && blocks == BlocksOf(s.value.blocks[..i])
      {
        assert s.value.blocks[..i + 1][..i] == s.value.blocks[..i];
        blocks := blocks[s.value.blocks[i].0 := s.value.blocks[i].1];
        i := i + 1;
      }
      assert s.value.blocks[..i] == s.value.blocks;
      var bytes := HashInput(blocks);
      var identity := hash(bytes);
      if Skips(managed, revision, identity) {
        return;
      }
      match a
      case Malformed(err) => KeepRunning(err);
      case Overlaid(cfg) =>
        match h
        case Refused(err) => KeepRunning(err);
        case Accepted(warnings) => managed := Some(Managed(Some(cfg), revision, "", warnings, identity));
        case NoHook => managed := Some(Managed(Some(cfg), revision, "", [], identity));
    }

    /** A refused set: everything stays but the error. */
    method KeepRunning(err: string)
      modifies this
      ensures managed == Some(if old(managed).Some? then old(managed).value.(err := err)
                              else Managed(None, 0, err, [], []))
    {
      var next := Managed(None, 0, err, [], []);
      if managed.Some? {
        next := next.(cfg := managed.value.cfg, revision := managed.value.revision, warnings := managed.value.warnings,
                      identity := managed.value.identity);
      }
      managed := Some(next);
    }

    /** A heartbeat: revision, error, warnings and running config, all of one state. */
    method Heartbeat() returns (revision: int, err: string, warnings: seq<string>, running: C)
      ensures managed.None? ==> revision == 0 && err == "" && warnings == [] && running == fileConfig
      ensures managed.Some? ==> revision == managed.value.revision && err == managed.value.err
                                && warnings == managed.value.warnings
                                && running == if managed.value.cfg.Some? then managed.value.cfg.value else fileConfig
    {
      var st := managed;
      if st.None? {
        return 0, "", [], fileConfig;
      }
      running := if st.value.cfg.Some? then st.value.cfg.value else fileConfig;
      return st.value.revision, st.value.err, st.value.warnings, running;
    }
  }

  // ---- One attempt ----

  /** A failed attempt changes nothing but the error. It is retried, not skipped, when the same set
      comes again, exactly unless it failed without words where the set already stood applied. */
  lemma FailureLaw<C>(prev: Option<Managed<C>>, revision: int, identity: Text, a: Applied<C>, h: Hooked)
    requires !Skips(prev, revision, identity) && !Succeeds(a, h) && identity != []
    ensures var next := Attempted(prev, revision, identity, a, h);
            && next.err == Complaint(a, h)
            && (prev.Some? ==> next == prev.value.(err := next.err))
            && (prev.None? ==> next.cfg.None? && next.revision == 0)
            && (Skips(Some(next), revision, identity)
                <==> next.err == "" && prev.Some? && prev.value.revision == revision && prev.value.identity == identity)
  {
  }

  // ---- Runs, with an overlay and a hook that answer the same to the same blocks ----

  /** How a world answers, and its hash. */
  datatype World<!C> = World(apply: map<Text, Text> -> Applied<C>, hook: C -> Hooked, hash: Text -> Text)

  function HookFor<C>(w: World<C>, a: Applied<C>): Hooked {
    if a.Overlaid? then w.hook(a.cfg) else NoHook
  }

  predicate Good<C>(w: World<C>, s: ManagedSet) {
    var a := w.apply(BlocksOf(s.blocks));
    Succeeds(a, HookFor(w, a))
  }

  /** The hash tells different bytes apart. */
  ghost predicate Faithful(hash: Text -> Text) {
    && (forall x: Text :: hash(x) != [])
    && (forall x: Text, y: Text | hash(x) == hash(y) :: x == y)
  }

  /** A set's identity. */
  ghost predicate Identifies<C>(w: World<C>, id: Text, s: ManagedSet) {
    exists bytes :: Encodes(bytes, BlocksOf(s.blocks)) && id == w.hash(bytes)
  }

  /** One set received, its identity given. */
  function Received<C>(w: World<C>, prev: Option<Managed<C>>, s: ManagedSet, id: Text): Option<Managed<C>> {
    if Skips(prev, s.revision, id) then prev else
    var a := w.apply(BlocksOf(s.blocks));
    Some(Attempted(prev, s.revision, id, a, HookFor(w, a)))
  }

  /** A run from nothing: each received set with its identity. */
  function Run<C>(w: World<C>, sets: seq<(ManagedSet, Text)>): Option<Managed<C>> {
    if sets == [] then None else
    var n := |sets| - 1;
    Received(w, Run(w, sets[..n]), sets[n].0, sets[n].1)
  }

  /** The last set that the overlay and the hook take. */
  function LastGood<C>(w: World<C>, sets: seq<(ManagedSet, Text)>): (i: Option<nat>)
    ensures i.Some? ==> i.value < |sets| && Good(w, sets[i.value].0)
  {
    if sets == [] then None
    else if Good(w, sets[|sets| - 1].0) then Some(|sets| - 1)
    else LastGood(w, sets[..|sets| - 1])
  }

  /** What should be stored: config, revision, warnings and identity of the last good set, and the
      last set's complaint. */
  ghost predicate Stands<C>(w: World<C>, sets: seq<(ManagedSet, Text)>, m: Managed<C>)
    requires sets != []
  {
    var last := sets[|sets| - 1].0;
    var a := w.apply(BlocksOf(last.blocks));
    && m.err == (if Good(w, last) then "" else Complaint(a, HookFor(w, a)))
    && match LastGood(w, sets)
       case None => m.cfg.None? && m.revision == 0 && m.warnings == [] && m.identity == []
       case Some(i) =>
         var g := w.apply(BlocksOf(sets[i].0.blocks));
         && m.cfg == Some(g.cfg) && m.revision == sets[i].0.revision && m.warnings == Warnings(HookFor(w, g))
         && m.identity == sets[i].1
  }

  ghost predicate Clean<C>(w: World<C>, sets: seq<(ManagedSet, Text)>) {
    forall s | s in sets :: Identifies(w, s.1, s.0) && NulFree(BlocksOf(s.0.blocks))
  }

  lemma SameBlocks<C>(w: World<C>, s: ManagedSet, t: ManagedSet, id: Text)
    requires Faithful(w.hash) && Identifies(w, id, s) && Identifies(w, id, t)
    requires NulFree(BlocksOf(s.blocks)) && NulFree(BlocksOf(t.blocks))
    ensures BlocksOf(s.blocks) == BlocksOf(t.blocks)
  {
    var x :| Encodes(x, BlocksOf(s.blocks)) && id == w.hash(x);
    var y :| Encodes(y, BlocksOf(t.blocks)) && id == w.hash(y);
    EncodingInjective(x, BlocksOf(s.blocks), BlocksOf(t.blocks));
  }

  lemma IdentityIsSome<C>(w: World<C>, id: Text, s: ManagedSet)
    requires Faithful(w.hash) && Identifies(w, id, s)
    ensures id != []
  {
  }

  /** Over every run of received sets, what is stored is exactly the last good set, and the last
      set's complaint: skipping an identical set cannot be told from applying it again. */
  lemma {:induction false} ManagedLaw<C>(w: World<C>, sets: seq<(ManagedSet, Text)>)
    requires Faithful(w.hash) && Clean(w, sets) && sets != []
    ensures Run(w, sets).Some? && Stands(w, sets, Run(w, sets).value)
    decreases |sets|
  {
    hide Faithful, Identifies, NulFree, BlocksOf;
    var n := |sets| - 1;
    var before, s, id := sets[..n], sets[n].0, sets[n].1;
    assert sets[n] in sets;
    IdentityIsSome(w, id, s);
    if before != [] {
      ManagedLaw(w, before);
      var prev := Run(w, before);
      if Skips(prev, s.revision, id) {
        var i := LastGood(w, before);
        assert i.Some?;
        assert before[i.value] == sets[i.value] && sets[i.value] in sets;
        SameBlocks(w, before[i.value].0, s, id);
      }
    }
  }

  /** A set that failed last is never taken for one already applied, not even if it failed without
      words: sent again it is attempted again. Meanwhile everything but the error stays. */
  lemma RetryLaw<C>(w: World<C>, sets: seq<(ManagedSet, Text)>)
    requires Faithful(w.hash) && Clean(w, sets) && sets != [] && !Good(w, sets[|sets| - 1].0)
    ensures var n := |sets| - 1; var was, now := Run(w, sets[..n]), Run(w, sets);
            && !Skips(now, sets[n].0.revision, sets[n].1)
            && now.Some? && (was.Some? ==> now.value == was.value.(err := now.value.err))
            && (was.None? ==> now.value.cfg.None? && now.value.revision == 0)
  {
    hide Faithful, Identifies, NulFree, BlocksOf;
    var n := |sets| - 1;
    var s, id := sets[n].0, sets[n].1;
    assert sets[n] in sets;
    IdentityIsSome(w, id, s);
    ManagedLaw(w, sets);
    var i := LastGood(w, sets);
    if Skips(Run(w, sets), s.revision, id) {
      assert sets[i.value] in sets;
      SameBlocks(w, sets[i.value].0, s, id);
      assert false;
    }
    var a := w.apply(BlocksOf(s.blocks));
    if !Skips(Run(w, sets[..n]), s.revision, id) {
      FailureLaw(Run(w, sets[..n]), s.revision, id, a, HookFor(w, a));
    }
  }
}
