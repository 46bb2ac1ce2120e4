/** The node drain job: classification of the pods, cordon, and the eviction loop, against an
    arbitrary API server. */
module NodeDrain {
  import opened Bytes

  // ---- Pods and their classification ----

  datatype Owner = Owner(kind: string, controller: bool)

  datatype Pod = Pod(ns: string, name: string, uid: string, mirror: string, owners: seq<Owner>, deleting: bool,
                     phase: string, emptyDirs: seq<bool>)

  datatype OwnPod = OwnPod(ns: string, name: string)

  datatype RowState = Pending | Skipped | Evicting | Blocked | Gone | Failed

  datatype Reason =
    | NoReason | Mirror | DaemonSet | AgentSelf | Terminating | Pdb | NoController | EmptyDir | DryRun | ApiRefusal

  datatype Row = Row(ns: string, name: string, uid: string, state: RowState, reason: Reason)

  function Key(ns: string, name: string): string {
    ns + "/" + name
  }

  predicate IsOwn(own: OwnPod, p: Pod) {
    own.name != "" && p.ns == own.ns && p.name == own.name
  }

  function ControllerKind(owners: seq<Owner>): string {
    if owners == [] then ""
    else if owners[0].controller then owners[0].kind
    else ControllerKind(owners[1..])
  }

  predicate Finished(p: Pod) {
    p.phase == "Succeeded" || p.phase == "Failed"
  }

  predicate HasEmptyDir(p: Pod) {
    true in p.emptyDirs
  }

  /** One pod's row. */
  function ClassOf(p: Pod, own: OwnPod, force: bool, deleteEmptyDir: bool): Row {
    var row := Row(p.ns, p.name, p.uid, Pending, NoReason);
    if p.mirror != "" then row.(state := Skipped, reason := Mirror)
    else if ControllerKind(p.owners) == "DaemonSet" then row.(state := Skipped, reason := DaemonSet)
    else if IsOwn(own, p) then row.(state := Skipped, reason := AgentSelf)
    else if p.deleting then row.(state := Evicting, reason := Terminating)
    else if !Finished(p) && ControllerKind(p.owners) == "" && !force then row.(reason := NoController)
    else if !Finished(p) && HasEmptyDir(p) && !deleteEmptyDir then row.(reason := EmptyDir)
    else row
  }

  /** Left alone by any drain: a mirror pod, a DaemonSet's, the agent's own. */
  predicate Protected(p: Pod, own: OwnPod) {
    p.mirror != "" || ControllerKind(p.owners) == "DaemonSet" || IsOwn(own, p)
  }

  /** Evicting the pod would lose it, having no controller, or the data of an emptyDir, and the flag
      that allows it is missing. */
  predicate Endangered(p: Pod, own: OwnPod, force: bool, deleteEmptyDir: bool) {
    && !Protected(p, own) && !p.deleting && !Finished(p)
    && ((ControllerKind(p.owners) == "" && !force) || (HasEmptyDir(p) && !deleteEmptyDir))
  }

  function KeysFor(rows: seq<Row>, reason: Reason): seq<string> {
    if rows == [] then [] else
    var n := |rows| - 1;
    KeysFor(rows[..n], reason) + (if rows[n].reason == reason then [Key(rows[n].ns, rows[n].name)] else [])
  }

  /** Classify: a row for every pod, in order, and the pods that stand in the way. */
  method Classify(pods: seq<Pod>, own: OwnPod, force: bool, deleteEmptyDir: bool)
    returns (rows: seq<Row>, needsForce: seq<string>, needsEmptyDir: seq<string>)
    ensures TableOf(rows, pods, own, force, deleteEmptyDir)
    ensures needsForce == KeysFor(rows, NoController) && needsEmptyDir == KeysFor(rows, EmptyDir)
  {
    rows, needsForce, needsEmptyDir := [], [], [];
    var i := 0;
    while i < |pods|
      invariant 0 <= i <= |pods| && |rows| == i
      invariant forall j | 0 <= j < i :: rows[j] == ClassOf(pods[j], own, force, deleteEmptyDir)
      invariant needsForce == KeysFor(rows, NoController) && needsEmptyDir == KeysFor(rows, EmptyDir)
    {
      var row := ClassOf(pods[i], own, force, deleteEmptyDir);
      if row.reason == NoController {
        needsForce := needsForce + [Key(row.ns, row.name)];
      } else if row.reason == EmptyDir {
        needsEmptyDir := needsEmptyDir + [Key(row.ns, row.name)];
      }
      KeysSnoc(rows, row, NoController);
      KeysSnoc(rows, row, EmptyDir);
      rows := rows + [row];
      i := i + 1;
    }
  }

  lemma KeysSnoc(rows: seq<Row>, row: Row, reason: Reason)
    ensures KeysFor(rows + [row], reason)
            == KeysFor(rows, reason) + (if row.reason == reason then [Key(row.ns, row.name)] else [])
  {
    assert (rows + [row])[..|rows|] == rows;
  }

  /** Nothing stands in the way exactly when no row has the reason. */
  lemma {:induction false} KeysEmpty(rows: seq<Row>, reason: Reason)
    ensures KeysFor(rows, reason) == [] <==> forall r | r in rows :: r.reason != reason
  {
    if rows != [] {
      var n := |rows| - 1;
      KeysEmpty(rows[..n], reason);
      assert rows == rows[..n] + [rows[n]];
    }
  }

  // ---- The API server and the job's context ----

  datatype Ctx = Alive | Cancelled | DeadlineExceeded
  datatype ApiError = ErrNotFound | ErrForbidden | ErrOther
  datatype ListAnswer = Listed(pods: seq<Pod>) | ListFailed(err: ApiError)
  datatype NodeAnswer = NodeOk(unschedulable: bool) | NodeFailed(err: ApiError)
  datatype EvictAnswer = Evicted | PdbBlocked | NotFound | Forbidden | OtherError

  /** Every answer the outside gives, by how often it was asked before. */
  datatype Env = Env(ctx: nat -> Ctx, list: nat -> ListAnswer, node: nat -> NodeAnswer, patch: nat -> Option<ApiError>,
                     evict: nat -> EvictAnswer, now: nat -> int)

  datatype Write = Patch(dry: bool) | Evict(row: nat, dry: bool)

  datatype Code = NoError | Missing | Rbac | NeedsForce | NeedsEmptyDir | EvictionFailed | Timeout | Internal

  datatype JobPhase = Refused | Succeeded | JobFailed | JobCancelled

  datatype Event = Event(phase: JobPhase, code: Code, cordoned: bool, pods: seq<Row>, evicted: nat, skipped: nat,
                         pending: nat, total: nat)

  function CodeFor(err: ApiError): Code {
    match err
    case ErrNotFound => Missing
    case ErrForbidden => Rbac
    case ErrOther => Internal
  }

  predicate Waiting(s: RowState) {
    s.Pending? || s.Evicting? || s.Blocked?
  }

  function Count(rows: seq<Row>, in_: RowState -> bool): nat {
    if rows == [] then 0 else
    var n := |rows| - 1;
    Count(rows[..n], in_) + (if in_(rows[n].state) then 1 else 0)
  }

  lemma CountSnoc(rows: seq<Row>, k: nat, in_: RowState -> bool)
    requires k < |rows|
    ensures Count(rows[..k + 1], in_) == Count(rows[..k], in_) + (if in_(rows[k].state) then 1 else 0)
  {
    assert rows[..k + 1][..k] == rows[..k];
  }

  /** The four counters of an event partition its table. */
  lemma {:induction false} CountersPartition(rows: seq<Row>)
    ensures Count(rows, s => s == Gone) + Count(rows, s => s == Skipped) + Count(rows, s => Waiting(s))
            + Count(rows, s => s == Failed) == |rows|
  {
    if rows != [] {
      CountersPartition(rows[..|rows| - 1]);
    }
  }

  // ---- How a table may change ----

  predicate Final(s: RowState) {
    s.Gone? || s.Skipped? || s.Failed?
  }

  /** Same pods in the same places, and final rows untouched; nothing becomes skipped. */
  ghost predicate Evolves(a: seq<Row>, b: seq<Row>) {
    && |a| == |b|
    && forall i | 0 <= i < |a| :: RowEvolves(a[i], b[i])
  }

  ghost predicate RowEvolves(a: Row, b: Row) {
    && b.ns == a.ns && b.name == a.name && b.uid == a.uid
    && (Final(a.state) ==> b == a)
    && (b.state.Skipped? ==> b == a)
    && (a.state.Evicting? || a.state.Blocked? ==> !b.state.Pending?)
  }

  lemma EvolvesTrans(a: seq<Row>, b: seq<Row>, c: seq<Row>)
    requires Evolves(a, b) && Evolves(b, c)
    ensures Evolves(a, c)
  {
    forall i | 0 <= i < |a| ensures RowEvolves(a[i], c[i]) {
      assert RowEvolves(a[i], b[i]) && RowEvolves(b[i], c[i]);
    }
  }

  ghost predicate Steady(tables: seq<seq<Row>>) {
    forall j, k | 0 <= j <= k < |tables| :: Evolves(tables[j], tables[k])
  }

  lemma SteadySnoc(tables: seq<seq<Row>>, t: seq<Row>)
    requires Steady(tables) && (tables != [] ==> Evolves(tables[|tables| - 1], t))
    ensures Steady(tables + [t])
  {
    var more := tables + [t];
    forall j, k | 0 <= j <= k < |more| ensures Evolves(more[j], more[k]) {
      if k == |tables| && j < |tables| {
        EvolvesTrans(tables[j], tables[|tables| - 1], t);
      }
    }
  }

  /** Which uid a listing shows under each key. */
  function LiveOf(pods: seq<Pod>): map<string, string> {
    if pods == [] then map[] else
    var n := |pods| - 1;
    LiveOf(pods[..n])[Key(pods[n].ns, pods[n].name) := pods[n].uid]
  }

  predicate Shows(live: map<string, string>, r: Row) {
    Key(r.ns, r.name) in live && live[Key(r.ns, r.name)] == r.uid
  }

  /** What an eviction call makes of its row. */
  function AfterCall(r: Row, answer: EvictAnswer, alive: bool, dry: bool): Row {
    match answer
    case Evicted => if dry then r.(state := Gone, reason := DryRun) else r.(state := Evicting, reason := NoReason)
    case PdbBlocked => if alive then r.(state := Blocked, reason := Pdb) else r
    case NotFound => if alive then r.(state := Gone, reason := NoReason) else r
    case Forbidden => r
    case OtherError => if alive then r.(state := Failed, reason := ApiRefusal) else r
  }

  /** A question put to the server, about one row or about all. */
  datatype Question = EvictCall(row: nat) | ListCall

  /** Each question is logged under the tick it was asked at. */
  ghost predicate Logged(asked: map<nat, Question>, tick: nat) {
    forall t | t in asked :: t < tick
  }

  /** The answer that proves row i's pod gone: its own eviction call that found nothing, or a listing
      taken that does not show it. */
  ghost predicate GoneBy(env: Env, i: nat, r: Row, asked: map<nat, Question>, t: nat) {
    && t in asked
    && match asked[t]
       case EvictCall(row) => row == i && env.evict(t).NotFound?
       case ListCall => env.list(t).Listed? && !Shows(LiveOf(env.list(t).pods), r)
  }

  ghost predicate Evidenced(env: Env, pods: seq<Row>, proof: map<nat, nat>, asked: map<nat, Question>) {
    forall i | 0 <= i < |pods| && pods[i].state.Gone? :: i in proof && GoneBy(env, i, pods[i], asked, proof[i])
  }

  /** Asking one more thing disturbs no evidence. */
  lemma EvidenceStays(env: Env, pods: seq<Row>, proof: map<nat, nat>, asked: map<nat, Question>, tick: nat, q: Question)
    requires Evidenced(env, pods, proof, asked) && Logged(asked, tick)
    ensures Evidenced(env, pods, proof, asked[tick := q]) && Logged(asked[tick := q], tick + 1)
  {
    hide Shows, LiveOf;
  }

  ghost predicate SparesSkipped(writes: seq<Write>, first: seq<Row>) {
    forall w | w in writes && w.Evict? :: w.row < |first| && !first[w.row].state.Skipped?
  }

  ghost predicate AllDry(writes: seq<Write>, dry: bool) {
    forall w | w in writes :: w.dry == dry
  }

  ghost predicate NoEvictions(writes: seq<Write>) {
    forall w | w in writes :: !w.Evict?
  }

  /** The context was seen ended before now. */
  ghost predicate Ended(env: Env, tick: nat) {
    exists t: nat | t < tick :: !env.ctx(t).Alive?
  }

  /** An ended context stays ended, and the deadline ends it at the latest. */
  ghost predicate GoodCtx(env: Env, deadline: nat) {
    && (forall m: nat, n: nat | m <= n && !env.ctx(m).Alive? :: !env.ctx(n).Alive?)
    && (forall n: nat | n >= deadline :: !env.ctx(n).Alive?)
  }

  lemma EndedLater(env: Env, tick: nat, tick': nat)
    requires tick <= tick'
    ensures Ended(env, tick) ==> Ended(env, tick')
  {
  }

  /** Nothing but evictions was written in between. */
  ghost predicate OnlyEvicts(a: seq<Write>, b: seq<Write>) {
    a <= b && forall k | |a| <= k < |b| :: b[k].Evict?
  }

  lemma EvictsNone(a: seq<Write>)
    ensures OnlyEvicts(a, a)
  {
  }

  lemma EvictsMore(a: seq<Write>, b: seq<Write>, c: seq<Write>)
    requires OnlyEvicts(a, b) && OnlyEvicts(b, c)
    ensures OnlyEvicts(a, c)
  {
  }

  lemma EndedStays(env: Env, tick: nat, deadline: nat)
    requires GoodCtx(env, deadline)
    ensures Ended(env, tick) ==> !env.ctx(tick).Alive?
    ensures tick >= deadline ==> !env.ctx(tick).Alive?
  {
    if Ended(env, tick) {
      var m: nat :| m < tick && !env.ctx(m).Alive?;
      assert m <= tick;
    }
  }

  // ---- What a pass asks, and what comes of it ----

  /** A row that a pass at this time must ask the server to evict. */
  predicate Due(r: Row, now: int, retries: map<string, int>, dry: bool) {
    || r.state.Pending?
    || (r.state.Blocked? && !dry && !(Key(r.ns, r.name) in retries && now < retries[Key(r.ns, r.name)]))
  }

  /** What a pass makes of a row it does not ask about: an EVICTING one is judged by the listing, if
      there is one, and is gone at once in a dry run. */
  function Watched(r: Row, live: Option<map<string, string>>, dry: bool): Row {
    if !r.state.Evicting? then r
    else if dry then r.(state := Gone, reason := DryRun)
    else if live.None? || Shows(live.value, r) then r
    else r.(state := Gone, reason := NoReason)
  }

  /** The pass asked about row i at t, and the row is what the answer makes of it. */
  ghost predicate AskedAt(env: Env, dry: bool, asked: map<nat, Question>, t: nat, i: nat, was: Row, row: Row) {
    t in asked && asked[t] == EvictCall(i) && row == AfterCall(was, env.evict(t), env.ctx(t + 1).Alive?, dry)
  }

  /** No earlier row goes by the same key, as none does in a cluster. */
  ghost predicate OwnKey(rows: seq<Row>, i: nat)
    requires i < |rows|
  {
    forall j | 0 <= j < i :: Key(rows[j].ns, rows[j].name) != Key(rows[i].ns, rows[i].name)
  }

  /** Row i after the pass: asked about if due, and only then; else watched. */
  ghost predicate RowDone(env: Env, dry: bool, now: int, was: seq<Row>, retries: map<string, int>,
                          live: Option<map<string, string>>, asked: map<nat, Question>, from: nat, i: nat, row: Row)
    requires i < |was|
  {
    && (var asks := exists t | t >= from :: AskedAt(env, dry, asked, t, i, was[i], row);
        && (OwnKey(was, i) || was[i].state.Pending? ==> (asks <==> Due(was[i], now, retries, dry)))
        && (!asks ==> row == Watched(was[i], live, dry) && NeverAsked(asked, from, i)))
  }

  ghost predicate NeverAsked(asked: map<nat, Question>, from: nat, i: nat) {
    forall t | t in asked && t >= from :: asked[t] != EvictCall(i)
  }

  /** The questions since `from` are evictions of the first n rows; each has used up a look at the
      context unless it went through; a forbidden one is `forbidden`. */
  ghost predicate AsksOnly(env: Env, asked: map<nat, Question>, from: nat, to: nat, n: nat, forbidden: bool) {
    forall t | t in asked && t >= from ::
      && t < to && asked[t].EvictCall? && asked[t].row < n && (env.evict(t).Evicted? || t + 1 < to)
      && (env.evict(t).Forbidden? && env.ctx(t + 1).Alive? ==> forbidden)
  }

  /** A pass that has come to row n: the rows before it are done, the others untouched. */
  ghost predicate Walked(env: Env, dry: bool, now: int, was: seq<Row>, retries: map<string, int>,
                         live: Option<map<string, string>>, asked: map<nat, Question>, from: nat, n: nat,
                         pods: seq<Row>)
  {
    && n <= |was| == |pods|
    && (forall i | n <= i < |was| :: pods[i] == was[i])
    && forall i | 0 <= i < n :: RowDone(env, dry, now, was, retries, live, asked, from, i, pods[i])
  }

  /** Retry times change for rows already walked only. */
  ghost predicate RetriesFor(was: seq<Row>, retries: map<string, int>, retries': map<string, int>, n: nat)
    requires n <= |was|
  {
    forall key | (forall j | 0 <= j < n :: Key(was[j].ns, was[j].name) != key) ::
      (key in retries' <==> key in retries) && (key in retries ==> retries'[key] == retries[key])
  }

  lemma DueThen(was: seq<Row>, retries: map<string, int>, retries': map<string, int>, n: nat, now: int, dry: bool)
    requires n < |was| && RetriesFor(was, retries, retries', n) && (OwnKey(was, n) || was[n].state.Pending?)
    ensures Due(was[n], now, retries', dry) == Due(was[n], now, retries, dry)
  {
    if !was[n].state.Pending? {
      var key := Key(was[n].ns, was[n].name);
      assert forall j | 0 <= j < n :: Key(was[j].ns, was[j].name) != key;
    }
  }

  lemma RetriesMore(was: seq<Row>, retries: map<string, int>, a: map<string, int>, b: map<string, int>, n: nat)
    requires n < |was| && RetriesFor(was, retries, a, n)
    requires forall key | key != Key(was[n].ns, was[n].name) ::
               (key in b <==> key in a) && (key in a ==> b[key] == a[key])
    ensures RetriesFor(was, retries, b, n + 1)
  {
    forall key | forall j | 0 <= j < n + 1 :: Key(was[j].ns, was[j].name) != key
      ensures (key in b <==> key in retries) && (key in retries ==> b[key] == retries[key])
    {
      assert Key(was[n].ns, was[n].name) != key;
    }
  }

  /** Rows done stay done while later rows are asked about. */
  lemma RowStays(env: Env, dry: bool, now: int, was: seq<Row>, retries: map<string, int>,
                 live: Option<map<string, string>>, asked: map<nat, Question>, asked': map<nat, Question>, from: nat,
                 to: nat, i: nat, n: nat, row: Row)
    requires i < n < |was| && RowDone(env, dry, now, was, retries, live, asked, from, i, row)
    requires asked' == asked || (to !in asked && asked' == asked[to := EvictCall(n)])
    ensures RowDone(env, dry, now, was, retries, live, asked', from, i, row)
  {
    hide AfterCall, Watched, Due, OwnKey;
    assert forall t :: AskedAt(env, dry, asked', t, i, was[i], row) <==> AskedAt(env, dry, asked, t, i, was[i], row);
  }

  /** One more row, asked about or watched as it was due. */
  lemma WalkedMore(env: Env, dry: bool, now: int, was: seq<Row>, retries: map<string, int>, retries': map<string, int>,
                   live: Option<map<string, string>>, asked: map<nat, Question>, asked': map<nat, Question>, from: nat,
                   to: nat, n: nat, pods: seq<Row>, pods': seq<Row>)
    requires Walked(env, dry, now, was, retries, live, asked, from, n, pods) && n < |was| == |pods'|
    requires RetriesFor(was, retries, retries', n) && from <= to && to !in asked
    requires forall t | t in asked && t >= from :: asked[t] != EvictCall(n)
    requires forall i | 0 <= i < |pods| && i != n :: pods'[i] == pods[i]
    requires if Due(pods[n], now, retries', dry)
             then asked' == asked[to := EvictCall(n)] && AskedAt(env, dry, asked', to, n, pods[n], pods'[n])
             else asked' == asked && pods'[n] == Watched(pods[n], live, dry)
    ensures Walked(env, dry, now, was, retries, live, asked', from, n + 1, pods')
  {
    hide AfterCall, Watched, Due, OwnKey, RetriesFor, RowDone, Shows;
    forall i | 0 <= i < n ensures RowDone(env, dry, now, was, retries, live, asked', from, i, pods'[i]) {
      RowStays(env, dry, now, was, retries, live, asked, asked', from, to, i, n, pods[i]);
    }
    RowNow(env, dry, now, was, retries, retries', live, asked, asked', from, to, n, pods'[n]);
  }

  lemma RowNow(env: Env, dry: bool, now: int, was: seq<Row>, retries: map<string, int>, retries': map<string, int>,
               live: Option<map<string, string>>, asked: map<nat, Question>, asked': map<nat, Question>, from: nat,
               to: nat, n: nat, row: Row)
    requires n < |was| && RetriesFor(was, retries, retries', n) && from <= to && to !in asked
    requires forall t | t in asked && t >= from :: asked[t] != EvictCall(n)
    requires if Due(was[n], now, retries', dry)
             then asked' == asked[to := EvictCall(n)] && AskedAt(env, dry, asked', to, n, was[n], row)
             else asked' == asked && row == Watched(was[n], live, dry)
    ensures RowDone(env, dry, now, was, retries, live, asked', from, n, row)
  {
    hide AfterCall, Watched, Due, RetriesFor;
    if OwnKey(was, n) || was[n].state.Pending? {
      hide OwnKey;
      DueThen(was, retries, retries', n, now, dry);
    }
  }

  lemma NothingWalked(env: Env, dry: bool, now: int, was: seq<Row>, retries: map<string, int>,
                      live: Option<map<string, string>>, asked: map<nat, Question>, from: nat)
    requires Logged(asked, from)
    ensures Walked(env, dry, now, was, retries, live, asked, from, 0, was) && RetriesFor(was, retries, retries, 0)
    ensures AsksOnly(env, asked, from, from, 0, false)
  {
  }

  lemma AsksMore(env: Env, asked: map<nat, Question>, asked': map<nat, Question>, from: nat, to: nat, to': nat, n: nat,
                 forbidden: bool)
    requires AsksOnly(env, asked, from, to, n, false) && from <= to <= to'
    requires asked' == asked ||
             (&& asked' == asked[to := EvictCall(n)] && to < to' && (env.evict(to).Evicted? || to + 1 < to')
              && (forbidden <==> env.evict(to).Forbidden? && env.ctx(to + 1).Alive?))
    ensures AsksOnly(env, asked', from, to', n + 1, forbidden)
  {
  }

  /** A pass over all rows under a living context, nothing forbidden, leaves no row PENDING. */
  lemma NonePending(env: Env, dry: bool, now: int, was: seq<Row>, retries: map<string, int>,
                    live: Option<map<string, string>>, asked: map<nat, Question>, from: nat, to: nat, pods: seq<Row>)
    requires Walked(env, dry, now, was, retries, live, asked, from, |was|, pods)
    requires AsksOnly(env, asked, from, to, |was|, false) && !Ended(env, to)
    ensures forall r | r in pods :: !r.state.Pending?
  {
    hide OwnKey, Shows, NeverAsked;
    forall i | 0 <= i < |pods| ensures !pods[i].state.Pending? {
      assert RowDone(env, dry, now, was, retries, live, asked, from, i, pods[i]);
      if t :| t >= from && AskedAt(env, dry, asked, t, i, was[i], pods[i]) {
        if !env.evict(t).Evicted? {
          assert t + 1 < to && env.ctx(t + 1).Alive?;
        }
      }
    }
  }

  lemma AsksLater(env: Env, asked: map<nat, Question>, from: nat, to: nat, to': nat, n: nat)
    requires AsksOnly(env, asked, from, to, n, false) && to <= to'
    ensures AsksOnly(env, asked, from, to', n, false)
  {
  }

  lemma NotYetAsked(env: Env, asked: map<nat, Question>, from: nat, to: nat, n: nat)
    requires AsksOnly(env, asked, from, to, n, false)
    ensures forall t | t in asked && t >= from :: asked[t] != EvictCall(n)
  {
  }

  lemma StillThere(env: Env, dry: bool, now: int, was: seq<Row>, retries: map<string, int>,
                   live: Option<map<string, string>>, asked: map<nat, Question>, from: nat, n: nat, pods: seq<Row>)
    requires Walked(env, dry, now, was, retries, live, asked, from, n, pods) && n < |was|
    ensures pods[n] == was[n]
  {
    hide RowDone;
  }

  lemma ForbiddenAt(env: Env, asked: map<nat, Question>, t: nat, i: nat)
    requires t in asked && asked[t] == EvictCall(i) && env.evict(t).Forbidden?
    ensures WasForbidden(env, asked)
  {
  }

  // ---- Why a job ends badly ----

  ghost predicate ContextWas(env: Env, tick: nat, c: Ctx) {
    exists t: nat | t < tick :: env.ctx(t) == c
  }

  /** A call this job made was forbidden. */
  ghost predicate WasForbidden(env: Env, asked: map<nat, Question>) {
    exists t | t in asked ::
      match asked[t]
      case EvictCall(_) => env.evict(t).Forbidden?
      case ListCall => env.list(t).ListFailed? && env.list(t).err.ErrForbidden?
  }

  /** A cancelled job had its context cancelled. A failed one met its deadline, has a FAILED row, or was
      forbidden a call. */
  ghost predicate Caused(env: Env, asked: map<nat, Question>, tick: nat, ev: Event) {
    && (ev.phase.JobCancelled? ==> ContextWas(env, tick, Cancelled))
    && (ev.phase.JobFailed? ==>
          || (ev.code.Timeout? && ContextWas(env, tick, DeadlineExceeded))
          || (ev.code.EvictionFailed? && exists r | r in ev.pods :: r.state.Failed?)
          || (ev.code.Rbac? && WasForbidden(env, asked)))
  }

  lemma ListForbidden(env: Env, asked: map<nat, Question>, t: nat)
    requires t in asked && asked[t].ListCall? && env.list(t).ListFailed? && env.list(t).err.ErrForbidden?
    ensures WasForbidden(env, asked)
  {
  }

  lemma RbacCause(env: Env, asked: map<nat, Question>, tick: nat, ev: Event)
    requires ev.phase.JobFailed? && ev.code.Rbac? && WasForbidden(env, asked)
    ensures Caused(env, asked, tick, ev)
  {
    hide WasForbidden;
  }

  /** Reading the node for the cordon at this tick fails, or patching it at the next. */
  ghost predicate CordonFails(env: Env, at: nat) {
    var answer := env.node(at);
    answer.NodeFailed? || (!answer.unschedulable && env.patch(at + 1).Some?)
  }

  lemma SeenContext(env: Env, tick: nat, at: nat)
    requires at < tick
    ensures ContextWas(env, tick, env.ctx(at))
  {
  }

  lemma CauseMeans(env: Env, asked: map<nat, Question>, tick: nat, ev: Event)
    requires Caused(env, asked, tick, ev)
    ensures ev.phase.JobCancelled? ==> ContextWas(env, tick, Cancelled)
    ensures ev.phase.JobFailed? ==> ContextWas(env, tick, DeadlineExceeded)
                                    || (exists r | r in ev.pods :: r.state.Failed?) || WasForbidden(env, asked)
  {
    hide ContextWas, WasForbidden;
  }

  lemma EarlyCause(env: Env, asked: map<nat, Question>, tick: nat, at: nat, ev: Event)
    requires at < tick && !env.ctx(at).Alive?
    requires ev.phase == (if env.ctx(at).Cancelled? then JobCancelled else JobFailed)
    requires ev.code == (if env.ctx(at).Cancelled? then NoError else Timeout)
    ensures Caused(env, asked, tick, ev)
  {
  }

  class DrainJob {
    const env: Env
    const dry: bool
    var pods: seq<Row>
    var cordoned: bool
    var nextRetry: map<string, int>
    var tick: nat
    ghost var writes: seq<Write>
    ghost var tables: seq<seq<Row>>
    ghost var proof: map<nat, nat>
    ghost var asked: map<nat, Question>
    ghost var passes: nat

    /** What holds of the table and the writes between any two steps once the pods are classified. */
    ghost predicate Sound()
      reads this
    {
      && tables != [] && tables[|tables| - 1] == pods && Steady(tables)
      && AllDry(writes, dry) && SparesSkipped(writes, tables[0])
      && Logged(asked, tick) && (!dry ==> Evidenced(env, pods, proof, asked))
      && (NoEvictions(writes) || cordoned == !dry)
    }

    constructor (env: Env, dry: bool)
      ensures this.env == env && this.dry == dry && pods == [] && !cordoned && nextRetry == map[] && tick == 0
      ensures writes == [] && tables == [] && proof == map[] && asked == map[] && passes == 0
    {
      this.env, this.dry := env, dry;
      pods, cordoned, nextRetry, tick := [], false, map[], 0;
      writes, tables, proof, asked, passes := [], [], map[], map[], 0;
    }

    method Look() returns (c: Ctx)
      modifies this`tick
      ensures c == env.ctx(old(tick)) && tick == old(tick) + 1
      ensures Ended(env, tick) <==> old(Ended(env, tick)) || !c.Alive?
      ensures old(Sound()) ==> Sound()
    {
      hide Evidenced;
      c := env.ctx(tick);
      tick := tick + 1;
    }

    /** snapshot.event: the table and its counters. */
    method Report(phase: JobPhase, code: Code) returns (ev: Event)
      ensures ev.phase == phase && ev.code == code && ev.cordoned == cordoned && ev.pods == pods
      ensures ev.evicted == Count(pods, s => s == Gone) && ev.skipped == Count(pods, s => s == Skipped)
      ensures ev.pending == Count(pods, s => Waiting(s)) && ev.total == |pods|
    {
      var evicted, skipped, pending := 0, 0, 0;
      var isGone, isSkipped, isWaiting := (s: RowState) => s == Gone, (s: RowState) => s == Skipped, s => Waiting(s);
      var i := 0;
      while i < |pods|
        invariant 0 <= i <= |pods|
        invariant evicted == Count(pods[..i], isGone) && skipped == Count(pods[..i], isSkipped)
        invariant pending == Count(pods[..i], isWaiting)
      {
        CountSnoc(pods, i, isGone);
        CountSnoc(pods, i, isSkipped);
        CountSnoc(pods, i, isWaiting);
        if pods[i].state == Gone {
          evicted := evicted + 1;
        } else if pods[i].state == Skipped {
          skipped := skipped + 1;
        } else if Waiting(pods[i].state) {
          pending := pending + 1;
        }
        i := i + 1;
      }
      assert pods[..i] == pods;
      return Event(phase, code, cordoned, pods, evicted, skipped, pending, |pods|);
    }

    /** endEarly: cancelled, or timed out. */
    method EndEarly(c: Ctx) returns (ev: Event)
      requires !c.Alive?
      ensures ev.pods == pods && ev.cordoned == cordoned
      ensures ev.phase == (if c.Cancelled? then JobCancelled else JobFailed)
      ensures ev.code == (if c.Cancelled? then NoError else Timeout)
    {
      if c.Cancelled? {
        ev := Report(JobCancelled, NoError);
      } else {
        ev := Report(JobFailed, Timeout);
      }
    }

    method SetRow(i: nat, state: RowState, reason: Reason, ghost at: nat)
      requires Sound() && i < |pods| && !Final(pods[i].state)
      requires !state.Skipped? && !state.Pending?
      requires state.Gone? && !dry ==> GoneBy(env, i, pods[i], asked, at)
      modifies this`pods, this`tables, this`proof
      ensures Sound() && pods == old(pods)[i := old(pods[i]).(state := state, reason := reason)]
      ensures |tables| > |old(tables)| && tables[0] == old(tables[0])
    {
      hide LiveOf;
      pods := pods[i := pods[i].(state := state, reason := reason)];
      SteadySnoc(tables, pods);
      tables := tables + [pods];
      proof := proof[i := at];
    }

    /** A question is logged and uses up its tick. */
    method Ask(ghost question: Question)
      requires Logged(asked, tick)
      modifies this`asked, this`tick
      ensures asked == old(asked)[old(tick) := question] && tick == old(tick) + 1 && Logged(asked, tick)
      ensures old(Sound()) ==> Sound()
      ensures old(Ended(env, tick)) ==> Ended(env, tick)
    {
      hide Evidenced;
      if !dry && Evidenced(env, pods, proof, asked) {
        EvidenceStays(env, pods, proof, asked, tick, question);
      }
      asked := asked[tick := question];
      tick := tick + 1;
    }

    ghost method NoteWrite(w: Write)
      requires Sound() && w.dry == dry
      requires w.Evict? ==> cordoned == !dry && w.row < |tables[0]| && !tables[0][w.row].state.Skipped?
      modifies this`writes
      ensures Sound() && writes == old(writes) + [w]
    {
      writes := writes + [w];
    }

    /** A PENDING or BLOCKED row: one eviction call and what its answer means. `forbidden` ends the
        job. */
    method TryEvict(i: nat, now: int, retry: int) returns (forbidden: bool)
      requires Sound() && i < |pods| && (pods[i].state.Pending? || pods[i].state.Blocked?) && cordoned == !dry
      modifies this
      ensures Sound() && tables[0] == old(tables[0]) && |pods| == |old(pods)| && cordoned == old(cordoned)
      ensures passes == old(passes) && tick >= old(tick)
      ensures forall j | 0 <= j < |pods| && j != i :: pods[j] == old(pods[j])
      ensures var answer, alive := env.evict(old(tick)), env.ctx(old(tick) + 1).Alive?;
              && pods[i] == AfterCall(old(pods[i]), answer, alive, dry)
              && (forbidden <==> answer.Forbidden? && alive)
              && nextRetry == if answer.PdbBlocked? && alive
                              then old(nextRetry)[Key(pods[i].ns, pods[i].name) := now + retry] else old(nextRetry)
      ensures dry && pods[i].state.Pending? ==> forbidden || Ended(env, tick)
      ensures old(Ended(env, tick)) ==> Ended(env, tick)
      ensures asked == old(asked)[old(tick) := EvictCall(i)]
      ensures tick > old(tick) && (env.evict(old(tick)).Evicted? || tick > old(tick) + 1)
      ensures writes == old(writes) + [Evict(i, dry)]
    {
      hide Steady, Evolves, Evidenced, AllDry, SparesSkipped, NoEvictions, LiveOf, Shows;
      var answer, at := env.evict(tick), tick;
      Ask(EvictCall(i));
      FirstRow(tables, pods, i);
      NoteWrite(Evict(i, dry));
      if answer.Evicted? {
        if dry {
          SetRow(i, Gone, DryRun, at);
        } else {
          SetRow(i, Evicting, NoReason, at);
        }
        return false;
      }
      var c := Look();
      if !c.Alive? {
        return false;
      }
      Refusal(i, answer, at, now, retry);
      return answer.Forbidden?;
    }

    /** What an eviction call that did not go through means for its row. */
    method Refusal(i: nat, answer: EvictAnswer, ghost at: nat, now: int, retry: int)
      requires Sound() && i < |pods| && !Final(pods[i].state) && !answer.Evicted?
      requires at in asked && asked[at] == EvictCall(i) && env.evict(at) == answer
      modifies this`pods, this`tables, this`proof, this`nextRetry
      ensures Sound() && tables[0] == old(tables[0])
      ensures pods == old(pods)[i := AfterCall(old(pods[i]), answer, true, dry)]
      ensures nextRetry == if answer.PdbBlocked? then old(nextRetry)[Key(pods[i].ns, pods[i].name) := now + retry]
                           else old(nextRetry)
    {
      hide Steady, Evolves, Evidenced, AllDry, SparesSkipped, NoEvictions, LiveOf, Shows;
      match answer
      case PdbBlocked =>
        SetRow(i, Blocked, Pdb, at);
        nextRetry := nextRetry[Key(pods[i].ns, pods[i].name) := now + retry];
      case NotFound =>
        SetRow(i, Gone, NoReason, at);
      case Forbidden =>
      case OtherError =>
        SetRow(i, Failed, ApiRefusal, at);
    }

    /** The uids of a listing that was taken. */
    ghost predicate Fresh(live: map<string, string>, listed: nat)
      reads this
    {
      && listed in asked && asked[listed].ListCall? && env.list(listed).Listed?
      && live == LiveOf(env.list(listed).pods)
    }

    /** An EVICTING row: gone once a fresh listing no longer shows it; at once in a dry run. */
    method Watch(i: nat, live: Option<map<string, string>>, ghost listed: nat)
      requires Sound() && i < |pods| && pods[i].state.Evicting?
      requires live.Some? ==> Fresh(live.value, listed)
      modifies this`pods, this`tables, this`proof
      ensures Sound() && tables[0] == old(tables[0]) && |pods| == |old(pods)|
      ensures forall j | 0 <= j < |pods| && j != i :: pods[j] == old(pods[j])
      ensures pods[i] == if dry then old(pods[i]).(state := Gone, reason := DryRun)
                         else if live.None? || Shows(live.value, old(pods[i])) then old(pods[i])
                         else old(pods[i]).(state := Gone, reason := NoReason)
    {
      hide Steady, LiveOf;
      if dry {
        SetRow(i, Gone, DryRun, 0);
        return;
      }
      if live.None? {
        return;
      }
      var key := Key(pods[i].ns, pods[i].name);
      if key !in live.value || live.value[key] != pods[i].uid {
        SetRow(i, Gone, NoReason, listed);
      }
    }

    /** A dry run has an answer for the first rows, or the context has ended. */
    ghost predicate Answered(n: nat)
      reads this
    {
      dry ==> Ended(env, tick) ||
              forall j | 0 <= j < n && j < |pods| :: !pods[j].state.Pending? && !pods[j].state.Evicting?
    }

    /** One row of a walk: asked about if it is due, else watched. */
    method Visit(i: nat, now: int, retry: int, live: Option<map<string, string>>, ghost listed: nat)
      returns (forbidden: bool)
      requires Sound() && cordoned == !dry && i < |pods|
      requires live.Some? ==> Fresh(live.value, listed)
      modifies this
      ensures Sound() && tables[0] == old(tables[0]) && |pods| == |old(pods)| && cordoned == old(cordoned)
      ensures passes == old(passes) && tick >= old(tick) && (old(Ended(env, tick)) ==> Ended(env, tick))
      ensures forall j | 0 <= j < |pods| && j != i :: pods[j] == old(pods[j])
      ensures forall key | key != Key(old(pods[i]).ns, old(pods[i]).name) ::
                && (key in nextRetry <==> key in old(nextRetry))
                && (key in nextRetry ==> nextRetry[key] == old(nextRetry)[key])
      ensures live.Some? ==> Fresh(live.value, listed)
      ensures if Due(old(pods[i]), now, old(nextRetry), dry) then
                && asked == old(asked)[old(tick) := EvictCall(i)]
                && AskedAt(env, dry, asked, old(tick), i, old(pods[i]), pods[i])
                && (forbidden <==> env.evict(old(tick)).Forbidden? && env.ctx(old(tick) + 1).Alive?)
                && tick > old(tick) && (env.evict(old(tick)).Evicted? || tick > old(tick) + 1)
              else
                && asked == old(asked) && !forbidden && tick == old(tick) && pods[i] == Watched(old(pods[i]), live, dry)
      ensures dry && (pods[i].state.Pending? || pods[i].state.Evicting?) ==> forbidden || Ended(env, tick)
      ensures OnlyEvicts(old(writes), writes)
    {
      hide Steady, Evolves, LiveOf, AllDry, SparesSkipped, Evidenced, NoEvictions, Shows, Ended;
      var wait := false;
      if pods[i].state.Blocked? {
        var key := Key(pods[i].ns, pods[i].name);
        wait := dry || (key in nextRetry && now < nextRetry[key]);
      }
      if (pods[i].state.Pending? || pods[i].state.Blocked?) && !wait {
        forbidden := TryEvict(i, now, retry);
      } else {
        forbidden := false;
        if pods[i].state.Evicting? {
          Watch(i, live, listed);
        }
      }
    }

    /** One walk over the table, as far as the context lets it: `walked` rows. */
    method Pass(now: int, retry: int, live: Option<map<string, string>>, ghost listed: nat)
      returns (forbidden: bool, ghost walked: nat)
      requires Sound() && cordoned == !dry
      requires live.Some? ==> Fresh(live.value, listed)
      modifies this
      ensures Sound() && tables[0] == old(tables[0]) && cordoned == old(cordoned) && tick >= old(tick)
      ensures passes == old(passes) && (forbidden || Answered(|pods|))
      ensures Walked(env, dry, now, old(pods), old(nextRetry), live, asked, old(tick), walked, pods)
      ensures AsksOnly(env, asked, old(tick), tick, walked, forbidden)
      ensures forall t | t in old(asked) :: t in asked && asked[t] == old(asked)[t]
      ensures walked == |pods| || forbidden || Ended(env, tick)
      ensures !forbidden && !Ended(env, tick) ==> forall r | r in pods :: !r.state.Pending?
      ensures forbidden ==> WasForbidden(env, asked)
      ensures OnlyEvicts(old(writes), writes)
    {
      hide Steady, LiveOf, AllDry, SparesSkipped, Evidenced, NoEvictions, Walked, AsksOnly, RetriesFor, Due, AskedAt,
           Ended, Watched, WasForbidden, OnlyEvicts;
      EvictsNone(writes);
      var i := 0;
      ghost var was, retries, from := pods, nextRetry, tick;
      walked := 0;
      NothingWalked(env, dry, now, was, retries, live, asked, from);
      while i < |pods|
        invariant Sound() && tables != [] && tables[0] == old(tables[0]) && cordoned == old(cordoned)
                && tick >= from
        invariant cordoned == !dry && passes == old(passes) && i <= |pods| == |was| && Answered(i)
        invariant live.Some? ==> Fresh(live.value, listed)
        invariant walked == i && Walked(env, dry, now, was, retries, live, asked, from, i, pods)
        invariant RetriesFor(was, retries, nextRetry, i) && AsksOnly(env, asked, from, tick, i, false)
        invariant OnlyEvicts(old(writes), writes)
        invariant forall t | t in old(asked) :: t in asked && asked[t] == old(asked)[t]
        decreases |pods| - i
      {
        AsksLater(env, asked, from, tick, tick + 1, i);
        var c := Look();
        if !c.Alive? {
          return false, walked;
        }
        ghost var pods0, asked0, tick0, retries0, writes0 := pods, asked, tick, nextRetry, writes;
        forbidden := Visit(i, now, retry, live, listed);
        EvictsMore(old(writes), writes0, writes);
        assert forall t | t in asked0 && t >= from :: asked0[t] != EvictCall(i) by {
          NotYetAsked(env, asked0, from, tick0, i);
        }
        assert was[i] == pods0[i] by { StillThere(env, dry, now, was, retries, live, asked0, from, i, pods0); }
        WalkedMore(env, dry, now, was, retries, retries0, live, asked0, asked, from, tick0, i, pods0, pods);
        RetriesMore(was, retries, retries0, nextRetry, i);
        AsksMore(env, asked0, asked, from, tick0, tick, i, forbidden);
        i := i + 1;
        walked := i;
        if forbidden {
          assert WasForbidden(env, asked) by { ForbiddenAt(env, asked, tick0, i - 1); }
          return;
        }
      }
      if !Ended(env, tick) {
        NonePending(env, dry, now, was, retries, live, asked, from, tick, pods);
      }
      return false, walked;
    }

    /** The pods List of a turn, not taken when nothing is EVICTING or in a dry run. `stop`: what ends
        the job, which is an ended context, or a forbidden list. */
    method Relist() returns (live: Option<map<string, string>>, stop: Option<Event>, ghost listed: nat)
      requires Logged(asked, tick)
      modifies this`tick, this`asked
      ensures old(Sound()) ==> Sound()
      ensures live.Some? ==> Fresh(live.value, listed)
      ensures tick >= old(tick) && (old(Ended(env, tick)) ==> Ended(env, tick))
      ensures stop.Some? ==> (stop.value.phase.JobFailed? || stop.value.phase.JobCancelled?)
                             && stop.value.pods == pods && stop.value.cordoned == cordoned
      ensures dry || !AnyEvicting(pods) ==> live.None? && stop.None? && asked == old(asked) && tick == old(tick)
      ensures !dry && AnyEvicting(pods) ==>
                var answer, alive := env.list(old(tick)), env.ctx(old(tick) + 1).Alive?;
                && asked == old(asked)[old(tick) := ListCall] && (live.Some? <==> answer.Listed?)
                && (stop.Some? <==> answer.ListFailed? && (!alive || answer.err.ErrForbidden?))
                && (stop.Some? && alive ==> stop.value.phase.JobFailed? && stop.value.code.Rbac?)
      ensures stop.Some? ==> Caused(env, asked, tick, stop.value)
      ensures forall t | t in old(asked) :: t in asked && asked[t] == old(asked)[t]
    {
      hide Caused, Ended, WasForbidden, Steady, AllDry, SparesSkipped, Evidenced, NoEvictions;
      live, stop, listed := None, None, tick;
      if dry || !AnyEvicting(pods) {
        return;
      }
      var answer := env.list(tick);
      Ask(ListCall);
      if answer.Listed? {
        var shown := Index(answer.pods);
        return Some(shown), None, listed;
      }
      var c := Look();
      if !c.Alive? {
        var ev := EndEarly(c);
        EarlyCause(env, asked, tick, tick - 1, ev);
        stop := Some(ev);
      } else if answer.err.ErrForbidden? {
        var ev := Report(JobFailed, Rbac);
        assert WasForbidden(env, asked) by { ListForbidden(env, asked, listed); }
        RbacCause(env, asked, tick, ev);
        stop := Some(ev);
      }
    }

    /** SetUnschedulable(true): read, then patch only on a change. */
    method Cordon() returns (err: Option<ApiError>)
      requires Sound()
      modifies this`tick, this`writes
      ensures Sound() && tick >= old(tick)
      ensures var answer := env.node(old(tick)); var changes := answer.NodeOk? && !answer.unschedulable;
              && writes == old(writes) + (if changes then [Patch(dry)] else [])
              && err == (if changes then env.patch(old(tick) + 1)
                         else if answer.NodeFailed? then Some(answer.err) else None)
              && tick == old(tick) + (if changes then 2 else 1)
      ensures NoEvictions(old(writes)) ==> NoEvictions(writes)
    {
      hide Evidenced;
      var answer := env.node(tick);
      tick := tick + 1;
      if answer.NodeFailed? {
        return Some(answer.err);
      }
      if answer.unschedulable {
        return None;
      }
      NoteWrite(Patch(dry));
      err := env.patch(tick);
      tick := tick + 1;
    }

    /** How many rows are still to wait for, and whether any failed. */
    method Remaining() returns (remaining: nat, anyFailed: bool)
      ensures remaining == 0 <==> forall r | r in pods :: Final(r.state) || (dry && r.state.Blocked?)
      ensures anyFailed <==> exists r | r in pods :: r.state.Failed?
    {
      remaining, anyFailed := 0, false;
      var i := 0;
      while i < |pods|
        invariant 0 <= i <= |pods|
        invariant remaining == 0 <==> forall r | r in pods[..i] :: Final(r.state) || (dry && r.state.Blocked?)
        invariant anyFailed <==> exists r | r in pods[..i] :: r.state.Failed?
      {
        assert pods[..i + 1] == pods[..i] + [pods[i]];
        match pods[i].state {
          case Pending => remaining := remaining + 1;
          case Evicting => remaining := remaining + 1;
          case Blocked =>
            if !dry {
              remaining := remaining + 1;
            }
          case Failed => anyFailed := true;
          case _ =>
        }
        i := i + 1;
      }
      assert pods[..i] == pods;
    }

    /** One turn of the loop: list, walk, count; `end` is the job's last event, if this was it. */
    method Turn(retry: int, ghost deadline: nat) returns (end: Option<Event>)
      requires Sound() && cordoned == !dry && GoodCtx(env, deadline)
      modifies this
      ensures Sound() && tables[0] == old(tables[0]) && cordoned == !dry && passes <= old(passes) + 1
      ensures end.Some? ==> end.value.pods == pods && end.value.cordoned == cordoned && !end.value.phase.Refused?
      ensures end.Some? && end.value.phase.Succeeded? ==> Cleared(pods, dry)
      ensures end.None? ==> !dry && old(tick) < tick <= deadline
      ensures end.Some? ==> Caused(env, asked, tick, end.value)
      ensures end.None? ==> forall r | r in pods :: !r.state.Pending?
      ensures forall t | t in old(asked) :: t in asked && asked[t] == old(asked)[t]
      ensures OnlyEvicts(old(writes), writes)
    {
      hide Steady, LiveOf, AllDry, SparesSkipped, Evidenced, NoEvictions, GoodCtx, Ended, Walked, AsksOnly, Caused,
           WasForbidden, OnlyEvicts;
      EvictsNone(writes);
      var now := env.now(tick);
      var live, stop, listed := Relist();
      if stop.Some? {
        return stop;
      }
      var forbidden, walked := Pass(now, retry, live, listed);
      passes := passes + 1;
      if forbidden {
        var ev := Report(JobFailed, Rbac);
        assert Caused(env, asked, tick, ev) by { RbacCause(env, asked, tick, ev); }
        return Some(ev);
      }
      ghost var at := tick;
      end := Tally(deadline);
      EndedLater(env, at, tick);
    }

    /** After a walk: an ended context or nothing left to wait for ends the job. */
    method Tally(ghost deadline: nat) returns (end: Option<Event>)
      requires Sound() && Answered(|pods|) && GoodCtx(env, deadline)
      modifies this`tick
      ensures Sound() && tick == old(tick) + 1
      ensures end.Some? ==> end.value.pods == pods && end.value.cordoned == cordoned && !end.value.phase.Refused?
      ensures end.Some? && end.value.phase.Succeeded? ==> Cleared(pods, dry)
      ensures end.None? ==> !dry && tick <= deadline && !Ended(env, tick)
      ensures end.Some? ==> Caused(env, asked, tick, end.value)
      ensures end.None? <==> env.ctx(old(tick)).Alive? && exists r | r in pods :: LeftOver(r, dry)
      ensures env.ctx(old(tick)).Alive? && end.Some? ==>
                if exists r | r in pods :: r.state.Failed?
                then end.value.phase.JobFailed? && end.value.code.EvictionFailed?
                else end.value.phase.Succeeded? && end.value.code.NoError?
    {
      hide Steady, AllDry, SparesSkipped, Evidenced, NoEvictions, GoodCtx, Ended;
      var ev: Event;
      EndedStays(env, tick, deadline);
      var c := Look();
      if !c.Alive? {
        ev := EndEarly(c);
        EarlyCause(env, asked, tick, tick - 1, ev);
        return Some(ev);
      }
      var remaining, anyFailed := Remaining();
      if remaining == 0 {
        if anyFailed {
          ev := Report(JobFailed, EvictionFailed);
        } else {
          ev := Report(Succeeded, NoError);
        }
        return Some(ev);
      }
      return None;
    }

    /** The eviction loop, after the cordon. */
    method Evictions(retry: int, ghost deadline: nat) returns (ev: Event)
      requires Sound() && cordoned == !dry && passes == 0 && GoodCtx(env, deadline)
      modifies this
      ensures Sound() && tables[0] == old(tables[0]) && cordoned == !dry
      ensures ev.pods == pods && ev.cordoned == cordoned && !ev.phase.Refused?
      ensures ev.phase.Succeeded? ==> Cleared(pods, dry)
      ensures dry ==> passes <= 1
      ensures Caused(env, asked, tick, ev) && OnlyEvicts(old(writes), writes)
    {
      hide Steady, AllDry, SparesSkipped, Evidenced, NoEvictions, GoodCtx, Ended, Cleared, Caused, OnlyEvicts;
      EvictsNone(writes);
      while true
        invariant OnlyEvicts(old(writes), writes)
        invariant Sound() && tables != [] && tables[0] == old(tables[0]) && cordoned == !dry
        invariant dry ==> passes == 0
        decreases deadline - tick
      {
        ghost var writes0 := writes;
        var end := Turn(retry, deadline);
        EvictsMore(old(writes), writes0, writes);
        if end.Some? {
          return end.value;
        }
        var c := Look();
        if !c.Alive? {
          ev := EndEarly(c);
          EarlyCause(env, asked, tick, tick - 1, ev);
          return;
        }
      }
    }

    /** Up to the refusals: the table, or the event that ends the job before any write. */
    method Preflight(own: OwnPod, force: bool, deleteEmptyDir: bool)
      returns (stop: Option<Event>, ghost listing: seq<Pod>)
      requires pods == [] && !cordoned && writes == [] && tables == [] && Logged(asked, tick)
      modifies this`pods, this`tick, this`tables, this`asked
      ensures stop.Some? ==> stop.value.pods == pods && !stop.value.cordoned && !stop.value.phase.Succeeded?
      ensures tables == [] ==> stop.Some?
      ensures tables == [] <==> env.node(old(tick)).NodeFailed? || !env.list(old(tick) + 1).Listed?
      ensures tables != [] ==> tables == [pods] && Sound() && TableOf(pods, listing, own, force, deleteEmptyDir)
      ensures tables != [] ==> env.list(old(tick) + 1) == Listed(listing)
      ensures tables != [] ==> (stop.None? <==> Unhindered(pods)) && (stop.Some? ==> stop.value.phase.Refused?)
      ensures tables != [] ==> tick == old(tick) + 2 && (stop.Some? ==> stop.value.code == Hindrance(pods))
      ensures stop.Some? ==> !stop.value.phase.JobCancelled? || ContextWas(env, tick, Cancelled)
      ensures stop.Some? && stop.value.phase.JobFailed? ==> ContextWas(env, tick, DeadlineExceeded)
    {
      hide KeysFor, TableOf, Unhindered, Steady, Evidenced, SparesSkipped, AllDry, NoEvictions;
      stop, listing := None, [];
      var node := env.node(tick);
      tick := tick + 1;
      if node.NodeFailed? {
        var ev := NoTable(CodeFor(node.err));
        return Some(ev), [];
      }
      var list := env.list(tick);
      Ask(ListCall);
      if !list.Listed? {
        var ev := NoTable(CodeFor(list.err));
        return Some(ev), [];
      }
      listing := list.pods;
      stop := FirstTable(list.pods, own, force, deleteEmptyDir);
    }

    /** The classified table, and the refusal if a pod stands in the way. */
    method FirstTable(list: seq<Pod>, own: OwnPod, force: bool, deleteEmptyDir: bool) returns (stop: Option<Event>)
      requires !cordoned && writes == [] && Logged(asked, tick)
      modifies this`pods, this`tables
      ensures tables == [pods] && Sound() && TableOf(pods, list, own, force, deleteEmptyDir)
      ensures stop.None? <==> Unhindered(pods)
      ensures stop.Some? ==> stop.value.pods == pods && !stop.value.cordoned && stop.value.phase.Refused?
                             && stop.value.code == Hindrance(pods)
    {
      hide KeysFor, TableOf, Unhindered, Steady, Evidenced, SparesSkipped, AllDry, NoEvictions;
      stop := None;
      var rows, needsForce, needsEmptyDir := Classify(list, own, force, deleteEmptyDir);
      pods := rows;
      tables := [rows];
      StartSound(env, rows, own, force, deleteEmptyDir, list, proof, asked, dry);
      UnhinderedIff(rows);
      KeysEmpty(rows, NoController);
      if |needsForce| > 0 {
        var ev := Report(Refused, NeedsForce);
        stop := Some(ev);
      } else if |needsEmptyDir| > 0 {
        var ev := Report(Refused, NeedsEmptyDir);
        stop := Some(ev);
      }
    }

    /** A failed call before there is a table: refused, unless the context ended. */
    method NoTable(code: Code) returns (ev: Event)
      modifies this`tick
      ensures ev.pods == pods && ev.cordoned == cordoned && !ev.phase.Succeeded?
      ensures if env.ctx(old(tick)).Alive? then ev.phase.Refused? && ev.code == code
              else ev.phase == (if env.ctx(old(tick)).Cancelled? then JobCancelled else JobFailed)
      ensures tick == old(tick) + 1
    {
      var c := Look();
      if !c.Alive? {
        ev := EndEarly(c);
      } else {
        ev := Report(Refused, code);
      }
    }

    /** The job's writes: the cordon, and the evictions unless it failed. */
    method CordonAndEvict(retry: int, ghost deadline: nat) returns (ev: Event)
      requires Sound() && writes == [] && !cordoned && passes == 0 && GoodCtx(env, deadline)
      modifies this
      ensures Sound() && tables[0] == old(tables[0]) && ev.pods == pods && ev.cordoned == cordoned
      ensures !ev.phase.Refused? && (ev.phase.Succeeded? ==> Cleared(pods, dry)) && (dry ==> passes <= 1)
      ensures ev.phase.JobCancelled? ==> ContextWas(env, tick, Cancelled)
      ensures ev.phase.JobFailed? ==> ContextWas(env, tick, DeadlineExceeded) || CordonFails(env, old(tick))
                                      || (exists r | r in pods :: r.state.Failed?) || WasForbidden(env, asked)
      ensures writes != [] && writes[0] == Patch(dry) <==>
              env.node(old(tick)).NodeOk? && !env.node(old(tick)).unschedulable
      ensures cordoned <==> !dry && !CordonFails(env, old(tick))
    {
      hide Steady, AllDry, SparesSkipped, Evidenced, NoEvictions, GoodCtx, Cleared, Caused, ContextWas, WasForbidden;
      var err := Cordon();
      if err.Some? {
        var c := Look();
        if !c.Alive? {
          ev := EndEarly(c);
          SeenContext(env, tick, tick - 1);
        } else {
          ev := Report(JobFailed, CodeFor(err.value));
        }
        return;
      }
      cordoned := !dry;
      ev := Evictions(retry, deadline);
      CauseMeans(env, asked, tick, ev);
    }

    /** The whole job of a drain. `listing` is the pods its table was made from. */
    method Run(own: OwnPod, force: bool, deleteEmptyDir: bool, retry: int, ghost deadline: nat)
      returns (ev: Event, ghost listing: seq<Pod>)
      requires pods == [] && !cordoned && writes == [] && tables == [] && passes == 0 && Logged(asked, tick)
      requires GoodCtx(env, deadline)
      modifies this
      ensures ev.pods == pods && ev.cordoned == cordoned
      ensures ev.phase.Refused? ==> writes == []
      ensures tables == [] ==> writes == [] && !ev.phase.Succeeded?
      ensures tables != [] ==> Sound() && TableOf(tables[0], listing, own, force, deleteEmptyDir)
      ensures writes != [] ==> tables != [] && Unhindered(tables[0])
      ensures Spares(writes, listing, own)
      ensures ev.phase.Succeeded? ==> Emptied(pods, listing, own, dry)
      ensures tables != [] ==> env.list(old(tick) + 1) == Listed(listing)
      ensures tables != [] ==>
                (ev.phase.Refused? <==> exists p | p in listing :: Endangered(p, own, force, deleteEmptyDir))
      ensures dry ==> passes <= 1 && !cordoned
      ensures ev.phase.JobCancelled? ==> ContextWas(env, tick, Cancelled)
      ensures ev.phase.JobFailed? ==> ContextWas(env, tick, DeadlineExceeded) || CordonFails(env, old(tick) + 2)
                                      || (exists r | r in pods :: r.state.Failed?) || WasForbidden(env, asked)
      ensures tables != [] && Unhindered(tables[0]) ==>
                var answer := env.node(old(tick) + 2);
                && (writes != [] && writes[0] == Patch(dry) <==> answer.NodeOk? && !answer.unschedulable)
                && (cordoned <==> !dry && !CordonFails(env, old(tick) + 2))
    {
      hide Steady, AllDry, Evidenced, GoodCtx, TableOf, Unhindered, Spares, SparesSkipped, NoEvictions, WasForbidden,
           ContextWas, Cleared, CordonFails, Emptied, Endangered;
      SparesNone([], own);
      var stop: Option<Event>;
      stop, listing := Preflight(own, force, deleteEmptyDir);
      SparesNone(listing, own);
      if tables != [] {
        TableLaw(pods, listing, own, force, deleteEmptyDir);
      }
      if stop.Some? {
        return stop.value, listing;
      }
      ev := CordonAndEvict(retry, deadline);
      if ev.phase.Succeeded? {
        ClearedMeans(tables, pods, listing, own, force, deleteEmptyDir, dry);
      }
      SparesOwn(writes, tables[0], listing, own, force, deleteEmptyDir);
    }
  }

  ghost predicate TableOf(rows: seq<Row>, pods: seq<Pod>, own: OwnPod, force: bool, deleteEmptyDir: bool) {
    |rows| == |pods| && forall i | 0 <= i < |pods| :: rows[i] == ClassOf(pods[i], own, force, deleteEmptyDir)
  }

  /** No pod would be lost for good, and no data with it, unless the flags allow it. */
  ghost predicate Unhindered(rows: seq<Row>) {
    forall r | r in rows :: r.reason != NoController && r.reason != EmptyDir
  }

  /** What a refused drain asks for: the force flag as soon as any pod needs it. */
  ghost function Hindrance(rows: seq<Row>): Code {
    if exists r | r in rows :: r.reason == NoController then NeedsForce else NeedsEmptyDir
  }

  lemma UnhinderedIff(rows: seq<Row>)
    ensures Unhindered(rows) <==> KeysFor(rows, NoController) == [] && KeysFor(rows, EmptyDir) == []
  {
    KeysEmpty(rows, NoController);
    KeysEmpty(rows, EmptyDir);
  }

  /** A table says of each pod whether it is left alone, and of all of them whether any is in danger. */
  lemma TableLaw(rows: seq<Row>, pods: seq<Pod>, own: OwnPod, force: bool, deleteEmptyDir: bool)
    requires TableOf(rows, pods, own, force, deleteEmptyDir)
    ensures Unhindered(rows) <==> forall p | p in pods :: !Endangered(p, own, force, deleteEmptyDir)
    ensures forall i | 0 <= i < |rows| :: rows[i].state.Skipped? <==> Protected(pods[i], own)
  {
    hide ControllerKind, HasEmptyDir, Finished, IsOwn;
    forall i | 0 <= i < |rows|
      ensures rows[i].reason == NoController || rows[i].reason == EmptyDir
              <==> Endangered(pods[i], own, force, deleteEmptyDir)
    {
    }
    assert forall i | 0 <= i < |rows| :: rows[i] in rows && pods[i] in pods;
  }

  /** No eviction is of a mirror pod, a DaemonSet's pod or the agent's own. */
  ghost predicate Spares(writes: seq<Write>, pods: seq<Pod>, own: OwnPod) {
    forall w | w in writes && w.Evict? :: w.row < |pods| && !Protected(pods[w.row], own)
  }

  /** Every pod listed at first is gone, or blocked in a dry run, but for those left alone. */
  ghost predicate Emptied(rows: seq<Row>, pods: seq<Pod>, own: OwnPod, dry: bool) {
    && |rows| == |pods|
    && forall i | 0 <= i < |rows| ::
         if Protected(pods[i], own) then rows[i].state.Skipped?
         else rows[i].state.Gone? || (dry && rows[i].state.Blocked?)
  }

  lemma ClearedMeans(tables: seq<seq<Row>>, rows: seq<Row>, pods: seq<Pod>, own: OwnPod, force: bool,
                     deleteEmptyDir: bool, dry: bool)
    requires tables != [] && tables[|tables| - 1] == rows && Steady(tables)
    requires TableOf(tables[0], pods, own, force, deleteEmptyDir) && Cleared(rows, dry)
    ensures Emptied(rows, pods, own, dry)
  {
    hide Protected, Unhindered;
    TableLaw(tables[0], pods, own, force, deleteEmptyDir);
    hide TableOf;
    assert |tables[0]| == |pods| by { TableSize(tables[0], pods, own, force, deleteEmptyDir); }
    assert Evolves(tables[0], tables[|tables| - 1]);
    forall i | 0 <= i < |rows|
      ensures if Protected(pods[i], own) then rows[i].state.Skipped?
              else rows[i].state.Gone? || (dry && rows[i].state.Blocked?)
    {
      assert RowEvolves(tables[0][i], rows[i]) && rows[i] in rows;
    }
  }

  lemma TableSize(rows: seq<Row>, pods: seq<Pod>, own: OwnPod, force: bool, deleteEmptyDir: bool)
    requires TableOf(rows, pods, own, force, deleteEmptyDir)
    ensures |rows| == |pods|
  {
  }

  lemma SparesOwn(writes: seq<Write>, rows: seq<Row>, pods: seq<Pod>, own: OwnPod, force: bool, deleteEmptyDir: bool)
    requires SparesSkipped(writes, rows) && TableOf(rows, pods, own, force, deleteEmptyDir)
    ensures Spares(writes, pods, own)
  {
  }

  lemma SparesNone(pods: seq<Pod>, own: OwnPod)
    ensures Spares([], pods, own)
  {
  }

  /** A row there is still something to wait for. */
  predicate LeftOver(r: Row, dry: bool) {
    !Final(r.state) && !(dry && r.state.Blocked?)
  }

  /** Every pod gone or left alone; in a dry run a blocked one is an answer too. */
  ghost predicate Cleared(pods: seq<Row>, dry: bool) {
    forall r | r in pods :: r.state.Gone? || r.state.Skipped? || (dry && r.state.Blocked?)
  }

  predicate AnyEvicting(pods: seq<Row>) {
    exists r | r in pods :: r.state.Evicting?
  }

  method Index(pods: seq<Pod>) returns (live: map<string, string>)
    ensures live == LiveOf(pods)
  {
    live := map[];
    var i := 0;
    while i < |pods|
      invariant 0 <= i <= |pods| && live == LiveOf(pods[..i])
    {
      assert pods[..i + 1][..i] == pods[..i];
      live := live[Key(pods[i].ns, pods[i].name) := pods[i].uid];
      i := i + 1;
    }
    assert pods[..i] == pods;
  }

  /** A fresh classification has no GONE row, and stands as the first table. */
  lemma StartSound(env: Env, rows: seq<Row>, own: OwnPod, force: bool, deleteEmptyDir: bool, pods: seq<Pod>,
                   proof: map<nat, nat>, asked: map<nat, Question>, dry: bool)
    requires TableOf(rows, pods, own, force, deleteEmptyDir)
    ensures Steady([rows]) && Evidenced(env, rows, proof, asked) && SparesSkipped([], rows) && AllDry([], dry)
            && NoEvictions([])
  {
  }

  lemma FirstRow(tables: seq<seq<Row>>, pods: seq<Row>, i: nat)
    requires tables != [] && tables[|tables| - 1] == pods && Steady(tables) && i < |pods| && !pods[i].state.Skipped?
    ensures i < |tables[0]| && !tables[0][i].state.Skipped?
  {
    assert Evolves(tables[0], tables[|tables| - 1]);
    assert RowEvolves(tables[0][i], pods[i]);
  }
}
