/** The effective query rules: the owner's rules, a metrics mirror of each that lists pods or nodes,
    and namespace discovery; and which rule answers a LIST. */
module QueryRules {
  import opened Bytes

  datatype QueryRule = QueryRule(id: string, ns: string, resources: seq<string>, names: seq<string>, verbs: seq<string>,
                                 labelSelector: string, fieldSelector: string)

  datatype StateRule = StateRule(id: string, ns: string, resources: seq<string>, labelSelector: string,
      fieldSelector: string)

  datatype Resource = Resource(group: string, version: string, name: string)

  /** How a configured resource name resolves. */
  type Parser = string -> Option<Resource>

  const CORE_NAMESPACES := Resource("", "v1", "namespaces")
  const USAGE_RULE_ID := "kubexa-usage-metrics"
  const DISCOVERY_RULE_ID := "kubexa-namespace-discovery"

  datatype Kind = Pods | Nodes

  function Plural(k: Kind): string {
    if k.Pods? then "pods" else "nodes"
  }

  function CoreOf(k: Kind): Resource {
    Resource("", "v1", Plural(k))
  }

  function MetricsOf(k: Kind): Resource {
    Resource("metrics.k8s.io", "v1beta1", Plural(k))
  }

  function MetricsName(k: Kind): string {
    "metrics.k8s.io/v1beta1/" + Plural(k)
  }

  /** The parser reads the names the agent itself writes. */
  ghost predicate Reads(parse: Parser) {
    && (forall k: Kind :: parse(MetricsName(k)) == Some(MetricsOf(k)))
    && parse("namespaces") == Some(CORE_NAMESPACES)
  }

  // ---- Strings ----

  predicate IsSpace(c: char) {
    c in "\t\n\r \U{000B}\U{000C}\U{0085}\U{00A0}\U{1680}\U{2028}\U{2029}\U{202F}\U{205F}\U{3000}"
    || '\U{2000}' <= c <= '\U{200A}'
  }

  function TrimLeft(s: string): string {
    if s != "" && IsSpace(s[0]) then TrimLeft(s[1..]) else s
  }

  function TrimRight(s: string): string {
    if s != "" && IsSpace(s[|s| - 1]) then TrimRight(s[..|s| - 1]) else s
  }

  function TrimSpace(s: string): string {
    TrimRight(TrimLeft(s))
  }

  /** Equal to "list" under simple case folding, where the long s folds to s. */
  predicate FoldsToList(s: string) {
    |s| == 4 && s[0] in "lL" && s[1] in "iI" && s[2] in "sS\U{017F}" && s[3] in "tT"
  }

  /** Equal to "list" once lower-cased, where the dotted capital I becomes i. */
  predicate LowersToList(s: string) {
    |s| == 4 && s[0] in "lL" && s[1] in "iI\U{0130}" && s[2] in "sS" && s[3] in "tT"
  }

  predicate LowersToGet(s: string) {
    |s| == 3 && s[0] in "gG" && s[1] in "eE" && s[2] in "tT"
  }

  /** The two readings part on exactly two letters, of which the second passes the validation. */
  lemma ReadingsDifferIff(s: string)
    ensures FoldsToList(s) != LowersToList(s)
            <==> |s| == 4 && s[0] in "lL" && s[3] in "tT"
                 && ((s[1] in "iI" && s[2] == '\U{017F}') || (s[1] == '\U{0130}' && s[2] in "sS"))
  {
  }

  function Decimal(n: nat): string {
    if n < 10 then [DigitChar(n)] else Decimal(n / 10) + [DigitChar(n % 10)]
  }

  function DigitChar(d: nat): char
    requires d < 10
  {
    "0123456789"[d]
  }

  // ---- What a rule says ----

  predicate HasWildcard(resources: seq<string>) {
    exists name | name in resources :: TrimSpace(name) == "*"
  }

  predicate Targets(parse: Parser, resources: seq<string>, want: Resource) {
    HasWildcard(resources) || exists name | name in resources :: parse(name) == Some(want)
  }

  /** As the mirroring reads the verbs. */
  predicate PermitsListing(verbs: seq<string>) {
    verbs == [] || exists v | v in verbs :: FoldsToList(TrimSpace(v))
  }

  /** As the compiled policy reads them. */
  predicate AllowsList(verbs: seq<string>) {
    verbs == [] || exists v | v in verbs :: LowersToList(TrimSpace(v))
  }

  predicate MatchesPattern(value: string, pattern: string) {
    pattern != "" &&
    if pattern[|pattern| - 1] == '*' then pattern[..|pattern| - 1] <= value else value == pattern
  }

  /** An empty rule namespace covers everything; a request without one is covered by nothing else. */
  predicate CoversNamespace(rule: string, ns: string) {
    rule == "" || (ns != "" && MatchesPattern(ns, rule))
  }

  predicate Answers(parse: Parser, r: QueryRule, want: Resource, ns: string) {
    Targets(parse, r.resources, want) && CoversNamespace(r.ns, ns) && AllowsList(r.verbs)
  }

  /** Decide, for a LIST: the first rule that answers. */
  function First(parse: Parser, rules: seq<QueryRule>, want: Resource, ns: string, from: nat): (i: Option<nat>)
    requires from <= |rules|
    ensures i.Some? ==> from <= i.value < |rules| && Answers(parse, rules[i.value], want, ns)
                        && forall j | from <= j < i.value :: !Answers(parse, rules[j], want, ns)
    ensures i.None? ==> forall j | from <= j < |rules| :: !Answers(parse, rules[j], want, ns)
    decreases |rules| - from
  {
    if from == |rules| then None
    else if Answers(parse, rules[from], want, ns) then Some(from)
    else First(parse, rules, want, ns, from + 1)
  }

  // ---- The mirrors ----

  /** A rule with a field selector that lists the resource blocks every later mirror of it. */
  predicate Blocks(parse: Parser, r: QueryRule, k: Kind) {
    PermitsListing(r.verbs) && r.fieldSelector != "" && Targets(parse, r.resources, CoreOf(k))
  }

  predicate Blocked(parse: Parser, rules: seq<QueryRule>, i: nat, k: Kind)
    requires i <= |rules|
  {
    exists j | 0 <= j < i :: Blocks(parse, rules[j], k)
  }

  predicate Mirrored(parse: Parser, rules: seq<QueryRule>, i: nat, k: Kind)
    requires i < |rules|
  {
    && PermitsListing(rules[i].verbs) && rules[i].fieldSelector == "" && !HasWildcard(rules[i].resources)
    && Targets(parse, rules[i].resources, CoreOf(k)) && !Blocked(parse, rules, i, k)
  }

  function SourceName(r: QueryRule, i: nat): string {
    if r.id == "" then "#" + Decimal(i) else r.id
  }

  function MirrorOf(r: QueryRule, i: nat, k: Kind): QueryRule {
    QueryRule(USAGE_RULE_ID + ":" + SourceName(r, i) + ":" + Plural(k), r.ns, [MetricsName(k)], r.names, ["list"],
              r.labelSelector, "")
  }

  datatype Mirror = Mirror(rule: QueryRule, source: nat, kind: Kind)

  /** The mirrors of one rule: pods, then nodes. */
  function MirrorsAt(parse: Parser, rules: seq<QueryRule>, i: nat): seq<Mirror>
    requires i < |rules|
  {
    (if Mirrored(parse, rules, i, Pods) then [Mirror(MirrorOf(rules[i], i, Pods), i, Pods)] else [])
    + (if Mirrored(parse, rules, i, Nodes) then [Mirror(MirrorOf(rules[i], i, Nodes), i, Nodes)] else [])
  }

  /** The mirrors of the first n rules, each with the rule it came from. */
  function Mirrors(parse: Parser, rules: seq<QueryRule>, n: nat): seq<Mirror>
    requires n <= |rules|
  {
    if n == 0 then [] else Mirrors(parse, rules, n - 1) + MirrorsAt(parse, rules, n - 1)
  }

  function RulesOf(mirrors: seq<Mirror>): seq<QueryRule> {
    seq(|mirrors|, i requires 0 <= i < |mirrors| => mirrors[i].rule)
  }

  /** metricsUsageRules. */
  method MetricsUsageRules(parse: Parser, rules: seq<QueryRule>) returns (mirrors: seq<QueryRule>)
    ensures |mirrors| <= 2 * |rules| && forall m | m in mirrors :: m.verbs == ["list"] && m.fieldSelector == ""
    ensures mirrors == RulesOf(Mirrors(parse, rules, |rules|))
  {
    hide Targets, PermitsListing, HasWildcard, Mirrors, Blocked, SourceName;
    mirrors := [];
    var blockedPods, blockedNodes := false, false;
    NoMirrors(parse, rules);
    var i := 0;
    while i < |rules|
      invariant 0 <= i <= |rules| && mirrors == RulesOf(Mirrors(parse, rules, i)) && |mirrors| <= 2 * i
      invariant forall m | m in mirrors :: m.verbs == ["list"] && m.fieldSelector == ""
      invariant blockedPods == Blocked(parse, rules, i, Pods) && blockedNodes == Blocked(parse, rules, i, Nodes)
    {
      var r := rules[i];
      BlockedNext(parse, rules, i, Pods);
      BlockedNext(parse, rules, i, Nodes);
      NextMirrors(parse, rules, i);
      hide RulesOf;
      if PermitsListing(r.verbs) {
        var hitPods, hitNodes := Targets(parse, r.resources, CoreOf(Pods)), Targets(parse, r.resources, CoreOf(Nodes));
        if r.fieldSelector != "" {
          blockedPods := blockedPods || hitPods;
          blockedNodes := blockedNodes || hitNodes;
        } else if !HasWildcard(r.resources) {
          if hitPods && !blockedPods {
            mirrors := mirrors + [MirrorOf(r, i, Pods)];
          }
          if hitNodes && !blockedNodes {
            mirrors := mirrors + [MirrorOf(r, i, Nodes)];
          }
        }
      }
      i := i + 1;
    }
  }

  lemma NoMirrors(parse: Parser, rules: seq<QueryRule>)
    ensures RulesOf(Mirrors(parse, rules, 0)) == []
    ensures forall k: Kind :: !Blocked(parse, rules, 0, k)
  {
  }

  lemma NextMirrors(parse: Parser, rules: seq<QueryRule>, i: nat)
    requires i < |rules|
    ensures var pods, nodes := Mirrored(parse, rules, i, Pods), Mirrored(parse, rules, i, Nodes);
            var before := RulesOf(Mirrors(parse, rules, i));
            RulesOf(Mirrors(parse, rules, i + 1))
            == if pods && nodes then before + [MirrorOf(rules[i], i, Pods)] + [MirrorOf(rules[i], i, Nodes)]
               else if pods then before + [MirrorOf(rules[i], i, Pods)]
               else if nodes then before + [MirrorOf(rules[i], i, Nodes)]
               else before
  {
    hide Mirrored, MirrorOf;
    RulesOfMore(Mirrors(parse, rules, i), MirrorsAt(parse, rules, i));
  }

  lemma BlockedNext(parse: Parser, rules: seq<QueryRule>, i: nat, k: Kind)
    requires i < |rules|
    ensures Blocked(parse, rules, i + 1, k) <==> Blocked(parse, rules, i, k) || Blocks(parse, rules[i], k)
  {
  }

  lemma RulesOfMore(a: seq<Mirror>, b: seq<Mirror>)
    ensures RulesOf(a + b) == RulesOf(a) + RulesOf(b)
    ensures |b| == 1 ==> RulesOf(b) == [b[0].rule]
    ensures |b| == 2 ==> RulesOf(b) == [b[0].rule] + [b[1].rule]
    ensures b == [] ==> RulesOf(a) + RulesOf(b) == RulesOf(a)
    ensures |b| == 2 ==> RulesOf(a) + RulesOf(b) == RulesOf(a) + [b[0].rule] + [b[1].rule]
  {
  }

  const DISCOVERY := QueryRule(DISCOVERY_RULE_ID, "", ["namespaces"], [], ["list", "get"], "", "")

  /** withNamespaceDiscovery. */
  function WithDiscovery(parse: Parser, rules: seq<QueryRule>): seq<QueryRule> {
    if exists r | r in rules :: Targets(parse, r.resources, CORE_NAMESPACES) then rules else rules + [DISCOVERY]
  }

  function Effective(parse: Parser, rules: seq<QueryRule>): seq<QueryRule> {
    WithDiscovery(parse, rules + RulesOf(Mirrors(parse, rules, |rules|)))
  }

  function Inherited(r: StateRule): QueryRule {
    QueryRule(r.id, r.ns, r.resources, [], [], r.labelSelector, r.fieldSelector)
  }

  function Owners(rules: seq<QueryRule>, state: seq<StateRule>): seq<QueryRule> {
    if rules != [] then rules else seq(|state|, i requires 0 <= i < |state| => Inherited(state[i]))
  }

  /** QueryRules: the owner's own, or collect.state's converted one by one; then what is appended. */
  method EffectiveRules(parse: Parser, rules: seq<QueryRule>, state: seq<StateRule>) returns (out: seq<QueryRule>)
    ensures out == Effective(parse, Owners(rules, state))
  {
    var base := rules;
    if |rules| == 0 {
      base := [];
      var i := 0;
      while i < |state|
        invariant 0 <= i <= |state| && base == Owners([], state[..i])
      {
        base := base + [Inherited(state[i])];
        i := i + 1;
      }
      assert state[..i] == state;
    }
    var mirrors := MetricsUsageRules(parse, base);
    return WithDiscovery(parse, base + mirrors);
  }

  // ---- Facts about the mirrors ----

  ghost predicate GoodMirror(parse: Parser, rules: seq<QueryRule>, m: Mirror) {
    && m.source < |rules| && Mirrored(parse, rules, m.source, m.kind)
    && m.rule == MirrorOf(rules[m.source], m.source, m.kind)
  }

  /** Every mirror comes from a rule that may be mirrored, and they stand in their sources' order. */
  ghost predicate GoodMirrors(parse: Parser, rules: seq<QueryRule>, ms: seq<Mirror>, n: nat) {
    && (forall p | 0 <= p < |ms| :: GoodMirror(parse, rules, ms[p]) && ms[p].source < n)
    && (forall p, q | 0 <= p < q < |ms| :: ms[p].source <= ms[q].source)
  }

  lemma {:induction false} MirrorsSound(parse: Parser, rules: seq<QueryRule>, n: nat)
    requires n <= |rules|
    ensures GoodMirrors(parse, rules, Mirrors(parse, rules, n), n)
  {
    hide GoodMirrors, GoodMirror, MirrorsAt;
    if n == 0 {
      assert GoodMirrors(parse, rules, [], 0) by { NoneGood(parse, rules); }
    } else {
      MirrorsSound(parse, rules, n - 1);
      MirrorsAtSound(parse, rules, n - 1);
      MoreGood(parse, rules, Mirrors(parse, rules, n - 1), MirrorsAt(parse, rules, n - 1), n - 1);
    }
  }

  lemma NoneGood(parse: Parser, rules: seq<QueryRule>)
    ensures GoodMirrors(parse, rules, [], 0)
  {
  }

  lemma MoreGood(parse: Parser, rules: seq<QueryRule>, before: seq<Mirror>, here: seq<Mirror>, i: nat)
    requires GoodMirrors(parse, rules, before, i)
    requires forall q | 0 <= q < |here| :: GoodMirror(parse, rules, here[q]) && here[q].source == i
    ensures GoodMirrors(parse, rules, before + here, i + 1)
  {
    hide GoodMirror;
  }

  lemma MirrorsAtSound(parse: Parser, rules: seq<QueryRule>, i: nat)
    requires i < |rules|
    ensures var here := MirrorsAt(parse, rules, i);
            forall q | 0 <= q < |here| :: GoodMirror(parse, rules, here[q]) && here[q].source == i
  {
    hide Mirrored, MirrorOf;
  }

  /** And every such rule has its mirror. */
  lemma {:induction false} MirrorsComplete(parse: Parser, rules: seq<QueryRule>, n: nat, i: nat,
      k: Kind) returns (p: nat)
    requires i < n <= |rules| && Mirrored(parse, rules, i, k)
    ensures p < |Mirrors(parse, rules, n)| && Mirrors(parse, rules, n)[p] == Mirror(MirrorOf(rules[i], i, k), i, k)
  {
    hide Mirrored, MirrorOf;
    var before := Mirrors(parse, rules, n - 1);
    var here := MirrorsAt(parse, rules, n - 1);
    if i < n - 1 {
      p := MirrorsComplete(parse, rules, n - 1, i, k);
      assert (before + here)[p] == before[p];
    } else {
      var q := if k.Pods? || |here| == 1 then 0 else 1;
      p := |before| + q;
      assert here[q] == Mirror(MirrorOf(rules[i], i, k), i, k);
      assert (before + here)[p] == here[q];
    }
  }

  lemma OnlyTarget(parse: Parser, name: string, got: Resource, want: Resource)
    requires TrimSpace(name) != "*" && parse(name) == Some(got)
    ensures Targets(parse, [name], want) <==> got == want
  {
    hide TrimSpace;
    assert name in [name];
  }

  lemma Apart(k: Kind, want: Kind)
    ensures MetricsOf(k) == MetricsOf(want) <==> k == want
    ensures MetricsOf(k) != CoreOf(want) && MetricsOf(k) != CORE_NAMESPACES && CoreOf(k) != CORE_NAMESPACES
  {
    assert |Plural(Pods)| == 4 && |Plural(Nodes)| == 5 && |CORE_NAMESPACES.name| == 10;
    assert |MetricsOf(k).group| != |CoreOf(want).group|;
  }

  /** A mirror answers a metrics LIST exactly of its own kind where its source's namespace reaches. */
  lemma MirrorAnswers(parse: Parser, r: QueryRule, i: nat, k: Kind, want: Kind, ns: string)
    requires Reads(parse)
    ensures Answers(parse, MirrorOf(r, i, k), MetricsOf(want), ns) <==> k == want && CoversNamespace(r.ns, ns)
    ensures !Answers(parse, MirrorOf(r, i, k), CoreOf(want), ns)
  {
    hide Targets, TrimSpace, CoversNamespace, MetricsName, MetricsOf, CoreOf;
    NotWildcard(k);
    OnlyTarget(parse, MetricsName(k), MetricsOf(k), MetricsOf(want));
    OnlyTarget(parse, MetricsName(k), MetricsOf(k), CoreOf(want));
    Apart(k, want);
    ListLowers();
  }

  lemma NotWildcard(k: Kind)
    ensures TrimSpace(MetricsName(k)) != "*"
  {
    var s := MetricsName(k);
    assert s[0] == 'm' && !IsSpace('m') && !IsSpace('s');
    assert s[|s| - 1] == 's';
    assert TrimLeft(s) == s;
    assert TrimRight(s) == s;
  }

  lemma ListLowers()
    ensures TrimSpace("list") == "list" && LowersToList("list") && "list" in ["list"]
  {
    assert !IsSpace('l') && !IsSpace('t');
  }

  lemma DiscoveryIsApart(parse: Parser, k: Kind, ns: string)
    requires Reads(parse)
    ensures !Answers(parse, DISCOVERY, MetricsOf(k), ns) && !Answers(parse, DISCOVERY, CoreOf(k), ns)
  {
    hide Targets, MetricsOf, CoreOf, CoversNamespace, AllowsList;
    var s := "namespaces";
    assert TrimSpace(s) != "*" by {
      assert !IsSpace('n') && !IsSpace('s');
      assert TrimLeft(s) == s && TrimRight(s) == s;
    }
    OnlyTarget(parse, s, CORE_NAMESPACES, MetricsOf(k));
    OnlyTarget(parse, s, CORE_NAMESPACES, CoreOf(k));
    Apart(k, k);
  }

  // ---- The laws ----

  lemma Layout(parse: Parser, rules: seq<QueryRule>, p: nat)
    requires p < |Effective(parse, rules)|
    ensures var ms := Mirrors(parse, rules, |rules|); var all := Effective(parse, rules);
            && |rules| + |ms| <= |all| <= |rules| + |ms| + 1
            && (p < |rules| ==> all[p] == rules[p])
            && (|rules| <= p < |rules| + |ms| ==> all[p] == ms[p - |rules|].rule)
            && (p == |rules| + |ms| ==> all[p] == DISCOVERY)
  {
    hide Mirrors, Targets;
  }

  /** A mirror is what answers the metrics LIST, as number p of the effective rules. */
  ghost predicate AnsweredByMirror(parse: Parser, rules: seq<QueryRule>, k: Kind, ns: string, p: nat) {
    && First(parse, Effective(parse, rules), MetricsOf(k), ns, 0) == Some(p)
    && |rules| <= p < |rules| + |Mirrors(parse, rules, |rules|)|
  }

  /** The mirror that answers is of a rule that may be mirrored, that reaches the namespace, and whose
      scope it carries. */
  lemma AnsweringMirror(parse: Parser, rules: seq<QueryRule>, k: Kind, ns: string, p: nat)
    requires Reads(parse) && AnsweredByMirror(parse, rules, k, ns, p)
    ensures var all, m := Effective(parse, rules), Mirrors(parse, rules, |rules|)[p - |rules|];
            && m.source < |rules| && m.kind == k && Mirrored(parse, rules, m.source, k) && p < |all|
            && all[p] == MirrorOf(rules[m.source], m.source, k) && CoversNamespace(rules[m.source].ns, ns)
            && (forall j | 0 <= j < |rules| :: all[j] == rules[j])
            && (forall j | 0 <= j < |rules| :: !Answers(parse, rules[j], MetricsOf(k), ns))
  {
    hide Mirrors, Effective, CoversNamespace, PermitsListing, AllowsList, Targets, Blocked, First, Mirrored, MirrorOf;
    var ms, all := Mirrors(parse, rules, |rules|), Effective(parse, rules);
    MirrorsSound(parse, rules, |rules|);
    var m := ms[p - |rules|];
    assert GoodMirror(parse, rules, m);
    Layout(parse, rules, p);
    MirrorAnswers(parse, rules[m.source], m.source, m.kind, k, ns);
    forall j | 0 <= j < |rules| ensures all[j] == rules[j] {
      Layout(parse, rules, j);
    }
  }

  /** Under an answering mirror, an earlier owner rule that answers the core LIST and that the
      mirroring reads as listing is impossible: it would block the mirror, answer the metrics LIST
      itself, or have an earlier mirror. */
  lemma NoEarlier(parse: Parser, rules: seq<QueryRule>, k: Kind, ns: string, p: nat, j: nat)
    requires Reads(parse) && AnsweredByMirror(parse, rules, k, ns, p)
    requires j < Mirrors(parse, rules, |rules|)[p - |rules|].source && j < |rules|
    ensures !(Answers(parse, rules[j], CoreOf(k), ns) && PermitsListing(rules[j].verbs))
  {
    hide First, Mirrors, MirrorOf, Effective, CoversNamespace, PermitsListing, AllowsList, Targets, HasWildcard, CoreOf,
         MetricsOf, Blocked, AnsweredByMirror, GoodMirrors;
    AnsweredWithin(parse, rules, k, ns, p);
    AnsweringMirror(parse, rules, k, ns, p);
    if Answers(parse, rules[j], CoreOf(k), ns) && PermitsListing(rules[j].verbs) {
      BlockedLater(parse, rules, j, Mirrors(parse, rules, |rules|)[p - |rules|].source, k);
      assert !Answers(parse, rules[j], MetricsOf(k), ns);
      WildcardTargets(parse, rules[j].resources, MetricsOf(k));
      assert Mirrored(parse, rules, j, k);
      var q := MirrorsComplete(parse, rules, |rules|, j, k);
      MirrorAnswers(parse, rules[j], j, k, k, ns);
      EarlierSilent(parse, rules, k, ns, p, q);
      assert false;
    }
  }

  lemma AnsweredWithin(parse: Parser, rules: seq<QueryRule>, k: Kind, ns: string, p: nat)
    requires AnsweredByMirror(parse, rules, k, ns, p)
    ensures |rules| <= p < |rules| + |Mirrors(parse, rules, |rules|)|
  {
    hide Mirrors, Effective, First;
  }

  lemma BlockedLater(parse: Parser, rules: seq<QueryRule>, j: nat, i: nat, k: Kind)
    requires j < i <= |rules| && !Blocked(parse, rules, i, k)
    ensures !Blocks(parse, rules[j], k) && !Blocked(parse, rules, j, k)
  {
    hide Blocks;
  }

  /** A mirror of an earlier source than the one that answers does not answer. */
  lemma EarlierSilent(parse: Parser, rules: seq<QueryRule>, k: Kind, ns: string, p: nat, q: nat)
    requires AnsweredByMirror(parse, rules, k, ns, p) && q < |Mirrors(parse, rules, |rules|)|
    requires Mirrors(parse, rules, |rules|)[q].source < Mirrors(parse, rules, |rules|)[p - |rules|].source
    ensures !Answers(parse, Mirrors(parse, rules, |rules|)[q].rule, MetricsOf(k), ns)
  {
    hide First, Mirrors, Effective, Answers, GoodMirror;
    MirrorsSound(parse, rules, |rules|);
    LayoutSize(parse, rules);
    Layout(parse, rules, |rules| + q);
  }

  /** No earlier rule for the resource that reaches the namespace is one that only the policy reads
      as listing. */
  ghost predicate ReadAlikeBefore(parse: Parser, rules: seq<QueryRule>, k: Kind, ns: string, i: nat)
    requires i <= |rules|
  {
    forall j | 0 <= j < i && Answers(parse, rules[j], CoreOf(k), ns) :: PermitsListing(rules[j].verbs)
  }

  /** When a mirror answers a metrics LIST in a namespace it carries its source's namespace, names and
      label selector, and no field selector. The rule that answers the object LIST there is exactly
      that source, so that mirroring widens nothing, if and only if the policy too reads the source
      as listing and no earlier rule for the resource there is one only the policy reads so. */
  lemma MirrorLaw(parse: Parser, rules: seq<QueryRule>, k: Kind, ns: string, p: nat)
    requires Reads(parse) && AnsweredByMirror(parse, rules, k, ns, p)
    ensures var all, i := Effective(parse, rules), Mirrors(parse, rules, |rules|)[p - |rules|].source;
            && i < |rules| && p < |all| && all[i] == rules[i]
            && rules[i].fieldSelector == "" == all[p].fieldSelector
            && all[p].ns == rules[i].ns && all[p].names == rules[i].names
            && all[p].labelSelector == rules[i].labelSelector
            && (First(parse, all, CoreOf(k), ns, 0) == Some(i)
                <==> AllowsList(rules[i].verbs) && ReadAlikeBefore(parse, rules, k, ns, i))
  {
    hide Mirrors, Effective, CoversNamespace, PermitsListing, AllowsList, Targets, Blocked;
    var all := Effective(parse, rules);
    AnsweringMirror(parse, rules, k, ns, p);
    var i := Mirrors(parse, rules, |rules|)[p - |rules|].source;
    assert Answers(parse, rules[i], CoreOf(k), ns) <==> AllowsList(rules[i].verbs);
    forall j | 0 <= j < i && Answers(parse, all[j], CoreOf(k), ns) ensures !PermitsListing(rules[j].verbs) {
      NoEarlier(parse, rules, k, ns, p, j);
    }
  }

  /** Exactly when a mirror answers, for rules the validation lets through: no owner rule answers the
      metrics LIST itself, and some rule that lists the object there has no field selector and no rule
      with one before it. */
  lemma MirrorIff(parse: Parser, rules: seq<QueryRule>, k: Kind, ns: string)
    requires Reads(parse) && Validated(rules)
    ensures var hit := First(parse, Effective(parse, rules), MetricsOf(k), ns, 0);
            (hit.Some? && AnsweredByMirror(parse, rules, k, ns, hit.value))
            <==> && First(parse, rules, MetricsOf(k), ns, 0).None?
                 && exists i | 0 <= i < |rules| :: Unblocked(parse, rules, k, ns, i)
  {
    hide Mirrors, Effective, CoversNamespace, PermitsListing, AllowsList, Targets, First;
    var hit := First(parse, Effective(parse, rules), MetricsOf(k), ns, 0);
    if hit.Some? && AnsweredByMirror(parse, rules, k, ns, hit.value) {
      AnsweringMirror(parse, rules, k, ns, hit.value);
      var i := Mirrors(parse, rules, |rules|)[hit.value - |rules|].source;
      assert Unblocked(parse, rules, k, ns, i);
    }
    if First(parse, rules, MetricsOf(k), ns, 0).None? {
      if i :| 0 <= i < |rules| && Unblocked(parse, rules, k, ns, i) {
        OwnHasMirror(parse, rules, k, ns, i);
      }
    }
  }

  /** Rule i lists the object in the namespace, as the mirroring reads it, with no field selector of
      its own nor of an earlier rule for the resource. */
  ghost predicate Unblocked(parse: Parser, rules: seq<QueryRule>, k: Kind, ns: string, i: nat)
    requires i < |rules|
  {
    && PermitsListing(rules[i].verbs) && Targets(parse, rules[i].resources, CoreOf(k))
    && CoversNamespace(rules[i].ns, ns)
    && rules[i].fieldSelector == "" && !Blocked(parse, rules, i, k)
  }

  lemma OwnHasMirror(parse: Parser, rules: seq<QueryRule>, k: Kind, ns: string, i: nat)
    requires Reads(parse) && Validated(rules) && i < |rules| && Unblocked(parse, rules, k, ns, i)
    requires First(parse, rules, MetricsOf(k), ns, 0).None?
    ensures var hit := First(parse, Effective(parse, rules), MetricsOf(k), ns, 0);
            hit.Some? && AnsweredByMirror(parse, rules, k, ns, hit.value)
  {
    hide Mirrors, Effective, CoversNamespace, PermitsListing, AllowsList, Blocked, Targets, HasWildcard, First,
         MirrorOf, MetricsOf, CoreOf, Validated;
    var all := Effective(parse, rules);
    assert rules[i] in rules;
    ValidListing(rules, rules[i]);
    assert !HasWildcard(rules[i].resources) by { WildcardTargets(parse, rules[i].resources, MetricsOf(k)); }
    var q := MirrorsComplete(parse, rules, |rules|, i, k);
    MirrorAnswers(parse, rules[i], i, k, k, ns);
    LayoutSize(parse, rules);
    Layout(parse, rules, |rules| + q);
    var hit := First(parse, all, MetricsOf(k), ns, 0);
    assert hit.Some? && hit.value <= |rules| + q;
    if hit.value < |rules| {
      Layout(parse, rules, hit.value);
      assert false;
    }
  }

  lemma WildcardTargets(parse: Parser, resources: seq<string>, want: Resource)
    ensures HasWildcard(resources) ==> Targets(parse, resources, want)
  {
  }

  lemma LayoutSize(parse: Parser, rules: seq<QueryRule>)
    ensures |rules| + |Mirrors(parse, rules, |rules|)| <= |Effective(parse, rules)|
  {
  }

  // ---- Verbs ----

  lemma {:induction false} TrimmedPart(s: string, c: char)
    ensures c in TrimLeft(s) ==> c in s
    decreases |s|
  {
    if s != "" && IsSpace(s[0]) {
      TrimmedPart(s[1..], c);
    }
  }

  lemma {:induction false} TrimmedRightPart(s: string, c: char)
    ensures c in TrimRight(s) ==> c in s
    decreases |s|
  {
    if s != "" && IsSpace(s[|s| - 1]) {
      TrimmedRightPart(s[..|s| - 1], c);
    }
  }

  /** A verb the validation lets through. */
  predicate ValidVerb(v: string) {
    LowersToList(TrimSpace(v)) || LowersToGet(TrimSpace(v))
  }

  /** Every verb is list or get once trimmed and lower-cased: no policy is compiled otherwise. */
  predicate Validated(rules: seq<QueryRule>) {
    forall r, v | r in rules && v in r.verbs :: ValidVerb(v)
  }

  /** Under the validation, whatever the mirroring reads as listing the policy reads so too. */
  lemma ValidListing(rules: seq<QueryRule>, r: QueryRule)
    requires Validated(rules) && r in rules && PermitsListing(r.verbs)
    ensures AllowsList(r.verbs)
  {
    hide TrimSpace;
    if r.verbs != [] {
      var v :| v in r.verbs && FoldsToList(TrimSpace(v));
      assert ValidVerb(v);
    }
  }

  /** Without a dotted capital I in a valid verb both read it alike. */
  lemma PlainListing(rules: seq<QueryRule>, r: QueryRule)
    requires Validated(rules) && r in rules && AllowsList(r.verbs)
    requires forall v | v in r.verbs :: '\U{0130}' !in v
    ensures PermitsListing(r.verbs)
  {
    hide TrimLeft, TrimRight;
    if r.verbs != [] {
      var v :| v in r.verbs && LowersToList(TrimSpace(v));
      var s := TrimSpace(v);
      forall c: char ensures c in s ==> c in v {
        TrimmedPart(v, c);
        TrimmedRightPart(TrimLeft(v), c);
      }
      assert s[1] in s;
      ReadingsDifferIff(s);
    }
  }

  /** Mirroring never widens, outright, for valid rules whose verbs hold no dotted capital I: the rule
      that answers the object LIST is the source of the mirror that answers the metrics LIST. */
  lemma NeverWidens(parse: Parser, rules: seq<QueryRule>, k: Kind, ns: string, p: nat)
    requires Reads(parse) && AnsweredByMirror(parse, rules, k, ns, p)
    requires Validated(rules) && forall r, v | r in rules && v in r.verbs :: '\U{0130}' !in v
    ensures First(parse, Effective(parse, rules), CoreOf(k), ns, 0)
            == Some(Mirrors(parse, rules, |rules|)[p - |rules|].source)
  {
    hide Mirrors, Effective, CoversNamespace, PermitsListing, AllowsList, Targets, Blocked, First, Validated;
    MirrorLaw(parse, rules, k, ns, p);
    AnsweringMirror(parse, rules, k, ns, p);
    var i := Mirrors(parse, rules, |rules|)[p - |rules|].source;
    assert rules[i] in rules;
    ValidListing(rules, rules[i]);
    forall j | 0 <= j < i && Answers(parse, rules[j], CoreOf(k), ns) ensures PermitsListing(rules[j].verbs) {
      assert rules[j] in rules;
      PlainListing(rules, rules[j]);
    }
  }

  /** A rule for nothing but pods. */
  function PodsRule(verbs: seq<string>, fieldSelector: string): QueryRule {
    QueryRule("", "", ["pods"], [], verbs, "", fieldSelector)
  }

  lemma PodsOnly(parse: Parser, verbs: seq<string>, fieldSelector: string, ns: string)
    requires Reads(parse) && parse("pods") == Some(CoreOf(Pods))
    ensures var r := PodsRule(verbs, fieldSelector);
            && !HasWildcard(r.resources) && Targets(parse, r.resources, CoreOf(Pods))
            && !Targets(parse, r.resources, CoreOf(Nodes))
            && !Answers(parse, r, MetricsOf(Pods), ns) && (Answers(parse, r, CoreOf(Pods), ns) <==> AllowsList(verbs))
  {
    hide Targets, MetricsOf, CoreOf, AllowsList;
    assert TrimSpace("pods") == "pods" by { assert !IsSpace('p') && !IsSpace('s'); }
    OnlyTarget(parse, "pods", CoreOf(Pods), CoreOf(Pods));
    OnlyTarget(parse, "pods", CoreOf(Pods), CoreOf(Nodes));
    OnlyTarget(parse, "pods", CoreOf(Pods), MetricsOf(Pods));
    Apart(Pods, Pods);
    CoresDiffer();
  }

  /** In a list of such rules of which only the last is mirrored, that mirror answers the metrics LIST. */
  lemma LastMirrorAnswers(parse: Parser, rules: seq<QueryRule>, ns: string)
    requires Reads(parse) && parse("pods") == Some(CoreOf(Pods)) && rules != []
    requires forall r | r in rules :: r == PodsRule(r.verbs, r.fieldSelector)
    requires Mirrored(parse, rules, |rules| - 1, Pods)
    requires forall i, k | 0 <= i < |rules| - 1 :: !Mirrored(parse, rules, i, k)
    ensures |Mirrors(parse, rules, |rules|)| > 0 && Mirrors(parse, rules, |rules|)[0].source == |rules| - 1
    ensures First(parse, Effective(parse, rules), MetricsOf(Pods), ns, 0) == Some(|rules|)
  {
    hide First, Mirrors, MirrorOf, Effective, PermitsListing, AllowsList, Targets, HasWildcard, CoreOf, MetricsOf,
         CoversNamespace;
    var n := |rules|;
    var ms, all := Mirrors(parse, rules, n), Effective(parse, rules);
    var p := MirrorsComplete(parse, rules, n, n - 1, Pods);
    MirrorsSound(parse, rules, n);
    assert GoodMirror(parse, rules, ms[0]);
    var m := ms[0];
    assert rules[m.source] in rules;
    PodsOnly(parse, rules[m.source].verbs, rules[m.source].fieldSelector, ns);
    assert m.source == n - 1 && m.kind == Pods;
    MirrorAnswers(parse, rules[n - 1], n - 1, Pods, Pods, ns);
    assert CoversNamespace("", ns) by { CoversAll(ns); }
    LayoutSize(parse, rules);
    Layout(parse, rules, n);
    forall j | 0 <= j < n ensures !Answers(parse, all[j], MetricsOf(Pods), ns) {
      Layout(parse, rules, j);
      assert rules[j] in rules;
      PodsOnly(parse, rules[j].verbs, rules[j].fieldSelector, ns);
    }
  }

  lemma CoversAll(ns: string)
    ensures CoversNamespace("", ns)
  {
  }

  /** Verbs that only the policy reads as list break it: a rule with them answers the pods LIST under
      its field selector, while the mirror of the next rule answers the metrics LIST without one. */
  lemma PolicyReadsMore(parse: Parser, verbs: seq<string>, ns: string)
    requires Reads(parse) && parse("pods") == Some(CoreOf(Pods))
    requires AllowsList(verbs) && !PermitsListing(verbs)
    ensures var rules := [PodsRule(verbs, "spec.nodeName=n"), PodsRule([], "")];
            && AnsweredByMirror(parse, rules, Pods, ns, 2) && Mirrors(parse, rules, 2)[0].source == 1
            && First(parse, Effective(parse, rules), CoreOf(Pods), ns, 0) == Some(0)
  {
    hide Mirrors, MirrorOf, Effective, AllowsList, Targets, HasWildcard, CoreOf, MetricsOf, CoversNamespace;
    var rules := [PodsRule(verbs, "spec.nodeName=n"), PodsRule([], "")];
    PodsOnly(parse, verbs, "spec.nodeName=n", ns);
    PodsOnly(parse, [], "", ns);
    assert !Blocks(parse, rules[0], Pods);
    LastMirrorAnswers(parse, rules, ns);
    LayoutSize(parse, rules);
    Layout(parse, rules, 0);
  }

  /** A verb the validation lets through that does so: list with a dotted capital I. */
  lemma DottedVerbWidens(parse: Parser, ns: string)
    requires Reads(parse) && parse("pods") == Some(CoreOf(Pods))
    ensures var rules := [PodsRule(["l\U{0130}st"], "spec.nodeName=n"), PodsRule([], "")];
            && Validated(rules)
            && AnsweredByMirror(parse, rules, Pods, ns, 2) && Mirrors(parse, rules, 2)[0].source == 1
            && First(parse, Effective(parse, rules), CoreOf(Pods), ns, 0) == Some(0)
  {
    hide Mirrors, Effective, First, CoreOf, MetricsOf, AnsweredByMirror, Reads;
    var v := "l\U{0130}st";
    assert TrimSpace(v) == v by { assert !IsSpace('l') && !IsSpace('t'); }
    assert v in [v] && AllowsList([v]) && !PermitsListing([v]);
    PolicyReadsMore(parse, [v], ns);
  }

  lemma CoresDiffer()
    ensures CoreOf(Pods) != CoreOf(Nodes)
  {
    assert |Plural(Pods)| == 4 && |Plural(Nodes)| == 5;
  }
}
