/**
 Policies, the objects they target, how a lookup selects them level by level, the order
 within a level, and the plan of merges that a lookup follows.
 */
module Policies {
  import opened Common
  import opened Json

  const GATEWAY_GROUP := "gateway.networking.k8s.io"
  const CLASS_KIND := "GatewayClass"
  const NAMESPACE_KIND := "Namespace"
  const GATEWAY_KIND := "Gateway"

  datatype TargetRef = TargetRef(group: string, kind: string, name: string, namespace: Option<string>)

  /** The raw `default` or `override` field of a policy, as decoding it turns out. */
  datatype Source = NoValues | Malformed | Values(doc: Document)

  datatype Spec = Spec(target: TargetRef, dflt: Source, over: Source)

  datatype Policy =
    | GatewayClassConfig(namespace: string, name: string, created: int, spec: Spec)
    | GatewayConfig(namespace: string, name: string, created: int, spec: Spec)

  /** `content` is the rest of the object: listeners, status, annotations. */
  datatype Gateway = Gateway(namespace: string, name: string, className: string, content: string)

  datatype Blueprint = Blueprint(dflt: Source, over: Source)

  // ----- Selection

  /** Least specific first. */
  datatype Level = GlobalClass | LocalNamespace | LocalClass | ConfigNamespace | ConfigGateway

  const LEVEL_COUNT := 5

  function LevelAt(i: nat): Level
    requires i < LEVEL_COUNT
  {
    if i == 0 then GlobalClass
    else if i == 1 then LocalNamespace
    else if i == 2 then LocalClass
    else if i == 3 then ConfigNamespace
    else ConfigGateway
  }

  predicate TargetsClass(t: TargetRef, className: string) {
    t.kind == CLASS_KIND && t.group == GATEWAY_GROUP && t.name == className
  }

  predicate TargetsNamespace(t: TargetRef, namespace: string) {
    t.kind == NAMESPACE_KIND && t.group == "" && t.name == namespace
  }

  predicate TargetsGateway(t: TargetRef, g: Gateway) {
    && t.kind == GATEWAY_KIND && t.group == GATEWAY_GROUP
    && (t.namespace == None || t.namespace == Some(g.namespace))
    && t.name == g.name
  }

  /** The condition a listed policy has to meet at a level. */
  predicate Matches(p: Policy, l: Level, g: Gateway) {
    match l
    case GlobalClass => TargetsClass(p.spec.target, g.className)
    case LocalNamespace => TargetsNamespace(p.spec.target, g.namespace)
    case LocalClass => TargetsClass(p.spec.target, g.className)
    case ConfigNamespace => TargetsNamespace(p.spec.target, g.namespace)
    case ConfigGateway => TargetsGateway(p.spec.target, g)
  }

  /** Listing with an empty namespace option lists every namespace. */
  predicate InNamespace(namespace: string, option: string) {
    option == "" || namespace == option
  }

  /** Whether the list call that feeds level `l` returns `p`. */
  predicate Listed(p: Policy, l: Level, g: Gateway, controllerNamespace: string) {
    match l
    case GlobalClass => p.GatewayClassConfig? && InNamespace(p.namespace, controllerNamespace)
    case LocalNamespace => p.GatewayClassConfig? && InNamespace(p.namespace, g.namespace)
    case LocalClass => p.GatewayClassConfig? && InNamespace(p.namespace, g.namespace)
    case ConfigNamespace => p.GatewayConfig? && InNamespace(p.namespace, g.namespace)
    case ConfigGateway => p.GatewayConfig? && InNamespace(p.namespace, g.namespace)
  }

  predicate SelectedAt(p: Policy, l: Level, g: Gateway, controllerNamespace: string) {
    Listed(p, l, g, controllerNamespace) && Matches(p, l, g)
  }

  /** `p` takes part in the values of `g`. */
  predicate Selected(p: Policy, g: Gateway, controllerNamespace: string) {
    exists l: Level :: SelectedAt(p, l, g, controllerNamespace)
  }

  function Select(items: seq<Policy>, l: Level, g: Gateway): (r: seq<Policy>)
    ensures forall p :: p in r <==> p in items && Matches(p, l, g)
  {
    if items == [] then []
    else SelectOne(items[0], l, g) + Select(items[1..], l, g)
  }

  function SelectOne(p: Policy, l: Level, g: Gateway): seq<Policy> {
    if Matches(p, l, g) then [p] else []
  }

  // ----- Order within a level

  predicate StringLess(s: string, t: string) {
    if t == "" then false
    else if s == "" then true
    else if s[0] != t[0] then s[0] < t[0]
    else StringLess(s[1..], t[1..])
  }

  function SortName(p: Policy): string {
    p.namespace + "/" + p.name
  }

  /** Older policies first, then alphabetically. */
  predicate Older(p: Policy, q: Policy) {
    if p.created != q.created then p.created < q.created
    else StringLess(SortName(p), SortName(q))
  }

  lemma {:induction false} StringLessTrichotomy(s: string, t: string)
    ensures s != t ==> (StringLess(s, t) <==> !StringLess(t, s))
    ensures !StringLess(s, s)
  {
    if s != "" {
      StringLessTrichotomy(s[1..], if t == "" then "" else t[1..]);
      if t != "" && s[0] == t[0] && s[1..] == t[1..] {
        assert s == [s[0]] + s[1..] == t;
      }
    }
  }

  lemma {:induction false} StringLessTransitive(s: string, t: string, u: string)
    requires StringLess(s, t) && StringLess(t, u)
    ensures StringLess(s, u)
  {
    if s != "" && s[0] == t[0] == u[0] {
      StringLessTransitive(s[1..], t[1..], u[1..]);
    }
  }

  lemma {:induction false} StringLessPrefixed(pre: string, s: string, t: string)
    ensures StringLess(pre + s, pre + t) <==> StringLess(s, t)
  {
    if pre == "" {
      assert pre + s == s && pre + t == t;
    } else {
      assert (pre + s)[1..] == pre[1..] + s && (pre + t)[1..] == pre[1..] + t;
      StringLessPrefixed(pre[1..], s, t);
    }
  }

  /** Within one namespace: by age, and by name within one age. */
  lemma OlderInNamespace(p: Policy, q: Policy)
    requires p.namespace == q.namespace
    ensures Older(p, q) <==> p.created < q.created || (p.created == q.created && StringLess(p.name, q.name))
  {
    var pre := p.namespace + "/";
    assert SortName(p) == pre + p.name && SortName(q) == pre + q.name;
    StringLessPrefixed(pre, p.name, q.name);
  }

  /** On policies with different sort names, `Older` is a strict total order. */
  lemma OlderTotalOrder(p: Policy, q: Policy, r: Policy)
    ensures !Older(p, p)
    ensures SortName(p) != SortName(q) ==> (Older(p, q) <==> !Older(q, p))
    ensures Older(p, q) && Older(q, r) ==> Older(p, r)
  {
    StringLessTrichotomy(SortName(p), SortName(q));
    if Older(p, q) && Older(q, r) && p.created == q.created == r.created {
      StringLessTransitive(SortName(p), SortName(q), SortName(r));
    }
  }

  /** Stable sorting: equals keep their order. */
  function Sort(s: seq<Policy>): (r: seq<Policy>)
    ensures multiset(r) == multiset(s)
  {
    if s == [] then []
    else
      assert s == [s[0]] + s[1..];
      Insert(s[0], Sort(s[1..]))
  }

  function Insert(p: Policy, s: seq<Policy>): (r: seq<Policy>)
    ensures multiset(r) == multiset{p} + multiset(s)
  {
    if s == [] then [p]
    else
      assert s == [s[0]] + s[1..];
      if Older(s[0], p) then [s[0]] + Insert(p, s[1..]) else [p] + s
  }

  ghost predicate Ascending(s: seq<Policy>) {
    forall i, j :: 0 <= i < j < |s| ==> Older(s[i], s[j])
  }

  /** No two of the listed objects share a namespace and name. */
  ghost predicate DistinctNames(s: seq<Policy>) {
    forall i, j :: 0 <= i < j < |s| ==> SortName(s[i]) != SortName(s[j])
  }

  lemma {:induction false} InsertAscending(p: Policy, s: seq<Policy>)
    requires Ascending(s)
    requires forall q :: q in s ==> SortName(q) != SortName(p)
    ensures Ascending(Insert(p, s))
  {
    if s == [] {
    } else {
      if Older(s[0], p) {
        InsertAscending(p, s[1..]);
        forall q | q in Insert(p, s[1..]) ensures Older(s[0], q) {
          assert q in multiset(Insert(p, s[1..]));
        }
        AscendingCons(s[0], Insert(p, s[1..]));
      } else {
        forall q | q in s ensures Older(p, q) {
          OlderTotalOrder(s[0], p, p);
          OlderTotalOrder(p, s[0], q);
        }
        AscendingCons(p, s);
      }
    }
  }

  lemma AscendingCons(p: Policy, s: seq<Policy>)
    requires Ascending(s) && forall q :: q in s ==> Older(p, q)
    ensures Ascending([p] + s)
  {}

  lemma {:induction false} SortAscending(s: seq<Policy>)
    requires DistinctNames(s)
    ensures Ascending(Sort(s))
  {
    if s == [] {
    } else {
      SortAscending(s[1..]);
      forall q | q in Sort(s[1..]) ensures SortName(q) != SortName(s[0]) {
        assert q in multiset(Sort(s[1..]));
      }
      InsertAscending(s[0], Sort(s[1..]));
    }
  }

  /** Position `i` is the first where `s` and `t` differ, and `s` is smaller there. */
  predicate FirstSmaller(s: string, t: string, i: nat) {
    i < |s| && i < |t| && s[..i] == t[..i] && s[i] < t[i]
  }

  lemma FirstSmallerNext(s: string, t: string, i: nat)
    requires s != "" && t != "" && s[0] == t[0]
    ensures FirstSmaller(s, t, i + 1) <==> FirstSmaller(s[1..], t[1..], i)
  {
    if i < |s| - 1 && i < |t| - 1 {
      assert s[..i + 1] == [s[0]] + s[1..][..i] && t[..i + 1] == [t[0]] + t[1..][..i];
      assert s[1..][..i] == s[..i + 1][1..] && t[1..][..i] == t[..i + 1][1..];
    }
  }

  lemma PrefixNext(s: string, t: string)
    requires s != "" && t != "" && s[0] == t[0]
    ensures s < t <==> s[1..] < t[1..]
  {
    assert s == [s[0]] + s[1..] && t == [t[0]] + t[1..];
    if s[1..] < t[1..] {
      assert forall i :: 0 <= i < |s| ==> s[i] == t[i];
    }
  }

  /** `StringLess` is the order of the dictionary: a proper prefix, or smaller where they first differ. */
  lemma {:induction false} StringLessIsLexicographic(s: string, t: string)
    ensures StringLess(s, t) <==> (s < t) || exists i: nat :: FirstSmaller(s, t, i)
  {
    if s != "" && t != "" {
      if s[0] == t[0] {
        StringLessIsLexicographic(s[1..], t[1..]);
        PrefixNext(s, t);
        SomeSmallerNext(s, t);
      } else {
        HeadDecides(s, t);
      }
    }
  }

  lemma SomeSmallerNext(s: string, t: string)
    requires s != "" && t != "" && s[0] == t[0]
    ensures (exists i: nat :: FirstSmaller(s, t, i)) <==> exists i: nat :: FirstSmaller(s[1..], t[1..], i)
  {
    if i: nat :| FirstSmaller(s, t, i) {
      FirstSmallerNext(s, t, i - 1);
    }
    if i: nat :| FirstSmaller(s[1..], t[1..], i) {
      FirstSmallerNext(s, t, i);
    }
  }

  lemma HeadDecides(s: string, t: string)
    requires s != "" && t != "" && s[0] != t[0]
    ensures s[0] < t[0] <==> exists i: nat :: FirstSmaller(s, t, i)
    ensures !(s < t)
  {
    assert s[0] < t[0] ==> FirstSmaller(s, t, 0);
    forall i: nat ensures FirstSmaller(s, t, i) ==> i == 0 {
      assert 0 < i <= |s| && i <= |t| ==> s[..i][0] != t[..i][0];
    }
  }

  /** A sorted group has the policies of the list, oldest first, and those of one age by name. */
  lemma SortOldestFirst(s: seq<Policy>)
    requires DistinctNames(s)
    ensures multiset(Sort(s)) == multiset(s)
    ensures forall i, j :: 0 <= i < j < |Sort(s)| ==>
              && Sort(s)[i].created <= Sort(s)[j].created
              && (Sort(s)[i].created == Sort(s)[j].created ==> StringLess(SortName(Sort(s)[i]), SortName(Sort(s)[j])))
  {
    SortAscending(s);
  }

  lemma EmptyOrMember(t: seq<Policy>)
    ensures t == [] || exists p :: p in t
  {
    if t != [] {
      assert t[0] in t;
    }
  }

  /** A strictly ascending sequence is determined by its elements. */
  lemma {:induction false} AscendingUnique(s: seq<Policy>, t: seq<Policy>)
    requires Ascending(s) && Ascending(t)
    requires forall p :: p in s <==> p in t
    ensures s == t
  {
    if s == [] {
      EmptyOrMember(t);
    } else {
      assert s[0] in t && t != [];
      if s[0] != t[0] {
        assert t[0] in s;
        OlderTotalOrder(s[0], t[0], s[0]);
      }
      forall p | p in s[1..] ensures p in t[1..] {
        assert p in t;
        OlderTotalOrder(s[0], s[0], p);
      }
      forall p | p in t[1..] ensures p in s[1..] {
        assert p in s;
        OlderTotalOrder(t[0], t[0], p);
      }
      AscendingUnique(s[1..], t[1..]);
    }
  }

  /** The sorted group depends only on which policies were listed, not on the order of the list. */
  lemma SortedGroupUnique(items: seq<Policy>, items': seq<Policy>, l: Level, g: Gateway, l': Level)
    requires DistinctNames(items) && DistinctNames(items')
    requires forall p :: p in items && Matches(p, l, g) <==> p in items' && Matches(p, l', g)
    ensures Sort(Select(items, l, g)) == Sort(Select(items', l', g))
  {
    var s, t := Select(items, l, g), Select(items', l', g);
    SelectDistinct(items, l, g);
    SelectDistinct(items', l', g);
    SortAscending(s);
    SortAscending(t);
    forall p ensures p in Sort(s) <==> p in Sort(t) {
      assert p in Sort(s) <==> p in multiset(Sort(s));
      assert p in Sort(t) <==> p in multiset(Sort(t));
      assert p in s <==> p in t;
    }
    AscendingUnique(Sort(s), Sort(t));
  }

  lemma {:induction false} SelectDistinct(items: seq<Policy>, l: Level, g: Gateway)
    requires DistinctNames(items)
    ensures DistinctNames(Select(items, l, g))
  {
    if items == [] {
    } else {
      SelectDistinct(items[1..], l, g);
      forall q | q in Select(items[1..], l, g) ensures SortName(q) != SortName(items[0]) {
        assert q in items[1..];
      }
    }
  }

  // ----- The plan of a lookup

  /** The three list results that a lookup works from. */
  datatype Lists = Lists(globalClass: seq<Policy>, localClass: seq<Policy>, localGateway: seq<Policy>)

  function ListFor(ls: Lists, l: Level): seq<Policy> {
    match l
    case GlobalClass => ls.globalClass
    case LocalNamespace => ls.localClass
    case LocalClass => ls.localClass
    case ConfigNamespace => ls.localGateway
    case ConfigGateway => ls.localGateway
  }

  function Group(ls: Lists, l: Level, g: Gateway): seq<Policy> {
    Sort(Select(ListFor(ls, l), l, g))
  }

  function Groups(ls: Lists, g: Gateway): (r: seq<seq<Policy>>)
    ensures |r| == LEVEL_COUNT
  {
    seq(LEVEL_COUNT, i requires 0 <= i < LEVEL_COUNT => Group(ls, LevelAt(i), g))
  }

  lemma GroupsAt(ls: Lists, g: Gateway, i: nat, l: Level)
    requires i < LEVEL_COUNT && l == LevelAt(i)
    ensures Groups(ls, g)[i] == Group(ls, l, g)
  {}

  /** All selected policies, level by level and sorted within a level. */
  function Hierarchy(ls: Lists, g: Gateway): seq<Policy> {
    Flatten(Groups(ls, g))
  }

  /** The hierarchy, spelt out: class configs, least specific level first, then gateway configs. */
  lemma HierarchyIs(ls: Lists, g: Gateway)
    ensures Hierarchy(ls, g)
         == Group(ls, GlobalClass, g) + Group(ls, LocalNamespace, g) + Group(ls, LocalClass, g)
            + (Group(ls, ConfigNamespace, g) + Group(ls, ConfigGateway, g))
  {
    FlattenFive(Groups(ls, g));
    GroupsAt(ls, g, 0, GlobalClass);
    GroupsAt(ls, g, 1, LocalNamespace);
    GroupsAt(ls, g, 2, LocalClass);
    GroupsAt(ls, g, 3, ConfigNamespace);
    GroupsAt(ls, g, 4, ConfigGateway);
  }

  lemma FlattenFive(gs: seq<seq<Policy>>)
    requires |gs| == 5
    ensures Flatten(gs) == gs[0] + gs[1] + gs[2] + (gs[3] + gs[4])
  {
    FlattenFrom(gs, 0);
    FlattenFrom(gs, 1);
    FlattenFrom(gs, 2);
    FlattenFrom(gs, 3);
    FlattenFrom(gs, 4);
    assert gs[0..] == gs && gs[5..] == [];
    Regroup(gs[0], gs[1], gs[2], gs[3], gs[4]);
  }

  lemma Regroup(a: seq<Policy>, b: seq<Policy>, c: seq<Policy>, d: seq<Policy>, e: seq<Policy>)
    ensures a + (b + (c + (d + (e + [])))) == a + b + c + (d + e)
  {
    assert d + (e + []) == d + e;
    assert a + (b + (c + (d + e))) == a + b + c + (d + e);
  }

  lemma FlattenFrom(gs: seq<seq<Policy>>, i: nat)
    requires i < |gs|
    ensures Flatten(gs[i..]) == gs[i] + Flatten(gs[i + 1..])
  {
    assert gs[i..][1..] == gs[i + 1..];
  }

  /** No list names the same object twice. */
  ghost predicate WellListed(ls: Lists) {
    DistinctNames(ls.globalClass) && DistinctNames(ls.localClass) && DistinctNames(ls.localGateway)
  }

  /** Who is named when a source cannot be decoded. */
  datatype Origin = BlueprintDefault | FromPolicy(name: string) | BlueprintOverride

  datatype Step = Step(origin: Origin, source: Source)

  function Defaults(ps: seq<Policy>): (r: seq<Step>)
    ensures |r| == |ps|
    ensures forall i :: 0 <= i < |ps| ==> r[i] == Step(FromPolicy(ps[i].name), ps[i].spec.dflt)
  {
    seq(|ps|, i requires 0 <= i < |ps| => Step(FromPolicy(ps[i].name), ps[i].spec.dflt))
  }

  function Overrides(ps: seq<Policy>): (r: seq<Step>)
    ensures |r| == |ps|
    ensures forall i :: 0 <= i < |ps| ==> r[i] == Step(FromPolicy(ps[i].name), ps[i].spec.over)
  {
    seq(|ps|, i requires 0 <= i < |ps| => Step(FromPolicy(ps[i].name), ps[i].spec.over))
  }

  lemma StepsConcat(s: seq<Policy>, t: seq<Policy>)
    ensures Defaults(s + t) == Defaults(s) + Defaults(t)
    ensures Overrides(s + t) == Overrides(s) + Overrides(t)
  {}

  /** Defaults of `down` in order, then overrides of `up` in reverse, inside those of the blueprint. */
  function Plan(bp: Blueprint, down: seq<Policy>, up: seq<Policy>): seq<Step> {
    [Step(BlueprintDefault, bp.dflt)] + Defaults(down)
    + (Reverse(Overrides(up)) + [Step(BlueprintOverride, bp.over)])
  }

  datatype Result = Ok(values: Json) | Failed(origin: Origin)

  /** Merge the sources of `steps` into `values`, stopping at the first that cannot be decoded. */
  function Run(values: Json, steps: seq<Step>): Result
    decreases |steps|
  {
    if steps == [] then Ok(values)
    else
      match steps[0].source
      case NoValues => Run(values, steps[1..])
      case Malformed => Failed(steps[0].origin)
      case Values(doc) => Run(Merge(values, Map(doc)), steps[1..])
  }

  /** What a lookup returns: the plan over the hierarchy, run from the empty document. */
  function LookupResult(bp: Blueprint, ls: Lists, g: Gateway): Result {
    var h := Hierarchy(ls, g);
    Run(Map(map[]), Plan(bp, h, h))
  }

  // ----- Running a plan is folding its documents

  predicate Decodable(steps: seq<Step>) {
    forall i :: 0 <= i < |steps| ==> !steps[i].source.Malformed?
  }

  function Decoded(source: Source): seq<Json> {
    if source.Values? then [Map(source.doc)] else []
  }

  function Docs(steps: seq<Step>): seq<Json> {
    if steps == [] then [] else Decoded(steps[0].source) + Docs(steps[1..])
  }

  lemma DecodableTail(steps: seq<Step>)
    requires steps != []
    ensures Decodable(steps) <==> !steps[0].source.Malformed? && Decodable(steps[1..])
  {
    assert forall i :: 0 <= i < |steps| ==> steps[i] == if i == 0 then steps[0] else steps[1..][i - 1];
  }

  /** A run succeeds exactly when every source can be decoded, and then it is a fold. */
  lemma {:induction false} RunIsFold(values: Json, steps: seq<Step>)
    ensures Run(values, steps).Ok? <==> Decodable(steps)
    ensures Decodable(steps) ==> Run(values, steps).values == Fold(values, Docs(steps))
    decreases |steps|
  {
    if steps == [] {
    } else {
      DecodableTail(steps);
      if steps[0].source.Values? {
        assert Docs(steps)[1..] == Docs(steps[1..]);
        RunIsFold(Merge(values, Map(steps[0].source.doc)), steps[1..]);
      } else if steps[0].source.NoValues? {
        RunIsFold(values, steps[1..]);
        assert Docs(steps) == Docs(steps[1..]);
      }
    }
  }

  /** A failed run names the first source that cannot be decoded. */
  lemma {:induction false} RunFailsAtFirst(values: Json, steps: seq<Step>, i: nat)
    requires i < |steps| && steps[i].source.Malformed? && Decodable(steps[..i])
    ensures Run(values, steps) == Failed(steps[i].origin)
    decreases |steps|
  {
    if i == 0 {
    } else {
      assert steps[..i][0] == steps[0];
      assert steps[1..][..i - 1] == steps[..i][1..];
      var next := if steps[0].source.Values? then Merge(values, Map(steps[0].source.doc)) else values;
      RunFailsAtFirst(next, steps[1..], i - 1);
    }
  }

  lemma {:induction false} DocsConcat(s: seq<Step>, t: seq<Step>)
    ensures Docs(s + t) == Docs(s) + Docs(t)
  {
    if s == [] {
      assert s + t == t;
    } else {
      assert (s + t)[1..] == s[1..] + t;
      DocsConcat(s[1..], t);
      var d, u, v := Decoded(s[0].source), Docs(s[1..]), Docs(t);
      assert d + (u + v) == (d + u) + v;
    }
  }

  lemma {:induction false} DocsMember(steps: seq<Step>, d: Json)
    ensures d in Docs(steps)
       <==> exists i :: 0 <= i < |steps| && steps[i].source.Values? && d == Map(steps[i].source.doc)
  {
    if steps == [] {
    } else {
      DocsMember(steps[1..], d);
      assert forall i :: 1 <= i < |steps| ==> steps[i] == steps[1..][i - 1];
    }
  }

  lemma {:induction false} RunConcat(values: Json, s: seq<Step>, t: seq<Step>)
    ensures Run(values, s + t) == if Run(values, s).Ok? then Run(Run(values, s).values, t) else Run(values, s)
    decreases |s|
  {
    if s == [] {
      assert s + t == t;
    } else {
      assert (s + t)[1..] == s[1..] + t;
      if s[0].source.NoValues? {
        RunConcat(values, s[1..], t);
      } else if s[0].source.Values? {
        RunConcat(Merge(values, Map(s[0].source.doc)), s[1..], t);
      }
    }
  }
}
