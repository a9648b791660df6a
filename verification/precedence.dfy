/**
 What a lookup means: which source decides each path, how clashes within a level are
 settled, and which differences in the input make no difference.
 */
module Precedence {
  import opened Common
  import opened Json
  import opened Policies

  // ----- Which source decides a path

  function SourceSlot(source: Source, p: Path): Slot {
    if source.Values? then Look(Map(source.doc), p) else Absent
  }

  /** At each path the lookup shows what its documents, in the order of the plan, read there. */
  lemma LookupReads(bp: Blueprint, ls: Lists, g: Gateway, p: Path)
    requires LookupResult(bp, ls, g).Ok? && p != []
    ensures var h := Hierarchy(ls, g);
            Reads(Docs(Plan(bp, h, h)), p, Look(LookupResult(bp, ls, g).values, p))
  {
    var h := Hierarchy(ls, g);
    RunIsFold(Map(map[]), Plan(bp, h, h));
    FoldReads(Docs(Plan(bp, h, h)), p);
  }

  /** Nothing that the plan merges has an object at `p`. */
  ghost predicate NoBranch(steps: seq<Step>, p: Path) {
    forall i :: 0 <= i < |steps| ==> !SourceSlot(steps[i].source, p).Branch?
  }

  lemma StepsAbsent(steps: seq<Step>, p: Path)
    requires forall i :: 0 <= i < |steps| ==> SourceSlot(steps[i].source, p).Absent?
    ensures Layered(Docs(steps), p).Absent?
  {
    forall d | d in Docs(steps) ensures Look(d, p).Absent? {
      DocsMember(steps, d);
    }
    LayeredAbsent(Docs(steps), p);
  }

  lemma StepsNoBranch(steps: seq<Step>, p: Path)
    requires NoBranch(steps, p)
    ensures !Layered(Docs(steps), p).Branch?
  {
    forall d | d in Docs(steps) ensures !Look(d, p).Branch? {
      DocsMember(steps, d);
    }
    LayeredBranch(Docs(steps), p);
  }

  /** The last step that has a leaf at `p` decides, if no step has an object there. */
  lemma RunLast(steps: seq<Step>, p: Path, i: nat)
    requires p != [] && Decodable(steps) && NoBranch(steps, p)
    requires i < |steps| && SourceSlot(steps[i].source, p).Scalar?
    requires forall j :: i < j < |steps| ==> SourceSlot(steps[j].source, p).Absent?
    ensures Run(Map(map[]), steps).Ok?
    ensures Look(Run(Map(map[]), steps).values, p) == SourceSlot(steps[i].source, p)
  {
    RunIsFold(Map(map[]), steps);
    LookFold(Map(map[]), Docs(steps), p);
    var pre, post, d := steps[..i], steps[i + 1..], Map(steps[i].source.doc);
    assert steps == pre + ([steps[i]] + post);
    DocsConcat(pre, [steps[i]] + post);
    LayeredConcat(Docs(pre), Docs([steps[i]] + post), p);
    assert Docs([steps[i]] + post) == [d] + Docs(post);
    StepsNoBranch(pre, p);
    StepsAbsent(post, p);
  }

  // ----- Clashes

  lemma PlanAt(bp: Blueprint, down: seq<Policy>, up: seq<Policy>, j: nat)
    requires j < |Plan(bp, down, up)|
    ensures Plan(bp, down, up)[j].source
         == if j == 0 then bp.dflt
            else if j < 1 + |down| then down[j - 1].spec.dflt
            else if j < 1 + |down| + |up| then up[|down| + |up| - j].spec.over
            else bp.over
  {}

  /** Of all overrides at `p`, the one that comes first in the hierarchy decides. */
  lemma FirstOverrideDecides(bp: Blueprint, h: seq<Policy>, p: Path, m: nat)
    requires p != [] && Decodable(Plan(bp, h, h)) && NoBranch(Plan(bp, h, h), p) && m < |h|
    requires SourceSlot(h[m].spec.over, p).Scalar? && SourceSlot(bp.over, p).Absent?
    requires forall x :: x in h[..m] ==> SourceSlot(x.spec.over, p).Absent?
    ensures Run(Map(map[]), Plan(bp, h, h)).Ok?
    ensures Look(Run(Map(map[]), Plan(bp, h, h)).values, p) == SourceSlot(h[m].spec.over, p)
  {
    var steps, at := Plan(bp, h, h), 2 * |h| - m;
    PlanAt(bp, h, h, at);
    forall j | at < j < |steps| ensures SourceSlot(steps[j].source, p).Absent? {
      PlanAt(bp, h, h, j);
      if j < 1 + 2 * |h| {
        assert h[2 * |h| - j] in h[..m];
      }
    }
    RunLast(steps, p, at);
  }

  /** With no override at `p`, the default that comes last in the hierarchy decides. */
  lemma LastDefaultDecides(bp: Blueprint, h: seq<Policy>, p: Path, m: nat)
    requires p != [] && Decodable(Plan(bp, h, h)) && NoBranch(Plan(bp, h, h), p) && m < |h|
    requires SourceSlot(h[m].spec.dflt, p).Scalar? && SourceSlot(bp.over, p).Absent?
    requires forall x :: x in h ==> SourceSlot(x.spec.over, p).Absent?
    requires forall x :: x in h[m + 1..] ==> SourceSlot(x.spec.dflt, p).Absent?
    ensures Run(Map(map[]), Plan(bp, h, h)).Ok?
    ensures Look(Run(Map(map[]), Plan(bp, h, h)).values, p) == SourceSlot(h[m].spec.dflt, p)
  {
    var steps := Plan(bp, h, h);
    PlanAt(bp, h, h, 1 + m);
    forall j | 1 + m < j < |steps| ensures SourceSlot(steps[j].source, p).Absent? {
      PlanAt(bp, h, h, j);
      if j < 1 + |h| {
        assert h[j - 1] in h[m + 1..];
      }
    }
    RunLast(steps, p, 1 + m);
  }

  /** Splits flattened groups around member `i` of group `l`. */
  lemma SplitAt(gs: seq<seq<Policy>>, l: nat, i: nat) returns (pre: seq<Policy>, post: seq<Policy>)
    requires l < |gs| && i < |gs[l]|
    ensures Flatten(gs) == pre + [gs[l][i]] + post
    ensures forall x :: x in pre ==> (exists j :: 0 <= j < i && x == gs[l][j]) || exists k :: 0 <= k < l && x in gs[k]
    ensures forall x :: x in post ==>
              (exists j :: i < j < |gs[l]| && x == gs[l][j]) || exists k :: l < k < |gs| && x in gs[k]
  {
    FlattenSplit(gs, l, i);
    var head, tail := Flatten(gs[..l]), Flatten(gs[l + 1..]);
    pre, post := head + gs[l][..i], gs[l][i + 1..] + tail;
    forall x | x in head ensures exists k :: 0 <= k < l && x in gs[k] {
      var k :| 0 <= k < l && x in gs[..l][k];
      assert x in gs[k];
    }
    forall x | x in tail ensures exists k :: l < k < |gs| && x in gs[k] {
      var k :| 0 <= k < |gs| - l - 1 && x in gs[l + 1..][k];
      assert x in gs[l + 1 + k];
    }
  }

  lemma GroupAscending(ls: Lists, l: Level, g: Gateway)
    requires WellListed(ls)
    ensures Ascending(Group(ls, l, g))
  {
    SelectDistinct(ListFor(ls, l), l, g);
    SortAscending(Select(ListFor(ls, l), l, g));
  }

  /** `x` is a class config of the controller namespace that targets the class of `g`. */
  predicate OfGlobalClass(x: Policy, ls: Lists, g: Gateway) {
    && x in ls.globalClass && x.spec.target.kind == "GatewayClass"
    && x.spec.target.group == "gateway.networking.k8s.io" && x.spec.target.name == g.className
  }

  /** `x` is a class config beside `g` that targets the namespace of `g`. */
  predicate OfClassNamespace(x: Policy, ls: Lists, g: Gateway) {
    && x in ls.localClass && x.spec.target.kind == "Namespace"
    && x.spec.target.group == "" && x.spec.target.name == g.namespace
  }

  /** `x` is a class config beside `g` that targets the class of `g`. */
  predicate OfLocalClass(x: Policy, ls: Lists, g: Gateway) {
    && x in ls.localClass && x.spec.target.kind == "GatewayClass"
    && x.spec.target.group == "gateway.networking.k8s.io" && x.spec.target.name == g.className
  }

  /** `x` is a gateway config that targets the namespace of `g`. */
  predicate OfNamespace(x: Policy, ls: Lists, g: Gateway) {
    && x in ls.localGateway && x.spec.target.kind == "Namespace"
    && x.spec.target.group == "" && x.spec.target.name == g.namespace
  }

  /** `x` is a gateway config that targets `g` itself. */
  predicate OfGatewayItself(x: Policy, ls: Lists, g: Gateway) {
    && x in ls.localGateway && x.spec.target.kind == "Gateway"
    && x.spec.target.group == "gateway.networking.k8s.io" && x.spec.target.name == g.name
    && (x.spec.target.namespace.None? || x.spec.target.namespace.value == g.namespace)
  }

  /** The members of each group, by list and target. */
  lemma GroupMember(ls: Lists, l: Level, g: Gateway, p: Policy)
    ensures p in Group(ls, l, g) <==>
      match l
      case GlobalClass => OfGlobalClass(p, ls, g)
      case LocalNamespace => OfClassNamespace(p, ls, g)
      case LocalClass => OfLocalClass(p, ls, g)
      case ConfigNamespace => OfNamespace(p, ls, g)
      case ConfigGateway => OfGatewayItself(p, ls, g)
  {
    var kept := Select(ListFor(ls, l), l, g);
    assert p in Sort(kept) <==> p in multiset(Sort(kept));
    assert p in kept <==> p in multiset(kept);
  }

  /** The first member of `s` in `has`. */
  lemma {:induction false} FirstIn(s: seq<Policy>, has: set<Policy>) returns (i: nat)
    requires exists q :: q in s && q in has
    ensures i < |s| && s[i] in has && forall j :: 0 <= j < i ==> s[j] !in has
  {
    if s[0] in has {
      i := 0;
    } else {
      var j := FirstIn(s[1..], has);
      i := j + 1;
      assert forall k :: 1 <= k < i ==> s[k] == s[1..][k - 1];
    }
  }

  /** The last member of `s` in `has`. */
  lemma {:induction false} LastIn(s: seq<Policy>, has: set<Policy>) returns (i: nat)
    requires exists q :: q in s && q in has
    ensures i < |s| && s[i] in has && forall j :: i < j < |s| ==> s[j] !in has
  {
    i := |s| - 1;
    if s[i] !in has {
      assert s == s[..i] + [s[i]];
      var j := LastIn(s[..i], has);
      assert forall k :: 0 <= k < i ==> s[k] == s[..i][k];
      i := j;
    }
  }

  lemma NoBranchAt(bp: Blueprint, h: seq<Policy>, x: Policy, p: Path)
    requires x in h && NoBranch(Plan(bp, h, h), p)
    ensures !SourceSlot(x.spec.over, p).Branch? && !SourceSlot(x.spec.dflt, p).Branch?
  {
    var k :| 0 <= k < |h| && h[k] == x;
    PlanAt(bp, h, h, 1 + k);
    PlanAt(bp, h, h, 2 * |h| - k);
  }

  /** The members of `group` with an override at `p`. */
  function WithOverride(group: seq<Policy>, p: Path): set<Policy> {
    set x: Policy | x in group && SourceSlot(x.spec.over, p).Scalar?
  }

  /** The members of `group` with a default at `p`. */
  function WithDefault(group: seq<Policy>, p: Path): set<Policy> {
    set x: Policy | x in group && SourceSlot(x.spec.dflt, p).Scalar?
  }

  lemma OverrideDecides(bp: Blueprint, gs: seq<seq<Policy>>, p: Path, l: nat, i: nat)
    requires var h := Flatten(gs); Decodable(Plan(bp, h, h)) && NoBranch(Plan(bp, h, h), p)
    requires p != [] && l < |gs| && i < |gs[l]| && gs[l][i] in WithOverride(gs[l], p)
    requires forall j :: 0 <= j < i ==> gs[l][j] !in WithOverride(gs[l], p)
    requires SourceSlot(bp.over, p).Absent?
    requires forall k, x :: 0 <= k < l && x in gs[k] ==> SourceSlot(x.spec.over, p).Absent?
    ensures var h := Flatten(gs);
            && Run(Map(map[]), Plan(bp, h, h)).Ok?
            && Look(Run(Map(map[]), Plan(bp, h, h)).values, p) == SourceSlot(gs[l][i].spec.over, p)
  {
    var h := Flatten(gs);
    var pre, post := SplitAt(gs, l, i);
    forall x | x in pre ensures SourceSlot(x.spec.over, p).Absent? {
      NoBranchAt(bp, h, x, p);
    }
    assert h[..|pre|] == pre;
    FirstOverrideDecides(bp, h, p, |pre|);
  }

  lemma DefaultDecides(bp: Blueprint, gs: seq<seq<Policy>>, p: Path, l: nat, i: nat)
    requires var h := Flatten(gs); Decodable(Plan(bp, h, h)) && NoBranch(Plan(bp, h, h), p)
    requires p != [] && l < |gs| && i < |gs[l]| && gs[l][i] in WithDefault(gs[l], p)
    requires forall j :: i < j < |gs[l]| ==> gs[l][j] !in WithDefault(gs[l], p)
    requires SourceSlot(bp.over, p).Absent?
    requires forall x :: x in Flatten(gs) ==> SourceSlot(x.spec.over, p).Absent?
    requires forall k, x :: l < k < |gs| && x in gs[k] ==> SourceSlot(x.spec.dflt, p).Absent?
    ensures var h := Flatten(gs);
            && Run(Map(map[]), Plan(bp, h, h)).Ok?
            && Look(Run(Map(map[]), Plan(bp, h, h)).values, p) == SourceSlot(gs[l][i].spec.dflt, p)
  {
    var h := Flatten(gs);
    var pre, post := SplitAt(gs, l, i);
    forall x | x in post ensures SourceSlot(x.spec.dflt, p).Absent? {
      NoBranchAt(bp, h, x, p);
    }
    assert h[|pre| + 1..] == post;
    LastDefaultDecides(bp, h, p, |pre|);
  }

  lemma OldestOf(group: seq<Policy>, has: set<Policy>, i: nat)
    requires Ascending(group) && i < |group| && forall j :: 0 <= j < i ==> group[j] !in has
    ensures forall x :: x in group && x in has && x != group[i] ==> Older(group[i], x)
  {}

  lemma NewestOf(group: seq<Policy>, has: set<Policy>, i: nat)
    requires Ascending(group) && i < |group| && forall j :: i < j < |group| ==> group[j] !in has
    ensures forall x :: x in group && x in has && x != group[i] ==> Older(x, group[i])
  {}

  /**
   Overrides: the least specific level that has one decides, whichever policies clash there,
   and within that level the oldest policy (then the alphabetically first) wins.
   */
  lemma OverrideLevelDecides(bp: Blueprint, ls: Lists, g: Gateway, p: Path, l: nat) returns (q: Policy)
    requires WellListed(ls) && LookupResult(bp, ls, g).Ok? && p != [] && l < LEVEL_COUNT
    requires NoBranch(Plan(bp, Hierarchy(ls, g), Hierarchy(ls, g)), p)
    requires SourceSlot(bp.over, p).Absent?
    requires forall k, x :: 0 <= k < l && x in Groups(ls, g)[k] ==> SourceSlot(x.spec.over, p).Absent?
    requires WithOverride(Groups(ls, g)[l], p) != {}
    ensures q in WithOverride(Groups(ls, g)[l], p)
    ensures forall x :: x in WithOverride(Groups(ls, g)[l], p) && x != q ==> Older(q, x)
    ensures Look(LookupResult(bp, ls, g).values, p) == SourceSlot(q.spec.over, p)
  {
    var gs := Groups(ls, g);
    var i := FirstIn(gs[l], WithOverride(gs[l], p));
    q := gs[l][i];
    GroupsAt(ls, g, l, LevelAt(l));
    GroupAscending(ls, LevelAt(l), g);
    OldestOf(gs[l], WithOverride(gs[l], p), i);
    RunIsFold(Map(map[]), Plan(bp, Hierarchy(ls, g), Hierarchy(ls, g)));
    OverrideDecides(bp, gs, p, l, i);
  }

  /**
   Defaults: with no override at the path, the most specific level that has a default
   decides, and within that level the newest policy (then the alphabetically last) wins.
   */
  lemma DefaultLevelDecides(bp: Blueprint, ls: Lists, g: Gateway, p: Path, l: nat) returns (q: Policy)
    requires WellListed(ls) && LookupResult(bp, ls, g).Ok? && p != [] && l < LEVEL_COUNT
    requires NoBranch(Plan(bp, Hierarchy(ls, g), Hierarchy(ls, g)), p)
    requires SourceSlot(bp.over, p).Absent?
    requires forall x :: x in Hierarchy(ls, g) ==> SourceSlot(x.spec.over, p).Absent?
    requires forall k, x :: l < k < LEVEL_COUNT && x in Groups(ls, g)[k] ==> SourceSlot(x.spec.dflt, p).Absent?
    requires WithDefault(Groups(ls, g)[l], p) != {}
    ensures q in WithDefault(Groups(ls, g)[l], p)
    ensures forall x :: x in WithDefault(Groups(ls, g)[l], p) && x != q ==> Older(x, q)
    ensures Look(LookupResult(bp, ls, g).values, p) == SourceSlot(q.spec.dflt, p)
  {
    var gs := Groups(ls, g);
    var i := LastIn(gs[l], WithDefault(gs[l], p));
    q := gs[l][i];
    GroupsAt(ls, g, l, LevelAt(l));
    GroupAscending(ls, LevelAt(l), g);
    NewestOf(gs[l], WithDefault(gs[l], p), i);
    RunIsFold(Map(map[]), Plan(bp, Hierarchy(ls, g), Hierarchy(ls, g)));
    DefaultDecides(bp, gs, p, l, i);
  }

  // ----- By the target of the deciding policy

  /** How specific a policy speaks of `g`: 0 for the class everywhere, up to 4 for the gateway itself. */
  predicate Speaks(x: Policy, ls: Lists, g: Gateway, l: nat) {
    || (l == 0 && OfGlobalClass(x, ls, g))
    || (l == 1 && OfClassNamespace(x, ls, g))
    || (l == 2 && OfLocalClass(x, ls, g))
    || (l == 3 && OfNamespace(x, ls, g))
    || (l == 4 && OfGatewayItself(x, ls, g))
  }

  lemma SpeaksIff(x: Policy, ls: Lists, g: Gateway, l: nat)
    requires l < LEVEL_COUNT
    ensures Speaks(x, ls, g, l) <==> x in Groups(ls, g)[l]
  {
    GroupsAt(ls, g, l, LevelAt(l));
    GroupMember(ls, LevelAt(l), g, x);
  }

  lemma HierarchyMember(x: Policy, ls: Lists, g: Gateway)
    ensures x in Hierarchy(ls, g) <==> exists l: nat :: l < LEVEL_COUNT && Speaks(x, ls, g, l)
  {
    forall l: nat | l < LEVEL_COUNT ensures Speaks(x, ls, g, l) <==> x in Groups(ls, g)[l] {
      SpeaksIff(x, ls, g, l);
    }
  }

  /** Nothing that a lookup for `g` merges has an object at `p`. */
  ghost predicate PlainAt(bp: Blueprint, ls: Lists, g: Gateway, p: Path) {
    NoBranch(Plan(bp, Hierarchy(ls, g), Hierarchy(ls, g)), p)
  }

  /**
   Of all policies with an override at `p`, those decide whose targets are least specific: the
   class everywhere, then a class config's namespace, its class here, a gateway config's
   namespace, the gateway. Of several, the oldest wins, and within one age the first by name.
   */
  lemma LeastSpecificOverrideDecides(bp: Blueprint, ls: Lists, g: Gateway, p: Path, l: nat) returns (q: Policy)
    requires WellListed(ls) && LookupResult(bp, ls, g).Ok? && p != [] && l < LEVEL_COUNT && PlainAt(bp, ls, g, p)
    requires SourceSlot(bp.over, p).Absent?
    requires forall k: nat, x :: k < l && Speaks(x, ls, g, k) ==> SourceSlot(x.spec.over, p).Absent?
    requires exists x :: Speaks(x, ls, g, l) && SourceSlot(x.spec.over, p).Scalar?
    ensures Speaks(q, ls, g, l) && SourceSlot(q.spec.over, p).Scalar?
    ensures forall x :: Speaks(x, ls, g, l) && SourceSlot(x.spec.over, p).Scalar? && x != q ==> Older(q, x)
    ensures Look(LookupResult(bp, ls, g).values, p) == SourceSlot(q.spec.over, p)
  {
    forall k: nat, x | k < LEVEL_COUNT ensures Speaks(x, ls, g, k) <==> x in Groups(ls, g)[k] {
      SpeaksIff(x, ls, g, k);
    }
    var some :| Speaks(some, ls, g, l) && SourceSlot(some.spec.over, p).Scalar?;
    assert some in WithOverride(Groups(ls, g)[l], p);
    q := OverrideLevelDecides(bp, ls, g, p, l);
    assert forall x :: x in WithOverride(Groups(ls, g)[l], p) <==>
        Speaks(x, ls, g, l) && SourceSlot(x.spec.over, p).Scalar?;
  }

  /**
   With no override at `p`, those policies with a default there decide whose targets are most
   specific. Of several, the newest wins, and within one age the last by name.
   */
  lemma MostSpecificDefaultDecides(bp: Blueprint, ls: Lists, g: Gateway, p: Path, l: nat) returns (q: Policy)
    requires WellListed(ls) && LookupResult(bp, ls, g).Ok? && p != [] && l < LEVEL_COUNT && PlainAt(bp, ls, g, p)
    requires SourceSlot(bp.over, p).Absent?
    requires forall k: nat, x :: k < LEVEL_COUNT && Speaks(x, ls, g, k) ==> SourceSlot(x.spec.over, p).Absent?
    requires forall k: nat, x :: l < k < LEVEL_COUNT && Speaks(x, ls, g, k) ==> SourceSlot(x.spec.dflt, p).Absent?
    requires exists x :: Speaks(x, ls, g, l) && SourceSlot(x.spec.dflt, p).Scalar?
    ensures Speaks(q, ls, g, l) && SourceSlot(q.spec.dflt, p).Scalar?
    ensures forall x :: Speaks(x, ls, g, l) && SourceSlot(x.spec.dflt, p).Scalar? && x != q ==> Older(x, q)
    ensures Look(LookupResult(bp, ls, g).values, p) == SourceSlot(q.spec.dflt, p)
  {
    forall k: nat, x | k < LEVEL_COUNT ensures Speaks(x, ls, g, k) <==> x in Groups(ls, g)[k] {
      SpeaksIff(x, ls, g, k);
    }
    forall x | x in Hierarchy(ls, g) ensures SourceSlot(x.spec.over, p).Absent? {
      HierarchyMember(x, ls, g);
    }
    var some :| Speaks(some, ls, g, l) && SourceSlot(some.spec.dflt, p).Scalar?;
    assert some in WithDefault(Groups(ls, g)[l], p);
    q := DefaultLevelDecides(bp, ls, g, p, l);
    assert forall x :: x in WithDefault(Groups(ls, g)[l], p) <==>
        Speaks(x, ls, g, l) && SourceSlot(x.spec.dflt, p).Scalar?;
  }

  // ----- Differences that make no difference

  /** Two list results for the same objects. */
  ghost predicate SameObjects(s: seq<Policy>, t: seq<Policy>) {
    DistinctNames(s) && DistinctNames(t) && forall p :: p in s <==> p in t
  }

  /** The order in which the API lists objects does not matter. */
  lemma LookupIgnoresListOrder(bp: Blueprint, ls: Lists, ls': Lists, g: Gateway)
    requires SameObjects(ls.globalClass, ls'.globalClass)
    requires SameObjects(ls.localClass, ls'.localClass)
    requires SameObjects(ls.localGateway, ls'.localGateway)
    ensures LookupResult(bp, ls, g) == LookupResult(bp, ls', g)
  {
    forall i | 0 <= i < LEVEL_COUNT ensures Group(ls, LevelAt(i), g) == Group(ls', LevelAt(i), g) {
      SortedGroupUnique(ListFor(ls, LevelAt(i)), ListFor(ls', LevelAt(i)), LevelAt(i), g, LevelAt(i));
    }
    assert Groups(ls, g) == Groups(ls', g);
  }

  lemma PlanDecodable(bp: Blueprint, down: seq<Policy>, up: seq<Policy>)
    ensures Decodable(Plan(bp, down, up)) <==>
              && !bp.dflt.Malformed? && !bp.over.Malformed?
              && (forall q :: q in down ==> !q.spec.dflt.Malformed?)
              && (forall q :: q in up ==> !q.spec.over.Malformed?)
  {
    var steps := Plan(bp, down, up);
    if Decodable(steps) {
      PlanAt(bp, down, up, 0);
      PlanAt(bp, down, up, |steps| - 1);
      forall i | 0 <= i < |down| ensures !down[i].spec.dflt.Malformed? {
        PlanAt(bp, down, up, 1 + i);
      }
      forall i | 0 <= i < |up| ensures !up[i].spec.over.Malformed? {
        PlanAt(bp, down, up, |down| + |up| - i);
      }
    } else {
      var j :| 0 <= j < |steps| && steps[j].source.Malformed?;
      PlanAt(bp, down, up, j);
    }
  }

  // ----- A gateway in the controller namespace

  /** The defaults of `ps`, in order, at `p`. */
  function DefaultsAt(ps: seq<Policy>, p: Path): Slot {
    Layered(Docs(Defaults(ps)), p)
  }

  /** The overrides of `ps`, in reverse order, at `p`. */
  function OverridesAt(ps: seq<Policy>, p: Path): Slot {
    Layered(Docs(Reverse(Overrides(ps))), p)
  }

  lemma DefaultsAtConcat(s: seq<Policy>, t: seq<Policy>, p: Path)
    ensures DefaultsAt(s + t, p) == Over(DefaultsAt(s, p), DefaultsAt(t, p))
  {
    StepsConcat(s, t);
    DocsConcat(Defaults(s), Defaults(t));
    LayeredConcat(Docs(Defaults(s)), Docs(Defaults(t)), p);
  }

  lemma OverridesAtConcat(s: seq<Policy>, t: seq<Policy>, p: Path)
    ensures OverridesAt(s + t, p) == Over(OverridesAt(t, p), OverridesAt(s, p))
  {
    StepsConcat(s, t);
    ReverseConcat(Overrides(s), Overrides(t));
    DocsConcat(Reverse(Overrides(t)), Reverse(Overrides(s)));
    LayeredConcat(Docs(Reverse(Overrides(t))), Docs(Reverse(Overrides(s))), p);
  }

  /** The plan at a path: blueprint default, defaults, overrides, blueprint override. */
  lemma PlanLayered(bp: Blueprint, down: seq<Policy>, up: seq<Policy>, p: Path)
    ensures Layered(Docs(Plan(bp, down, up)), p)
         == Over(Over(Layered(Decoded(bp.dflt), p), DefaultsAt(down, p)),
                 Over(OverridesAt(up, p), Layered(Decoded(bp.over), p)))
  {
    var first, d := [Step(BlueprintDefault, bp.dflt)], Defaults(down);
    var o, last := Reverse(Overrides(up)), [Step(BlueprintOverride, bp.over)];
    DocsConcat(first + d, o + last);
    DocsConcat(first, d);
    DocsConcat(o, last);
    LayeredConcat(Docs(first + d), Docs(o + last), p);
    LayeredConcat(Docs(first), Docs(d), p);
    LayeredConcat(Docs(o), Docs(last), p);
    assert Docs(first) == Decoded(bp.dflt) && Docs(last) == Decoded(bp.over);
  }

  /** A group that occurs twice in the hierarchy counts once: last for defaults, first for overrides. */
  lemma RepeatedGroupAt(c: seq<Policy>, n: seq<Policy>, w: seq<Policy>, p: Path)
    ensures DefaultsAt(c + n + c + w, p) == DefaultsAt(n + c + w, p)
    ensures OverridesAt(c + n + c + w, p) == OverridesAt(c + n + w, p)
  {
    DefaultsAtConcat(c + n + c, w, p);
    DefaultsAtConcat(c + n, c, p);
    DefaultsAtConcat(c, n, p);
    DefaultsAtConcat(n + c, w, p);
    DefaultsAtConcat(n, c, p);
    OverridesAtConcat(c + n + c, w, p);
    OverridesAtConcat(c + n, c, p);
    OverridesAtConcat(c, n, p);
    OverridesAtConcat(c + n, w, p);
  }

  /**
   In the controller namespace both list calls return the same objects, so a class-targeted
   `GatewayClassConfig` is selected at two levels. The outcome is as if its default counted
   at the local class level only and its override at the global level only.
   */
  lemma ControllerNamespaceCountsOnce(bp: Blueprint, ls: Lists, g: Gateway)
    requires WellListed(ls) && SameObjects(ls.globalClass, ls.localClass)
    ensures var c, n := Group(ls, LocalClass, g), Group(ls, LocalNamespace, g);
            var w := Group(ls, ConfigNamespace, g) + Group(ls, ConfigGateway, g);
            var once := Run(Map(map[]), Plan(bp, n + c + w, c + n + w));
            && Hierarchy(ls, g) == c + n + c + w
            && (LookupResult(bp, ls, g).Ok? <==> once.Ok?)
            && (once.Ok? ==> LookupResult(bp, ls, g) == once)
  {
    var c, n := Group(ls, LocalClass, g), Group(ls, LocalNamespace, g);
    var w := Group(ls, ConfigNamespace, g) + Group(ls, ConfigGateway, g);
    var h := c + n + c + w;
    SortedGroupUnique(ls.globalClass, ls.localClass, GlobalClass, g, LocalClass);
    HierarchyIs(ls, g);
    assert Hierarchy(ls, g) == h;
    RunPlansAgree(bp, h, h, n + c + w, c + n + w);
    if Decodable(Plan(bp, h, h)) {
      forall p ensures DefaultsAt(h, p) == DefaultsAt(n + c + w, p) && OverridesAt(h, p) == OverridesAt(c + n + w, p) {
        RepeatedGroupAt(c, n, w, p);
      }
      SamePlanValues(bp, h, h, n + c + w, c + n + w);
    }
  }

  /** Plans over the same policies fail together. */
  lemma RunPlansAgree(bp: Blueprint, down: seq<Policy>, up: seq<Policy>, down': seq<Policy>, up': seq<Policy>)
    requires forall q :: q in down <==> q in down'
    requires forall q :: q in up <==> q in up'
    ensures Run(Map(map[]), Plan(bp, down, up)).Ok? <==> Run(Map(map[]), Plan(bp, down', up')).Ok?
    ensures Decodable(Plan(bp, down, up)) <==> Decodable(Plan(bp, down', up'))
    ensures Run(Map(map[]), Plan(bp, down, up)).Ok? <==> Decodable(Plan(bp, down, up))
  {
    PlanDecodable(bp, down, up);
    PlanDecodable(bp, down', up');
    RunIsFold(Map(map[]), Plan(bp, down, up));
    RunIsFold(Map(map[]), Plan(bp, down', up'));
  }

  lemma SamePlanValues(bp: Blueprint, down: seq<Policy>, up: seq<Policy>, down': seq<Policy>, up': seq<Policy>)
    requires Decodable(Plan(bp, down, up)) && Decodable(Plan(bp, down', up'))
    requires forall p :: DefaultsAt(down, p) == DefaultsAt(down', p) && OverridesAt(up, p) == OverridesAt(up', p)
    ensures Run(Map(map[]), Plan(bp, down, up)) == Run(Map(map[]), Plan(bp, down', up'))
  {
    var s, t := Plan(bp, down, up), Plan(bp, down', up');
    RunIsFold(Map(map[]), s);
    RunIsFold(Map(map[]), t);
    forall p ensures Look(Fold(Map(map[]), Docs(s)), p) == Look(Fold(Map(map[]), Docs(t)), p) {
      LookFold(Map(map[]), Docs(s), p);
      LookFold(Map(map[]), Docs(t), p);
      PlanLayered(bp, down, up, p);
      PlanLayered(bp, down', up', p);
    }
    Extensional(Fold(Map(map[]), Docs(s)), Fold(Map(map[]), Docs(t)));
  }
}
