/**
 The lookup as the controller runs it: groups are filled by loops over the listed policies,
 and the values are one mutable tree that every source is decoded and merged into. Nothing
 that exists before the call is written, so no policy changes, however the sources share.
 */
module LookupValues {
  import opened Common
  import opened Json
  import opened MergeHeap
  import opened Policies

  /** Keep the listed policies that match at a level, and sort them. */
  method SelectGroup(ls: Lists, l: Level, g: Gateway) returns (group: seq<Policy>)
    ensures group == Group(ls, l, g)
  {
    var items := ListFor(ls, l);
    var kept := [];
    for idx := 0 to |items|
      invariant kept == Select(items[..idx], l, g)
    {
      SelectStep(items, idx, l, g);
      if Matches(items[idx], l, g) {
        kept := kept + [items[idx]];
      }
    }
    assert items[..|items|] == items;
    return Sort(kept);
  }

  lemma SelectStep(items: seq<Policy>, idx: nat, l: Level, g: Gateway)
    requires idx < |items|
    ensures Select(items[..idx + 1], l, g) == Select(items[..idx], l, g) + SelectOne(items[idx], l, g)
  {
    assert items[..idx + 1] == items[..idx] + [items[idx]];
    SelectConcat(items[..idx], [items[idx]], l, g);
  }

  lemma {:induction false} SelectConcat(s: seq<Policy>, t: seq<Policy>, l: Level, g: Gateway)
    ensures Select(s + t, l, g) == Select(s, l, g) + Select(t, l, g)
  {
    if s == [] {
      assert s + t == t;
    } else {
      assert (s + t)[1..] == s[1..] + t;
      SelectConcat(s[1..], t, l, g);
      var d, u, v := SelectOne(s[0], l, g), Select(s[1..], l, g), Select(t, l, g);
      assert d + (u + v) == (d + u) + v;
    }
  }

  // ----- Merging one source

  /** The tree `s` hangs from `values`. */
  ghost predicate Held(values: MapNode, s: Shape)
    reads Nodes(s)
  {
    Holds(s) && TreeShaped(s) && Root(s) == Object(values)
  }

  /** Decode a source into new map objects and merge them into the tree at `values`. */
  method MergeValues(src: Source, values: MapNode, ghost s: Shape) returns (ok: bool, ghost t: Shape)
    requires Held(values, s)
    modifies Nodes(s)
    ensures ok <==> !src.Malformed?
    ensures ok ==> Held(values, t) && forall n :: n in Nodes(t) ==> n in Nodes(s) || fresh(n)
    ensures ok ==> Abs(t) == if src.Values? then Merge(Abs(s), Map(src.doc)) else Abs(s)
  {
    ok, t := true, s;
    match src {
      case NoValues =>
      case Malformed =>
        ok := false;
      case Values(doc) =>
        assert old(allocated(Nodes(s)));
        var newvals, u := Decode(doc);
        Undisturbed(s);
        MergeShapeTree(s, u);
        MergeShapeNodes(s, u);
        MergeShapeAbs(s, u);
        var merged := MergeInPlace(Object(values), newvals, s, u);
        t := MergeShape(s, u);
    }
  }

  // ----- Runs of steps

  /** Running `steps` leads from one document to another, unless it fails. */
  ghost predicate Leads(before: Json, steps: seq<Step>, failed: Option<Origin>, after: Json) {
    Run(before, steps) == if failed.None? then Ok(after) else Failed(failed.value)
  }

  /** From `idx` steps to the next. */
  lemma RunNext(before: Json, steps: seq<Step>, idx: nat, now: Json)
    requires idx < |steps| && Run(before, steps[..idx]) == Ok(now)
    ensures match steps[idx].source
            case NoValues => Run(before, steps[..idx + 1]) == Ok(now)
            case Malformed => Run(before, steps) == Failed(steps[idx].origin)
            case Values(doc) => Run(before, steps[..idx + 1]) == Ok(Merge(now, Map(doc)))
  {
    assert steps[..idx + 1] == steps[..idx] + [steps[idx]];
    assert steps == steps[..idx + 1] + steps[idx + 1..];
    RunConcat(before, steps[..idx], [steps[idx]]);
    RunConcat(before, steps[..idx + 1], steps[idx + 1..]);
    RunOne(now, steps[idx]);
  }

  lemma RunOne(values: Json, step: Step)
    ensures Run(values, [step])
         == match step.source
            case NoValues => Ok(values)
            case Malformed => Failed(step.origin)
            case Values(doc) => Ok(Merge(values, Map(doc)))
  {}

  lemma LeadsOn(before: Json, s: seq<Step>, now: Json, t: seq<Step>, failed: Option<Origin>, after: Json)
    requires Leads(before, s, None, now) && Leads(now, t, failed, after)
    ensures Leads(before, s + t, failed, after)
  {
    RunConcat(before, s, t);
  }

  lemma LeadsNowhere(before: Json, s: seq<Step>, t: seq<Step>, failed: Option<Origin>, now: Json, after: Json)
    requires Leads(before, s, failed, now) && failed.Some?
    ensures Leads(before, s + t, failed, after)
  {
    RunConcat(before, s, t);
  }

  /** One source by itself: a blueprint's default or override. */
  method MergeOne(ghost step: Step, src: Source, origin: Origin, values: MapNode, ghost s: Shape)
    returns (failed: Option<Origin>, ghost t: Shape)
    requires step == Step(origin, src) && Held(values, s)
    modifies Nodes(s)
    ensures failed.None? ==> Held(values, t) && forall n :: n in Nodes(t) ==> n in Nodes(s) || fresh(n)
    ensures Leads(Abs(s), [step], failed, Abs(t))
  {
    RunOne(Abs(s), step);
    var ok;
    ok, t := MergeValues(src, values, s);
    failed := if ok then None else Some(origin);
  }

  /** Defaults of a filtered list, first to last. */
  method MergeDefaults(filtered: seq<Policy>, values: MapNode, ghost s: Shape)
    returns (failed: Option<Origin>, ghost t: Shape)
    requires Held(values, s)
    modifies Nodes(s)
    ensures failed.None? ==> Held(values, t) && forall n :: n in Nodes(t) ==> n in Nodes(s) || fresh(n)
    ensures Leads(Abs(s), Defaults(filtered), failed, Abs(t))
  {
    t := s;
    ghost var steps := Defaults(filtered);
    for idx := 0 to |filtered|
      invariant Held(values, t) && forall n :: n in Nodes(t) ==> n in Nodes(s) || fresh(n)
      invariant Run(Abs(s), steps[..idx]) == Ok(Abs(t))
    {
      RunNext(Abs(s), steps, idx, Abs(t));
      var ok;
      ok, t := MergeValues(filtered[idx].spec.dflt, values, t);
      if !ok {
        return Some(FromPolicy(filtered[idx].name)), t;
      }
    }
    assert steps[..|filtered|] == steps;
    return None, t;
  }

  lemma OverrideAt(filtered: seq<Policy>, idx: nat)
    requires idx < |filtered|
    ensures Reverse(Overrides(filtered))[|filtered| - 1 - idx]
         == Step(FromPolicy(filtered[idx].name), filtered[idx].spec.over)
  {}

  /** Overrides of a filtered list, last to first. */
  method MergeOverrides(filtered: seq<Policy>, values: MapNode, ghost s: Shape)
    returns (failed: Option<Origin>, ghost t: Shape)
    requires Held(values, s)
    modifies Nodes(s)
    ensures failed.None? ==> Held(values, t) && forall n :: n in Nodes(t) ==> n in Nodes(s) || fresh(n)
    ensures Leads(Abs(s), Reverse(Overrides(filtered)), failed, Abs(t))
  {
    t := s;
    ghost var steps, done := Reverse(Overrides(filtered)), 0;
    var idx := |filtered| - 1;
    while idx >= 0
      invariant -1 <= idx < |filtered| && done == |filtered| - 1 - idx
      invariant Held(values, t) && forall n :: n in Nodes(t) ==> n in Nodes(s) || fresh(n)
      invariant Run(Abs(s), steps[..done]) == Ok(Abs(t))
    {
      OverrideAt(filtered, idx);
      RunNext(Abs(s), steps, done, Abs(t));
      var ok;
      ok, t := MergeValues(filtered[idx].spec.over, values, t);
      if !ok {
        return Some(FromPolicy(filtered[idx].name)), t;
      }
      idx, done := idx - 1, done + 1;
    }
    assert steps[..done] == steps;
    return None, t;
  }

  // ----- The lookup

  /** The selected policies of each kind, level by level, each level sorted. */
  method Filter(ls: Lists, g: Gateway) returns (classFiltered: seq<Policy>, configFiltered: seq<Policy>)
    ensures classFiltered + configFiltered == Hierarchy(ls, g)
  {
    var global := SelectGroup(ls, GlobalClass, g);
    var namespace := SelectGroup(ls, LocalNamespace, g);
    var localClass := SelectGroup(ls, LocalClass, g);
    classFiltered := global + namespace + localClass;
    var configNamespace := SelectGroup(ls, ConfigNamespace, g);
    var configGateway := SelectGroup(ls, ConfigGateway, g);
    configFiltered := configNamespace + configGateway;
    HierarchyIs(ls, g);
  }

  ghost function DefaultSteps(bp: Blueprint, classFiltered: seq<Policy>, configFiltered: seq<Policy>): seq<Step> {
    [Step(BlueprintDefault, bp.dflt)] + (Defaults(classFiltered) + Defaults(configFiltered))
  }

  ghost function OverrideSteps(bp: Blueprint, classFiltered: seq<Policy>, configFiltered: seq<Policy>): seq<Step> {
    (Reverse(Overrides(configFiltered)) + Reverse(Overrides(classFiltered))) + [Step(BlueprintOverride, bp.over)]
  }

  /** The lookup does what the plan says, in the order of the plan. */
  lemma PlanSteps(bp: Blueprint, classFiltered: seq<Policy>, configFiltered: seq<Policy>)
    ensures Plan(bp, classFiltered + configFiltered, classFiltered + configFiltered)
         == DefaultSteps(bp, classFiltered, configFiltered) + OverrideSteps(bp, classFiltered, configFiltered)
  {
    StepsConcat(classFiltered, configFiltered);
    ReverseConcat(Overrides(classFiltered), Overrides(configFiltered));
  }

  datatype Reply = Found(values: MapNode) | Error(origin: Origin)

  /** The heap holds what `r` says was found. */
  ghost predicate Delivers(r: Reply, t: Shape, result: Result)
    reads Nodes(t)
  {
    match result
    case Ok(v) => r.Found? && Held(r.values, t) && Abs(t) == v
    case Failed(o) => r == Error(o)
  }

  /** Defaults of both kinds. */
  method BothDefaults(classFiltered: seq<Policy>, configFiltered: seq<Policy>, values: MapNode, ghost s: Shape)
    returns (failed: Option<Origin>, ghost t: Shape)
    requires Held(values, s)
    modifies Nodes(s)
    ensures failed.None? ==> Held(values, t) && forall n :: n in Nodes(t) ==> n in Nodes(s) || fresh(n)
    ensures Leads(Abs(s), Defaults(classFiltered) + Defaults(configFiltered), failed, Abs(t))
  {
    ghost var u;
    failed, u := MergeDefaults(classFiltered, values, s);
    if failed.Some? {
      LeadsNowhere(Abs(s), Defaults(classFiltered), Defaults(configFiltered), failed, Abs(u), Abs(u));
      return failed, u;
    }
    failed, t := MergeDefaults(configFiltered, values, u);
    LeadsOn(Abs(s), Defaults(classFiltered), Abs(u), Defaults(configFiltered), failed, Abs(t));
  }

  /** Overrides of both kinds, in reverse. */
  method BothOverrides(classFiltered: seq<Policy>, configFiltered: seq<Policy>, values: MapNode, ghost s: Shape)
    returns (failed: Option<Origin>, ghost t: Shape)
    requires Held(values, s)
    modifies Nodes(s)
    ensures failed.None? ==> Held(values, t) && forall n :: n in Nodes(t) ==> n in Nodes(s) || fresh(n)
    ensures Leads(Abs(s), Reverse(Overrides(configFiltered)) + Reverse(Overrides(classFiltered)), failed, Abs(t))
  {
    ghost var c, d, u := Reverse(Overrides(classFiltered)), Reverse(Overrides(configFiltered)), s;
    failed, u := MergeOverrides(configFiltered, values, s);
    if failed.Some? {
      LeadsNowhere(Abs(s), d, c, failed, Abs(u), Abs(u));
      return failed, u;
    }
    failed, t := MergeOverrides(classFiltered, values, u);
    LeadsOn(Abs(s), d, Abs(u), c, failed, Abs(t));
  }

  /** The blueprint default, then defaults. */
  method DefaultsPhase(bp: Blueprint, classFiltered: seq<Policy>, configFiltered: seq<Policy>, values: MapNode,
                       ghost s: Shape)
    returns (failed: Option<Origin>, ghost t: Shape)
    requires Held(values, s)
    modifies Nodes(s)
    ensures failed.None? ==> Held(values, t) && forall n :: n in Nodes(t) ==> n in Nodes(s) || fresh(n)
    ensures Leads(Abs(s), DefaultSteps(bp, classFiltered, configFiltered), failed, Abs(t))
  {
    ghost var first, rest := Step(BlueprintDefault, bp.dflt), Defaults(classFiltered) + Defaults(configFiltered);
    ghost var u;
    failed, u := MergeOne(first, bp.dflt, BlueprintDefault, values, s);
    if failed.Some? {
      LeadsNowhere(Abs(s), [first], rest, failed, Abs(u), Abs(u));
      return failed, u;
    }
    failed, t := BothDefaults(classFiltered, configFiltered, values, u);
    LeadsOn(Abs(s), [first], Abs(u), rest, failed, Abs(t));
  }

  /** Overrides, then the blueprint override. */
  method OverridesPhase(bp: Blueprint, classFiltered: seq<Policy>, configFiltered: seq<Policy>, values: MapNode,
                        ghost s: Shape)
    returns (failed: Option<Origin>, ghost t: Shape)
    requires Held(values, s)
    modifies Nodes(s)
    ensures failed.None? ==> Held(values, t) && forall n :: n in Nodes(t) ==> n in Nodes(s) || fresh(n)
    ensures Leads(Abs(s), OverrideSteps(bp, classFiltered, configFiltered), failed, Abs(t))
  {
    ghost var rest := Reverse(Overrides(configFiltered)) + Reverse(Overrides(classFiltered));
    ghost var last, u := Step(BlueprintOverride, bp.over), s;
    failed, u := BothOverrides(classFiltered, configFiltered, values, s);
    if failed.Some? {
      LeadsNowhere(Abs(s), rest, [last], failed, Abs(u), Abs(u));
      return failed, u;
    }
    failed, t := MergeOne(last, bp.over, BlueprintOverride, values, u);
    LeadsOn(Abs(s), rest, Abs(u), [last], failed, Abs(t));
  }

  /** `lookupValues`: delivers `LookupResult` in map objects that did not exist before. */
  method Lookup(bp: Blueprint, ls: Lists, g: Gateway) returns (r: Reply, ghost t: Shape)
    ensures Delivers(r, t, LookupResult(bp, ls, g))
    ensures r.Found? ==> fresh(Nodes(t))
  {
    var classFiltered, configFiltered := Filter(ls, g);
    PlanSteps(bp, classFiltered, configFiltered);
    r, t := RunPlan(bp, classFiltered, configFiltered);
  }

  method RunPlan(bp: Blueprint, classFiltered: seq<Policy>, configFiltered: seq<Policy>)
    returns (r: Reply, ghost t: Shape)
    ensures Delivers(r, t, Run(Map(map[]), DefaultSteps(bp, classFiltered, configFiltered)
                                           + OverrideSteps(bp, classFiltered, configFiltered)))
    ensures r.Found? ==> fresh(Nodes(t))
  {
    ghost var d, o := DefaultSteps(bp, classFiltered, configFiltered), OverrideSteps(bp, classFiltered, configFiltered);
    var values := new MapNode();
    ghost var s := NodeShape(values, map[]);
    assert Abs(s) == Map(map[]);
    var failed;
    ghost var u;
    failed, u := DefaultsPhase(bp, classFiltered, configFiltered, values, s);
    if failed.Some? {
      LeadsNowhere(Abs(s), d, o, failed, Abs(u), Abs(u));
      return Error(failed.value), u;
    }
    failed, t := OverridesPhase(bp, classFiltered, configFiltered, values, u);
    LeadsOn(Abs(s), d, Abs(u), o, failed, Abs(t));
    if failed.Some? {
      return Error(failed.value), t;
    }
    return Found(values), t;
  }
}
