/**
 Templates and their resources between the stages of a reconcile: build the values that
 templates may read, render and fetch, apply, and again. The loops update the state of each
 template through its reference; what a whole stage does is given by functions on values.
 */
module Templating {
  import opened Common

  /** What the health library makes of a fetched object. */
  datatype Health = Healthy | Progressing | Broken

  /** An object of the cluster: what was applied last, and what others made of it. */
  datatype Object = Object(content: string, health: Health)

  datatype ResourceKey = ResourceKey(resource: string, namespace: Option<string>, name: string)

  datatype Rendered = Rendered(key: ResourceKey, content: string)

  /** A rendered resource, and the object last fetched for it. */
  datatype Resource = Resource(rendered: Rendered, current: Option<Object>)

  /** The fetched resources that templates may read, by template name. */
  type ResourceValues = map<string, seq<Object>>

  /** The resources that a template renders to, or nothing if it fails, from the values it may read. */
  type Renderer = ResourceValues -> Option<seq<Rendered>>

  /** What a template is and how far it has come. */
  datatype Template = Template(
    name: string, render: Renderer, resources: seq<Resource>, renderError: bool, applyError: bool)

  class TemplateState {
    const name: string
    const render: Renderer
    var resources: seq<Resource>
    var renderError: bool
    var applyError: bool

    constructor (name: string, render: Renderer)
      ensures Snapshot() == Template(name, render, [], false, false)
    {
      this.name, this.render := name, render;
      resources, renderError, applyError := [], false, false;
    }

    ghost function Snapshot(): Template
      reads this
    {
      Template(name, render, resources, renderError, applyError)
    }
  }

  /** The API server. Applying a resource in `rejects` fails. */
  class Cluster {
    var objects: map<ResourceKey, Object>
    const rejects: set<ResourceKey>

    constructor (objects: map<ResourceKey, Object>, rejects: set<ResourceKey>)
      ensures this.objects == objects && this.rejects == rejects
    {
      this.objects, this.rejects := objects, rejects;
    }

    /** Creates what is missing, and overwrites what was applied before. */
    method Patch(r: Rendered) returns (ok: bool)
      modifies this
      ensures ok <==> r.key !in rejects
      ensures objects == Put(old(objects), r, rejects)
    {
      ok := r.key !in rejects;
      if ok {
        var health := if r.key in objects then objects[r.key].health else Progressing;
        objects := objects[r.key := Object(r.content, health)];
      }
    }
  }

  // ----- The stages on values

  function Unfetched(rs: seq<Rendered>): (r: seq<Resource>)
    ensures |r| == |rs| && forall i :: 0 <= i < |rs| ==> r[i] == Resource(rs[i], None)
  {
    seq(|rs|, i requires 0 <= i < |rs| => Resource(rs[i], None))
  }

  function FetchOne(r: Resource, objects: map<ResourceKey, Object>): Resource {
    if r.current.None? && r.rendered.key in objects then r.(current := Some(objects[r.rendered.key])) else r
  }

  function Fetch(rs: seq<Resource>, objects: map<ResourceKey, Object>): (r: seq<Resource>)
    ensures |r| == |rs| && forall i :: 0 <= i < |rs| ==> r[i] == FetchOne(rs[i], objects)
  {
    seq(|rs|, i requires 0 <= i < |rs| => FetchOne(rs[i], objects))
  }

  /** Render unless there are resources already, then fetch what has not been fetched. */
  ghost function RenderOne(t: Template, values: ResourceValues, objects: map<ResourceKey, Object>): Template {
    var r := if t.resources != [] then t
             else match t.render(values)
                  case Some(rs) => t.(resources := Unfetched(rs), renderError := false)
                  case None => t.(renderError := true);
    r.(resources := Fetch(r.resources, objects))
  }

  ghost function RenderAll(ts: seq<Template>, values: ResourceValues, objects: map<ResourceKey, Object>)
    : (r: seq<Template>)
    ensures |r| == |ts| && forall i :: 0 <= i < |ts| ==> r[i] == RenderOne(ts[i], values, objects)
  {
    seq(|ts|, i requires 0 <= i < |ts| => RenderOne(ts[i], values, objects))
  }

  /** What is to be applied for `rs`. */
  function Outputs(rs: seq<Resource>): (r: seq<Rendered>)
    ensures |r| == |rs| && forall i :: 0 <= i < |rs| ==> r[i] == rs[i].rendered
  {
    seq(|rs|, i requires 0 <= i < |rs| => rs[i].rendered)
  }

  /** One apply: it overwrites the content and leaves the rest of the object to others. */
  function Put(objects: map<ResourceKey, Object>, r: Rendered, rejects: set<ResourceKey>): map<ResourceKey, Object> {
    if r.key in rejects then objects
    else objects[r.key := Object(r.content, if r.key in objects then objects[r.key].health else Progressing)]
  }

  /** Applying `rs` one after the other. */
  function Applied(objects: map<ResourceKey, Object>, rs: seq<Rendered>, rejects: set<ResourceKey>)
    : map<ResourceKey, Object>
  {
    if rs == [] then objects else Put(Applied(objects, rs[..|rs| - 1], rejects), rs[|rs| - 1], rejects)
  }

  predicate AnyRejected(rs: seq<Resource>, rejects: set<ResourceKey>) {
    rs != [] && (AnyRejected(rs[..|rs| - 1], rejects) || rs[|rs| - 1].rendered.key in rejects)
  }

  ghost function ApplyOne(t: Template, rejects: set<ResourceKey>): Template {
    t.(applyError := AnyRejected(t.resources, rejects))
  }

  ghost function ApplyAll(ts: seq<Template>, rejects: set<ResourceKey>): (r: seq<Template>)
    ensures |r| == |ts| && forall i :: 0 <= i < |ts| ==> r[i] == ApplyOne(ts[i], rejects)
  {
    seq(|ts|, i requires 0 <= i < |ts| => ApplyOne(ts[i], rejects))
  }

  ghost function AllOutputs(ts: seq<Template>): seq<Rendered> {
    if ts == [] then [] else AllOutputs(ts[..|ts| - 1]) + Outputs(ts[|ts| - 1].resources)
  }

  /** The objects fetched for a template, in the order of its resources. */
  function Fetched(rs: seq<Resource>): seq<Object> {
    if rs == [] then []
    else Fetched(rs[..|rs| - 1]) + if rs[|rs| - 1].current.Some? then [rs[|rs| - 1].current.value] else []
  }

  ghost function ValuesOf(ts: seq<Template>): ResourceValues {
    if ts == [] then map[]
    else ValuesOf(ts[..|ts| - 1])[ts[|ts| - 1].name := Fetched(ts[|ts| - 1].resources)]
  }

  ghost function CountRendered(ts: seq<Template>): nat {
    if ts == [] then 0 else CountRendered(ts[..|ts| - 1]) + |ts[|ts| - 1].resources|
  }

  ghost function CountFetched(ts: seq<Template>): nat {
    if ts == [] then 0 else CountFetched(ts[..|ts| - 1]) + |Fetched(ts[|ts| - 1].resources)|
  }

  ghost predicate AnyApplyError(ts: seq<Template>) {
    ts != [] && (AnyApplyError(ts[..|ts| - 1]) || ts[|ts| - 1].applyError)
  }

  /** The templates and the cluster between two passes. */
  datatype World = World(templates: seq<Template>, objects: map<ResourceKey, Object>)

  ghost function Pass(w: World, rejects: set<ResourceKey>): World {
    var ts := RenderAll(w.templates, ValuesOf(w.templates), w.objects);
    World(ApplyAll(ts, rejects), Applied(w.objects, AllOutputs(ts), rejects))
  }

  ghost function Loop(w: World, rejects: set<ResourceKey>, n: nat): World {
    if n == 0 then w else Pass(Loop(w, rejects, n - 1), rejects)
  }

  // ----- The stages on the heap

  ghost predicate Distinct(templates: seq<TemplateState>) {
    forall i, j :: 0 <= i < j < |templates| ==> templates[i] != templates[j]
  }

  ghost function Snap(templates: seq<TemplateState>): (r: seq<Template>)
    reads templates
    ensures |r| == |templates| && forall i :: 0 <= i < |templates| ==> r[i] == templates[i].Snapshot()
  {
    if templates == [] then [] else Snap(templates[..|templates| - 1]) + [templates[|templates| - 1].Snapshot()]
  }

  /** `buildResourceValues`. */
  method BuildResourceValues(templates: seq<TemplateState>) returns (values: ResourceValues)
    ensures values == ValuesOf(Snap(templates))
  {
    values := map[];
    for i := 0 to |templates|
      invariant values == ValuesOf(Snap(templates)[..i])
    {
      var rs := templates[i].resources;
      var current := [];
      for j := 0 to |rs|
        invariant current == Fetched(rs[..j])
      {
        assert rs[..j + 1][..j] == rs[..j];
        if rs[j].current.Some? {
          current := current + [rs[j].current.value];
        }
      }
      assert rs[..|rs|] == rs;
      values := values[templates[i].name := current];
      assert Snap(templates)[..i + 1][..i] == Snap(templates)[..i];
    }
    assert Snap(templates)[..|templates|] == Snap(templates);
  }

  /** Fetch the resources that have not been fetched; says how many are fetched now. */
  method FetchResources(cluster: Cluster, t: TemplateState) returns (exist: nat)
    modifies t`resources
    ensures t.resources == Fetch(old(t.resources), cluster.objects)
    ensures exist == |Fetched(t.resources)|
  {
    exist := 0;
    ghost var was := t.resources;
    for i := 0 to |t.resources|
      invariant |t.resources| == |was|
      invariant forall j :: 0 <= j < i ==> t.resources[j] == FetchOne(was[j], cluster.objects)
      invariant forall j :: i <= j < |was| ==> t.resources[j] == was[j]
      invariant exist == |Fetched(t.resources[..i])|
    {
      ghost var done := t.resources[..i];
      var key := t.resources[i].rendered.key;
      if t.resources[i].current.None? && key in cluster.objects {
        t.resources := t.resources[i := t.resources[i].(current := Some(cluster.objects[key]))];
      }
      if t.resources[i].current.Some? {
        exist := exist + 1;
      }
      assert t.resources[..i + 1][..i] == done;
    }
    assert t.resources[..|was|] == t.resources;
  }

  /** One template of `renderTemplates`. */
  method RenderTemplate(cluster: Cluster, t: TemplateState, values: ResourceValues) returns (exist: nat)
    modifies t
    ensures t.Snapshot() == RenderOne(old(t.Snapshot()), values, cluster.objects)
    ensures exist == |Fetched(t.resources)|
  {
    if t.resources == [] {
      var rs := t.render(values);
      if rs.None? {
        t.renderError := true;
        return 0;
      }
      t.resources, t.renderError := Unfetched(rs.value), false;
    }
    exist := FetchResources(cluster, t);
  }

  /** The templates hold the states `s`, one each. */
  ghost predicate Hold(templates: seq<TemplateState>, s: seq<Template>)
    reads templates
  {
    |s| == |templates| && forall j :: 0 <= j < |templates| ==> templates[j].Snapshot() == s[j]
  }

  lemma HoldIsSnap(templates: seq<TemplateState>, s: seq<Template>)
    requires Hold(templates, s)
    ensures Snap(templates) == s
  {}

  method RenderAt(cluster: Cluster, templates: seq<TemplateState>, i: nat, values: ResourceValues,
                  ghost s: seq<Template>)
    returns (exist: nat)
    requires Distinct(templates) && i < |templates| && Hold(templates, s)
    modifies templates[i]
    ensures Hold(templates, s[i := RenderOne(s[i], values, cluster.objects)])
    ensures exist == |Fetched(templates[i].resources)|
  {
    exist := RenderTemplate(cluster, templates[i], values);
  }

  /** `renderTemplates`: all templates against the same values and the same cluster. */
  method RenderTemplates(cluster: Cluster, templates: seq<TemplateState>, values: ResourceValues)
    returns (rendered: nat, exist: nat)
    requires Distinct(templates)
    modifies templates
    ensures Snap(templates) == RenderAll(old(Snap(templates)), values, cluster.objects)
    ensures rendered == CountRendered(Snap(templates)) && exist == CountFetched(Snap(templates))
  {
    ghost var goal := RenderAll(Snap(templates), values, cluster.objects);
    rendered, exist := RenderEach(cluster, templates, values, Snap(templates), goal);
    HoldIsSnap(templates, goal);
  }

  method RenderEach(cluster: Cluster, templates: seq<TemplateState>, values: ResourceValues,
                    ghost was: seq<Template>, ghost goal: seq<Template>)
    returns (rendered: nat, exist: nat)
    requires Distinct(templates) && Hold(templates, was) && |goal| == |was|
    requires forall i :: 0 <= i < |was| ==> goal[i] == RenderOne(was[i], values, cluster.objects)
    modifies templates
    ensures Hold(templates, goal)
    ensures rendered == CountRendered(goal) && exist == CountFetched(goal)
  {
    rendered, exist := 0, 0;
    ghost var now := was;
    for i := 0 to |templates|
      invariant Hold(templates, now) && |now| == |was|
      invariant forall j :: 0 <= j < |was| ==> now[j] == if j < i then goal[j] else was[j]
      invariant rendered == CountRendered(goal[..i]) && exist == CountFetched(goal[..i])
    {
      var n := RenderAt(cluster, templates, i, values, now);
      now := now[i := goal[i]];
      rendered, exist := rendered + |templates[i].resources|, exist + n;
      CountNext(goal, i);
    }
    assert now == goal == goal[..|templates|];
  }

  lemma CountNext(ts: seq<Template>, i: nat)
    requires i < |ts|
    ensures CountRendered(ts[..i + 1]) == CountRendered(ts[..i]) + |ts[i].resources|
    ensures CountFetched(ts[..i + 1]) == CountFetched(ts[..i]) + |Fetched(ts[i].resources)|
    ensures AllOutputs(ts[..i + 1]) == AllOutputs(ts[..i]) + Outputs(ts[i].resources)
    ensures AnyApplyError(ts[..i + 1]) <==> AnyApplyError(ts[..i]) || ts[i].applyError
  {
    assert ts[..i + 1][..i] == ts[..i];
  }

  lemma {:induction false} AppliedTwice(objects: map<ResourceKey, Object>, s: seq<Rendered>, t: seq<Rendered>,
                                        rejects: set<ResourceKey>)
    ensures Applied(Applied(objects, s, rejects), t, rejects) == Applied(objects, s + t, rejects)
    decreases |t|
  {
    if t == [] {
      assert s + t == s;
    } else {
      AppliedTwice(objects, s, t[..|t| - 1], rejects);
      assert (s + t)[..|s + t| - 1] == s + t[..|t| - 1];
    }
  }

  lemma AppliedNext(objects: map<ResourceKey, Object>, rs: seq<Rendered>, i: nat, rejects: set<ResourceKey>)
    requires i < |rs|
    ensures Applied(objects, rs[..i + 1], rejects) == Put(Applied(objects, rs[..i], rejects), rs[i], rejects)
  {
    assert rs[..i + 1][..i] == rs[..i];
  }

  /** One template of `applyTemplates`. */
  method ApplyTemplate(cluster: Cluster, t: TemplateState) returns (errors: nat)
    modifies t, cluster
    ensures t.Snapshot() == ApplyOne(old(t.Snapshot()), cluster.rejects)
    ensures cluster.objects == Applied(old(cluster.objects), Outputs(old(t.resources)), cluster.rejects)
    ensures errors > 0 <==> t.applyError
  {
    errors := 0;
    t.applyError := false;
    ghost var rs := t.resources;
    assert cluster.objects == Applied(cluster.objects, [], cluster.rejects);
    for i := 0 to |t.resources|
      invariant t.resources == rs && t.renderError == old(t.renderError)
      invariant cluster.objects == Applied(old(cluster.objects), Outputs(rs)[..i], cluster.rejects)
      invariant t.applyError <==> AnyRejected(rs[..i], cluster.rejects)
      invariant errors > 0 <==> t.applyError
    {
      var ok := cluster.Patch(t.resources[i].rendered);
      if !ok {
        errors, t.applyError := errors + 1, true;
      }
      AppliedNext(old(cluster.objects), Outputs(rs), i, cluster.rejects);
      assert rs[..i + 1][..i] == rs[..i];
    }
    assert Outputs(rs)[..|rs|] == Outputs(rs) && rs[..|rs|] == rs;
  }

  method ApplyAt(cluster: Cluster, templates: seq<TemplateState>, i: nat, ghost s: seq<Template>) returns (errors: nat)
    requires Distinct(templates) && i < |templates| && Hold(templates, s)
    modifies templates[i], cluster
    ensures Hold(templates, s[i := ApplyOne(s[i], cluster.rejects)])
    ensures cluster.objects == Applied(old(cluster.objects), Outputs(s[i].resources), cluster.rejects)
    ensures errors > 0 <==> ApplyOne(s[i], cluster.rejects).applyError
  {
    errors := ApplyTemplate(cluster, templates[i]);
  }

  /** `applyTemplates`: an error of one template does not keep the others from being applied. */
  method ApplyTemplates(cluster: Cluster, templates: seq<TemplateState>) returns (errors: nat)
    requires Distinct(templates)
    modifies templates, cluster
    ensures Snap(templates) == ApplyAll(old(Snap(templates)), cluster.rejects)
    ensures cluster.objects == Applied(old(cluster.objects), AllOutputs(old(Snap(templates))), cluster.rejects)
    ensures errors > 0 <==> AnyApplyError(Snap(templates))
  {
    ghost var goal := ApplyAll(Snap(templates), cluster.rejects);
    errors := ApplyEach(cluster, templates, Snap(templates), goal);
    HoldIsSnap(templates, goal);
  }

  method ApplyEach(cluster: Cluster, templates: seq<TemplateState>, ghost was: seq<Template>, ghost goal: seq<Template>)
    returns (errors: nat)
    requires Distinct(templates) && Hold(templates, was) && |goal| == |was|
    requires forall i :: 0 <= i < |was| ==> goal[i] == ApplyOne(was[i], cluster.rejects)
    modifies templates, cluster
    ensures Hold(templates, goal)
    ensures cluster.objects == Applied(old(cluster.objects), AllOutputs(was), cluster.rejects)
    ensures errors > 0 <==> AnyApplyError(goal)
  {
    errors := 0;
    ghost var now := was;
    assert cluster.objects == Applied(cluster.objects, [], cluster.rejects);
    for i := 0 to |templates|
      invariant Hold(templates, now) && |now| == |was|
      invariant forall j :: 0 <= j < |was| ==> now[j] == if j < i then goal[j] else was[j]
      invariant cluster.objects == Applied(old(cluster.objects), AllOutputs(was[..i]), cluster.rejects)
      invariant errors > 0 <==> AnyApplyError(goal[..i])
    {
      var n := ApplyAt(cluster, templates, i, now);
      now := now[i := goal[i]];
      errors := errors + n;
      AppliedTwice(old(cluster.objects), AllOutputs(was[..i]), Outputs(was[i].resources), cluster.rejects);
      CountNext(was, i);
      CountNext(goal, i);
    }
    assert now == goal == goal[..|templates|] && was[..|templates|] == was;
  }

  /**
   The template loop of the gateway reconcile: as many passes as templates. The counters are
   those of the last pass, and count what the templates hold after the loop.
   */
  method RunLoop(cluster: Cluster, templates: seq<TemplateState>, ghost start: World)
    returns (rendered: nat, exist: nat, ghost end: World)
    requires Distinct(templates) && Snap(templates) == start.templates && cluster.objects == start.objects
    requires forall i :: 0 <= i < |start.templates| ==> start.templates[i].resources == []
    modifies templates, cluster
    ensures Snap(templates) == end.templates && cluster.objects == end.objects
    ensures end == Loop(start, cluster.rejects, |templates|)
    ensures rendered == CountRendered(end.templates) && exist == CountFetched(end.templates)
  {
    rendered, exist, end := 0, 0, start;
    NothingCounted(start.templates);
    for attempt := 0 to |templates|
      invariant Snap(templates) == end.templates && cluster.objects == end.objects
      invariant end == Loop(start, cluster.rejects, attempt)
      invariant rendered == CountRendered(end.templates) && exist == CountFetched(end.templates)
    {
      var errors;
      rendered, exist, errors := RunPass(cluster, templates);
      end := Pass(end, cluster.rejects);
    }
  }

  /** None of the passes before the `n`th ended with an apply error. */
  ghost predicate CleanBefore(w: World, rejects: set<ResourceKey>, n: nat) {
    n <= 1 || (CleanBefore(w, rejects, n - 1) && !AnyApplyError(Loop(w, rejects, n - 1).templates))
  }

  /** The template loop of the route reconcile gives up after the first pass with an apply error. */
  method RunRouteLoop(cluster: Cluster, templates: seq<TemplateState>, ghost start: World)
    returns (rendered: nat, exist: nat, passes: nat, failed: bool, ghost end: World)
    requires Distinct(templates) && Snap(templates) == start.templates && cluster.objects == start.objects
    requires forall i :: 0 <= i < |start.templates| ==> start.templates[i].resources == []
    modifies templates, cluster
    ensures Snap(templates) == end.templates && cluster.objects == end.objects
    ensures end == Loop(start, cluster.rejects, passes) && CleanBefore(start, cluster.rejects, passes)
    ensures passes <= |templates| && (!failed ==> passes == |templates|)
    ensures failed <==> passes > 0 && AnyApplyError(end.templates)
    ensures rendered == CountRendered(end.templates) && exist == CountFetched(end.templates)
  {
    rendered, exist, passes, failed, end := 0, 0, 0, false, start;
    NothingCounted(start.templates);
    while passes < |templates| && !failed
      invariant passes <= |templates|
      invariant Snap(templates) == end.templates && cluster.objects == end.objects
      invariant end == Loop(start, cluster.rejects, passes) && CleanBefore(start, cluster.rejects, passes)
      invariant failed <==> passes > 0 && AnyApplyError(end.templates)
      invariant rendered == CountRendered(end.templates) && exist == CountFetched(end.templates)
      decreases |templates| - passes
    {
      rendered, exist, failed, end := RoutePass(cluster, templates, start, passes, end);
      passes := passes + 1;
    }
  }

  method RoutePass(cluster: Cluster, templates: seq<TemplateState>, ghost start: World, ghost n: nat, ghost now: World)
    returns (rendered: nat, exist: nat, failed: bool, ghost next: World)
    requires Distinct(templates) && Snap(templates) == now.templates && cluster.objects == now.objects
    requires now == Loop(start, cluster.rejects, n) && CleanBefore(start, cluster.rejects, n)
    requires n > 0 ==> !AnyApplyError(now.templates)
    modifies templates, cluster
    ensures Snap(templates) == next.templates && cluster.objects == next.objects
    ensures next == Loop(start, cluster.rejects, n + 1) && CleanBefore(start, cluster.rejects, n + 1)
    ensures rendered == CountRendered(next.templates) && exist == CountFetched(next.templates)
    ensures failed <==> AnyApplyError(next.templates)
  {
    var errors;
    rendered, exist, errors := RunPass(cluster, templates);
    failed, next := errors > 0, Pass(now, cluster.rejects);
    LoopNext(start, cluster.rejects, n, now);
  }

  lemma LoopNext(w: World, rejects: set<ResourceKey>, n: nat, now: World)
    requires now == Loop(w, rejects, n) && CleanBefore(w, rejects, n) && (n > 0 ==> !AnyApplyError(now.templates))
    ensures Loop(w, rejects, n + 1) == Pass(now, rejects) && CleanBefore(w, rejects, n + 1)
  {}

  /** One attempt of the loop. */
  method RunPass(cluster: Cluster, templates: seq<TemplateState>) returns (rendered: nat, exist: nat, errors: nat)
    requires Distinct(templates)
    modifies templates, cluster
    ensures World(Snap(templates), cluster.objects)
         == Pass(old(World(Snap(templates), cluster.objects)), cluster.rejects)
    ensures rendered == CountRendered(Snap(templates)) && exist == CountFetched(Snap(templates))
    ensures errors > 0 <==> AnyApplyError(Snap(templates))
  {
    var values := BuildResourceValues(templates);
    rendered, exist := RenderTemplates(cluster, templates, values);
    ghost var ts := Snap(templates);
    errors := ApplyTemplates(cluster, templates);
    ApplyKeepsCounts(ts, cluster.rejects);
  }

  lemma {:induction false} NothingCounted(ts: seq<Template>)
    requires forall i :: 0 <= i < |ts| ==> ts[i].resources == []
    ensures CountRendered(ts) == 0 == CountFetched(ts)
  {
    if ts == [] {
    } else {
      NothingCounted(ts[..|ts| - 1]);
    }
  }

  lemma {:induction false} ApplyKeepsCounts(ts: seq<Template>, rejects: set<ResourceKey>)
    ensures CountRendered(ApplyAll(ts, rejects)) == CountRendered(ts)
    ensures CountFetched(ApplyAll(ts, rejects)) == CountFetched(ts)
  {
    if ts == [] {
    } else {
      ApplyKeepsCounts(ts[..|ts| - 1], rejects);
      assert ApplyAll(ts, rejects)[..|ts| - 1] == ApplyAll(ts[..|ts| - 1], rejects);
    }
  }
}
