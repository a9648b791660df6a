/**
 What the template loop achieves: it moves through the sets of `TemplateGraph`. This needs to
 know of every template what it reads and which resources it renders to; how a template does
 that, and what it writes into the resources, is left open.
 */
module TemplateLoop {
  import opened Common
  import opened Templating
  import G = TemplateGraph

  // ----- Facts about single stages

  predicate AllFetched(rs: seq<Resource>) {
    forall i :: 0 <= i < |rs| ==> rs[i].current.Some?
  }

  lemma {:induction false} FetchedLength(rs: seq<Resource>)
    ensures |Fetched(rs)| <= |rs|
    ensures |Fetched(rs)| == |rs| <==> AllFetched(rs)
  {
    if rs == [] {
    } else {
      FetchedLength(rs[..|rs| - 1]);
      assert forall i :: 0 <= i < |rs| - 1 ==> rs[..|rs| - 1][i] == rs[i];
    }
  }

  ghost predicate UniqueNames(ts: seq<Template>) {
    forall i, j :: 0 <= i < j < |ts| ==> ts[i].name != ts[j].name
  }

  lemma {:induction false} ValuesAt(ts: seq<Template>, i: nat)
    requires UniqueNames(ts) && i < |ts|
    ensures ts[i].name in ValuesOf(ts) && ValuesOf(ts)[ts[i].name] == Fetched(ts[i].resources)
  {
    var init := ts[..|ts| - 1];
    if i < |ts| - 1 {
      ValuesAt(init, i);
    }
  }

  lemma {:induction false} ValuesKeys(ts: seq<Template>, d: string)
    ensures d in ValuesOf(ts) <==> exists i :: 0 <= i < |ts| && ts[i].name == d
  {
    if ts == [] {
    } else {
      ValuesKeys(ts[..|ts| - 1], d);
      assert forall i :: 0 <= i < |ts| - 1 ==> ts[..|ts| - 1][i] == ts[i];
    }
  }

  lemma {:induction false} AllOutputsMember(ts: seq<Template>, r: Rendered)
    ensures r in AllOutputs(ts) <==> exists i :: 0 <= i < |ts| && r in Outputs(ts[i].resources)
  {
    if ts == [] {
    } else {
      AllOutputsMember(ts[..|ts| - 1], r);
      assert forall i :: 0 <= i < |ts| - 1 ==> ts[..|ts| - 1][i] == ts[i];
    }
  }

  /** Applying creates what it does not reject, and removes nothing. */
  lemma {:induction false} AppliedKeys(objects: map<ResourceKey, Object>, rs: seq<Rendered>, rejects: set<ResourceKey>,
                                       k: ResourceKey)
    ensures k in Applied(objects, rs, rejects) <==> k in objects || (k !in rejects && exists r :: r in rs && r.key == k)
  {
    if rs == [] {
    } else {
      AppliedKeys(objects, rs[..|rs| - 1], rejects, k);
      assert rs == rs[..|rs| - 1] + [rs[|rs| - 1]];
    }
  }

  // ----- What templates read and render

  /** A template reads all resources of the templates `needs`, and renders to the resources `keys`. */
  datatype Profile = Profile(needs: set<string>, keys: seq<ResourceKey>)

  type Profiles = map<string, Profile>

  function KeysOf(rs: seq<Rendered>): (r: seq<ResourceKey>)
    ensures |r| == |rs| && forall i :: 0 <= i < |rs| ==> r[i] == rs[i].key
  {
    seq(|rs|, i requires 0 <= i < |rs| => rs[i].key)
  }

  /** `t` fails exactly as long as a resource that it reads is missing, and always renders to the same resources. */
  ghost predicate Behaves(t: Template, ps: Profiles)
    requires t.name in ps
  {
    forall values: ResourceValues :: values.Keys == ps.Keys ==>
      && (t.render(values).Some? <==>
            forall d :: d in ps[t.name].needs ==> d in ps && |values[d]| >= |ps[d].keys|)
      && (t.render(values).Some? ==> KeysOf(t.render(values).value) == ps[t.name].keys)
  }

  /** No resource belongs to two templates. */
  ghost predicate OwnKeys(ps: Profiles) {
    forall x, y, k :: x in ps && y in ps && k in ps[x].keys && k in ps[y].keys ==> x == y
  }

  /** The names of the templates are different, and are those that have a profile. */
  ghost predicate Named(ts: seq<Template>, ps: Profiles) {
    && UniqueNames(ts)
    && (forall i :: 0 <= i < |ts| ==> ts[i].name in ps)
    && (forall x :: x in ps ==> exists i :: 0 <= i < |ts| && ts[i].name == x)
  }

  ghost predicate AllBehave(ts: seq<Template>, ps: Profiles) {
    forall i :: 0 <= i < |ts| ==> ts[i].name in ps && Behaves(ts[i], ps)
  }

  ghost predicate WellFormed(ts: seq<Template>, ps: Profiles) {
    Named(ts, ps) && AllBehave(ts, ps) && OwnKeys(ps)
  }

  lemma ProfileCount(ts: seq<Template>, ps: Profiles)
    requires Named(ts, ps)
    ensures |ps| == |ts|
  {
    var names := seq(|ts|, i requires 0 <= i < |ts| => ts[i].name);
    G.DistinctSize(names);
    forall x ensures x in ps <==> x in names {
      if x in ps {
        var i :| 0 <= i < |ts| && ts[i].name == x;
        assert names[i] == x;
      }
    }
    assert ps.Keys == set x | x in names;
  }

  /** The resources of a template exist, or applying them would create them. */
  ghost predicate Creatable(p: Profile, objects: map<ResourceKey, Object>, rejects: set<ResourceKey>) {
    p.keys != [] && forall k :: k in p.keys ==> k in objects || k !in rejects
  }

  /** The templates that have no resources, or one that is rejected and does not exist. */
  ghost function Hopeless(ps: Profiles, objects: map<ResourceKey, Object>, rejects: set<ResourceKey>): set<string> {
    set x | x in ps && !Creatable(ps[x], objects, rejects)
  }

  /** The templates that have to be fetched for `x` to render. */
  ghost function Reads(ps: Profiles, x: string): set<string>
    requires x in ps
  {
    set d | d in ps[x].needs && (d in ps ==> ps[d].keys != [])
  }

  /** A hopeless template is never fetched, as if it read from itself. */
  ghost function GraphOf(ps: Profiles, hopeless: set<string>): (g: G.Graph)
    ensures g.Keys == ps.Keys && |g| == |ps|
  {
    var g := map x | x in ps :: if x in hopeless then {x} else Reads(ps, x);
    assert g.Keys == ps.Keys && |g| == |g.Keys| && |ps| == |ps.Keys|;
    g
  }

  predicate IsRendered(t: Template) {
    t.resources != []
  }

  predicate IsFetched(t: Template) {
    t.resources != [] && AllFetched(t.resources)
  }

  ghost predicate Exists(p: Profile, objects: map<ResourceKey, Object>) {
    p.keys != [] && forall k :: k in p.keys ==> k in objects
  }

  // ----- The loop as a walk through sets of templates

  ghost function RenderedNames(ts: seq<Template>, hopeless: set<string>): set<string> {
    set i | 0 <= i < |ts| && IsRendered(ts[i]) && ts[i].name !in hopeless :: ts[i].name
  }

  ghost function FetchedNames(ts: seq<Template>): set<string> {
    set i | 0 <= i < |ts| && IsFetched(ts[i]) :: ts[i].name
  }

  ghost function ExistingNames(ps: Profiles, objects: map<ResourceKey, Object>): set<string> {
    set x | x in ps && Exists(ps[x], objects)
  }

  ghost function PhaseOf(w: World, ps: Profiles, hopeless: set<string>): G.Phase {
    G.Phase(RenderedNames(w.templates, hopeless), FetchedNames(w.templates), ExistingNames(ps, w.objects))
  }

  function Keys(rs: seq<Resource>): (r: seq<ResourceKey>)
    ensures |r| == |rs| && forall i :: 0 <= i < |rs| ==> r[i] == rs[i].rendered.key
  {
    seq(|rs|, i requires 0 <= i < |rs| => rs[i].rendered.key)
  }

  /** What a reconcile keeps true of a template. */
  ghost predicate Sound(t: Template, p: Profile, objects: map<ResourceKey, Object>) {
    && (t.resources == [] || Keys(t.resources) == p.keys)
    && forall i :: 0 <= i < |t.resources| && t.resources[i].current.Some? ==> t.resources[i].rendered.key in objects
  }

  ghost predicate AllSound(w: World, ps: Profiles) {
    forall i :: 0 <= i < |w.templates| ==>
      w.templates[i].name in ps && Sound(w.templates[i], ps[w.templates[i].name], w.objects)
  }

  ghost predicate Good(w: World, ps: Profiles) {
    WellFormed(w.templates, ps) && AllSound(w, ps)
  }

  /** Template `j` has as many objects as resources exactly when it is fetched, or has no resources. */
  lemma ReadableAt(w: World, ps: Profiles, j: nat)
    requires UniqueNames(w.templates) && AllSound(w, ps) && j < |w.templates|
    ensures var t := w.templates[j];
            && t.name in ValuesOf(w.templates)
            && (|ValuesOf(w.templates)[t.name]| >= |ps[t.name].keys| <==> (ps[t.name].keys != [] ==> IsFetched(t)))
  {
    var t := w.templates[j];
    ValuesAt(w.templates, j);
    FetchedLength(t.resources);
    assert t.resources == [] || |t.resources| == |ps[t.name].keys|;
  }

  lemma FetchedNamed(ts: seq<Template>, j: nat)
    requires UniqueNames(ts) && j < |ts|
    ensures ts[j].name in FetchedNames(ts) <==> IsFetched(ts[j])
  {}

  /** A template can read what it reads from `d` exactly when `d` is fetched, or has no resources. */
  lemma ReadableIff(w: World, ps: Profiles, d: string)
    requires Named(w.templates, ps) && AllSound(w, ps)
    ensures (d in ps && d in ValuesOf(w.templates) && |ValuesOf(w.templates)[d]| >= |ps[d].keys|)
       <==> ((d in ps ==> ps[d].keys != []) ==> d in FetchedNames(w.templates))
  {
    if d in ps {
      var j :| 0 <= j < |w.templates| && w.templates[j].name == d;
      ReadableAt(w, ps, j);
      FetchedNamed(w.templates, j);
    }
  }

  lemma ReadsIff(w: World, ps: Profiles, x: string)
    requires Named(w.templates, ps) && AllSound(w, ps) && x in ps
    ensures ValuesOf(w.templates).Keys == ps.Keys
    ensures (forall d :: d in ps[x].needs ==> d in ps && |ValuesOf(w.templates)[d]| >= |ps[d].keys|)
       <==> Reads(ps, x) <= FetchedNames(w.templates)
  {
    var values := ValuesOf(w.templates);
    forall d ensures d in values <==> d in ps {
      ValuesKeys(w.templates, d);
    }
    forall d ensures (d in ps && |values[d]| >= |ps[d].keys|)
                <==> ((d in ps ==> ps[d].keys != []) ==> d in FetchedNames(w.templates)) {
      ReadableIff(w, ps, d);
    }
  }

  /** A template renders exactly when everything it reads has been fetched. */
  lemma RendersIff(w: World, ps: Profiles, i: nat)
    requires Good(w, ps) && i < |w.templates|
    ensures w.templates[i].render(ValuesOf(w.templates)).Some?
       <==> Reads(ps, w.templates[i].name) <= FetchedNames(w.templates)
  {
    ReadsIff(w, ps, w.templates[i].name);
    BehavesNow(w.templates[i], ps, ValuesOf(w.templates));
  }

  lemma BehavesNow(t: Template, ps: Profiles, values: ResourceValues)
    requires t.name in ps && Behaves(t, ps) && values.Keys == ps.Keys
    ensures t.render(values).Some? <==> forall d :: d in ps[t.name].needs ==> d in ps && |values[d]| >= |ps[d].keys|
    ensures t.render(values).Some? ==> KeysOf(t.render(values).value) == ps[t.name].keys
  {}

  /** What the render stage does to template `i`. */
  lemma RenderAt(w: World, ps: Profiles, i: nat)
    requires Good(w, ps) && i < |w.templates|
    ensures var t, p := w.templates[i], ps[w.templates[i].name];
            var r := RenderStage(w)[i];
            && Sound(r, p, w.objects)
            && (p.keys != [] ==> (IsRendered(r) <==> IsRendered(t) || Reads(ps, t.name) <= FetchedNames(w.templates)))
            && (IsFetched(r) <==> IsRendered(r) && Exists(p, w.objects))
            && (IsFetched(t) ==> IsFetched(r))
  {
    var t, values := w.templates[i], ValuesOf(w.templates);
    RendersIff(w, ps, i);
    ReadsIff(w, ps, t.name);
    BehavesNow(t, ps, values);
    RenderOneSound(t, ps[t.name], values, w.objects);
  }

  lemma RenderOneSound(t: Template, p: Profile, values: ResourceValues, objects: map<ResourceKey, Object>)
    requires Sound(t, p, objects) && (t.render(values).Some? ==> KeysOf(t.render(values).value) == p.keys)
    ensures var r := RenderOne(t, values, objects);
            && Sound(r, p, objects)
            && (p.keys != [] ==> (IsRendered(r) <==> IsRendered(t) || t.render(values).Some?))
            && (IsFetched(r) <==> IsRendered(r) && Exists(p, objects))
            && (IsFetched(t) ==> IsFetched(r))
  {
    var r := RenderOne(t, values, objects);
    if t.resources == [] && t.render(values).Some? {
      assert KeysOf(t.render(values).value) == Keys(r.resources);
    } else {
      assert Keys(r.resources) == Keys(t.resources);
    }
    if IsRendered(r) {
      assert Keys(r.resources) == p.keys;
      forall j | 0 <= j < |r.resources| ensures r.resources[j].current.Some? <==> p.keys[j] in objects {
        assert r.resources[j].rendered.key == p.keys[j];
      }
    }
  }

  /** The templates after the render stage of a pass. */
  ghost function RenderStage(w: World): (ts: seq<Template>)
    ensures SameKind(w.templates, ts)
  {
    RenderAll(w.templates, ValuesOf(w.templates), w.objects)
  }

  /** The same templates, perhaps at different stages. */
  ghost predicate SameKind(ts: seq<Template>, ts': seq<Template>) {
    && |ts'| == |ts|
    && forall i :: 0 <= i < |ts| ==> ts'[i].name == ts[i].name && ts'[i].render == ts[i].render
  }

  /** Well-formedness does not look at progress. */
  lemma SameNames(ts: seq<Template>, ts': seq<Template>, ps: Profiles)
    requires Named(ts, ps) && SameKind(ts, ts')
    ensures Named(ts', ps)
  {
    forall x | x in ps ensures exists i :: 0 <= i < |ts'| && ts'[i].name == x {
      var i :| 0 <= i < |ts| && ts[i].name == x;
      assert ts'[i].name == x;
    }
  }

  lemma SameBehaviour(ts: seq<Template>, ts': seq<Template>, ps: Profiles)
    requires AllBehave(ts, ps) && SameKind(ts, ts')
    ensures AllBehave(ts', ps)
  {
    forall i | 0 <= i < |ts'| ensures ts'[i].name in ps && Behaves(ts'[i], ps) {
      assert Behaves(ts[i], ps);
    }
  }

  lemma RenderStageSound(w: World, ps: Profiles)
    requires Good(w, ps)
    ensures AllSound(World(RenderStage(w), w.objects), ps)
  {
    forall j | 0 <= j < |RenderStage(w)|
      ensures var t := RenderStage(w)[j]; t.name in ps && Sound(t, ps[t.name], w.objects)
    {
      RenderAt(w, ps, j);
    }
  }

  /** Applying the outputs of `ts` creates a key of `ts[i]` exactly when it is not rejected and `ts[i]` is rendered. */
  lemma CreatedIff(w: World, ps: Profiles, rejects: set<ResourceKey>, i: nat, k: ResourceKey)
    requires Named(w.templates, ps) && AllSound(w, ps) && OwnKeys(ps)
    requires i < |w.templates| && k in ps[w.templates[i].name].keys
    ensures k in Applied(w.objects, AllOutputs(w.templates), rejects)
       <==> k in w.objects || (k !in rejects && IsRendered(w.templates[i]))
  {
    AppliedKeys(w.objects, AllOutputs(w.templates), rejects, k);
    if r :| r in AllOutputs(w.templates) && r.key == k {
      OutputOwner(w, ps, i, r);
    }
    if IsRendered(w.templates[i]) {
      var r := OutputFor(w, ps, i, k);
    }
  }

  lemma OutputOwner(w: World, ps: Profiles, i: nat, r: Rendered)
    requires Named(w.templates, ps) && AllSound(w, ps) && OwnKeys(ps)
    requires i < |w.templates| && r.key in ps[w.templates[i].name].keys && r in AllOutputs(w.templates)
    ensures IsRendered(w.templates[i])
  {
    var ts := w.templates;
    AllOutputsMember(ts, r);
    var j :| 0 <= j < |ts| && r in Outputs(ts[j].resources);
    assert Sound(ts[j], ps[ts[j].name], w.objects);
    assert r.key in Keys(ts[j].resources);
    assert ts[j].name == ts[i].name;
  }

  lemma OutputFor(w: World, ps: Profiles, i: nat, k: ResourceKey) returns (r: Rendered)
    requires AllSound(w, ps) && i < |w.templates| && k in ps[w.templates[i].name].keys && IsRendered(w.templates[i])
    ensures r in AllOutputs(w.templates) && r.key == k
  {
    var rs := w.templates[i].resources;
    assert Keys(rs) == ps[w.templates[i].name].keys;
    var n :| 0 <= n < |rs| && Keys(rs)[n] == k;
    r := Outputs(rs)[n];
    AllOutputsMember(w.templates, r);
  }

  /** What the apply stage does to the existence of template `i`. */
  lemma ExistsAfter(w: World, ps: Profiles, rejects: set<ResourceKey>, i: nat)
    requires Named(w.templates, ps) && AllSound(w, ps) && OwnKeys(ps) && i < |w.templates|
    ensures var p := ps[w.templates[i].name];
            var after := Applied(w.objects, AllOutputs(w.templates), rejects);
            if Creatable(p, w.objects, rejects) then
              Exists(p, after) <==> Exists(p, w.objects) || IsRendered(w.templates[i])
            else
              !Exists(p, w.objects) && !Exists(p, after)
  {
    var p := ps[w.templates[i].name];
    forall k | k in p.keys
      ensures k in Applied(w.objects, AllOutputs(w.templates), rejects)
         <==> k in w.objects || (k !in rejects && IsRendered(w.templates[i]))
    {
      CreatedIff(w, ps, rejects, i, k);
    }
  }

  /** A rejected key exists after a pass exactly if it did before, so hopeless templates stay the same. */
  lemma HopelessStays(ps: Profiles, objects: map<ResourceKey, Object>, rs: seq<Rendered>, rejects: set<ResourceKey>)
    ensures Hopeless(ps, Applied(objects, rs, rejects), rejects) == Hopeless(ps, objects, rejects)
  {
    var after := Applied(objects, rs, rejects);
    forall k ensures (k in after || k !in rejects) <==> (k in objects || k !in rejects) {
      AppliedKeys(objects, rs, rejects, k);
    }
    forall x | x in ps ensures Creatable(ps[x], after, rejects) <==> Creatable(ps[x], objects, rejects) {}
  }

  /** What a pass does to one template: `ready` to render or not, its resources existing `before` and `after`. */
  ghost predicate Stepped(t: Template, t': Template, creatable: bool, ready: bool, before: bool, after: bool) {
    && t'.name == t.name
    && (IsFetched(t') <==> IsRendered(t') && before)
    && (IsFetched(t) ==> IsFetched(t'))
    && (creatable ==> (IsRendered(t') <==> IsRendered(t) || ready) && (after <==> before || IsRendered(t')))
    && (!creatable ==> !before && !after)
  }

  lemma PassAt(w: World, ps: Profiles, rejects: set<ResourceKey>, i: nat)
    requires Good(w, ps) && i < |w.templates|
    ensures var w', t := Pass(w, rejects), w.templates[i];
            var p := ps[t.name];
            && Sound(w'.templates[i], p, w'.objects)
            && Stepped(t, w'.templates[i], Creatable(p, w.objects, rejects),
                       Reads(ps, t.name) <= FetchedNames(w.templates), Exists(p, w.objects), Exists(p, w'.objects))
  {
    RenderAt(w, ps, i);
    RenderStageSound(w, ps);
    SameNames(w.templates, RenderStage(w), ps);
    ExistsAfter(World(RenderStage(w), w.objects), ps, rejects, i);
    StillSound(RenderStage(w)[i], ps[w.templates[i].name], w.objects, AllOutputs(RenderStage(w)), rejects);
  }

  lemma StillSound(t: Template, p: Profile, objects: map<ResourceKey, Object>, rs: seq<Rendered>,
                   rejects: set<ResourceKey>)
    requires Sound(t, p, objects)
    ensures Sound(ApplyOne(t, rejects), p, Applied(objects, rs, rejects))
  {
    forall k | k in objects ensures k in Applied(objects, rs, rejects) {
      AppliedKeys(objects, rs, rejects, k);
    }
  }

  /** What every pass keeps, the loop keeps. */
  lemma {:induction false} LoopInvariant(w: World, rejects: set<ResourceKey>, n: nat, inv: (World, nat) -> bool)
    requires inv(w, 0)
    requires forall u, k: nat :: inv(u, k) ==> inv(Pass(u, rejects), k + 1)
    ensures inv(Loop(w, rejects, n), n)
  {
    if n == 0 {
    } else {
      LoopInvariant(w, rejects, n - 1, inv);
      var u := Loop(w, rejects, n - 1);
      assert inv(Pass(u, rejects), (n - 1) + 1);
    }
  }

  /** `w` stands where the graph of its templates stands at `p`. */
  ghost predicate At(w: World, ps: Profiles, rejects: set<ResourceKey>, hopeless: set<string>, p: G.Phase) {
    Good(w, ps) && Hopeless(ps, w.objects, rejects) == hopeless && PhaseOf(w, ps, hopeless) == p
  }

  /** A pass of the controller is a pass of `TemplateGraph`. */
  lemma PassRefines(w: World, ps: Profiles, rejects: set<ResourceKey>, hopeless: set<string>, p: G.Phase)
    requires At(w, ps, rejects, hopeless, p)
    ensures At(Pass(w, rejects), ps, rejects, hopeless, G.Pass(GraphOf(ps, hopeless), p))
  {
    PassKeepsGood(w, ps, rejects);
    HopelessStays(ps, w.objects, AllOutputs(RenderStage(w)), rejects);
    AllStepped(w, ps, rejects, hopeless);
    HopelessUnfetched(w, ps, hopeless);
    SetsStep(w, Pass(w, rejects), ps, hopeless);
  }

  lemma PassKeepsKind(w: World, rejects: set<ResourceKey>)
    ensures SameKind(w.templates, Pass(w, rejects).templates)
  {}

  lemma PassKeepsGood(w: World, ps: Profiles, rejects: set<ResourceKey>)
    requires Good(w, ps)
    ensures Good(Pass(w, rejects), ps)
  {
    PassKeepsKind(w, rejects);
    KindKeepsShape(w.templates, Pass(w, rejects).templates, ps);
    PassKeepsSound(w, ps, rejects);
  }

  lemma KindKeepsShape(ts: seq<Template>, ts': seq<Template>, ps: Profiles)
    requires WellFormed(ts, ps) && SameKind(ts, ts')
    ensures WellFormed(ts', ps)
  {
    SameNames(ts, ts', ps);
    SameBehaviour(ts, ts', ps);
  }

  lemma PassKeepsSound(w: World, ps: Profiles, rejects: set<ResourceKey>)
    requires Good(w, ps)
    ensures AllSound(Pass(w, rejects), ps)
  {
    forall i | 0 <= i < |w.templates|
      ensures var t := Pass(w, rejects).templates[i]; t.name in ps && Sound(t, ps[t.name], Pass(w, rejects).objects)
    {
      PassAt(w, ps, rejects, i);
    }
  }

  /** A pass, template by template, in terms of the graph. */
  ghost predicate AllStep(w: World, w': World, ps: Profiles, hopeless: set<string>) {
    && |w'.templates| == |w.templates|
    && forall i :: 0 <= i < |w.templates| ==>
         var x := w.templates[i].name;
         && x in ps
         && Stepped(w.templates[i], w'.templates[i], x !in hopeless, Reads(ps, x) <= FetchedNames(w.templates),
                    Exists(ps[x], w.objects), Exists(ps[x], w'.objects))
  }

  lemma AllStepped(w: World, ps: Profiles, rejects: set<ResourceKey>, hopeless: set<string>)
    requires Good(w, ps) && Hopeless(ps, w.objects, rejects) == hopeless
    ensures AllStep(w, Pass(w, rejects), ps, hopeless)
  {
    forall i | 0 <= i < |w.templates|
      ensures var x, w' := w.templates[i].name, Pass(w, rejects);
              && x in ps
              && Stepped(w.templates[i], w'.templates[i], x !in hopeless, Reads(ps, x) <= FetchedNames(w.templates),
                         Exists(ps[x], w.objects), Exists(ps[x], w'.objects))
    {
      PassAt(w, ps, rejects, i);
    }
  }

  ghost predicate HopeUnfetched(ts: seq<Template>, hopeless: set<string>) {
    forall i :: 0 <= i < |ts| && ts[i].name in hopeless ==> !IsFetched(ts[i])
  }

  lemma HopelessUnfetched(w: World, ps: Profiles, hopeless: set<string>)
    requires AllSound(w, ps) && forall x :: x in hopeless ==> x in ps && !Exists(ps[x], w.objects)
    ensures HopeUnfetched(w.templates, hopeless)
  {
    forall i | 0 <= i < |w.templates| && w.templates[i].name in hopeless ensures !IsFetched(w.templates[i]) {
      FetchedExists(w.templates[i], ps[w.templates[i].name], w.objects);
    }
  }

  lemma FetchedExists(t: Template, p: Profile, objects: map<ResourceKey, Object>)
    requires Sound(t, p, objects)
    ensures IsFetched(t) ==> Exists(p, objects)
  {
    if IsFetched(t) {
      forall k | k in p.keys ensures k in objects {
        var n :| 0 <= n < |t.resources| && Keys(t.resources)[n] == k;
        assert t.resources[n].current.Some?;
      }
    }
  }

  lemma SetsStep(w: World, w': World, ps: Profiles, hopeless: set<string>)
    requires Named(w.templates, ps) && AllStep(w, w', ps, hopeless) && HopeUnfetched(w.templates, hopeless)
    ensures PhaseOf(w', ps, hopeless) == G.Pass(GraphOf(ps, hopeless), PhaseOf(w, ps, hopeless))
  {
    var s, s', g := PhaseOf(w, ps, hopeless), PhaseOf(w', ps, hopeless), GraphOf(ps, hopeless);
    forall x ensures NameSteps(g, s, s', x) {
      NameStep(w, w', ps, hopeless, x);
    }
    PhaseSteps(g, s, s');
  }

  /** What a pass of the graph does to one name. */
  ghost predicate NameSteps(g: G.Graph, s: G.Phase, s': G.Phase, x: string) {
    && (x in s'.rendered <==> x in s.rendered || x in G.Ready(g, s.fetched))
    && (x in s'.fetched <==> x in s.fetched || (x in s'.rendered && x in s.existing))
    && (x in s'.existing <==> x in s.existing || x in s'.rendered)
  }

  lemma PhaseSteps(g: G.Graph, s: G.Phase, s': G.Phase)
    requires forall x :: NameSteps(g, s, s', x)
    ensures s' == G.Pass(g, s)
  {
    forall x ensures x in s'.rendered <==> x in s.rendered + G.Ready(g, s.fetched) {
      assert NameSteps(g, s, s', x);
    }
    forall x ensures x in s'.fetched <==> x in s.fetched + s'.rendered * s.existing {
      assert NameSteps(g, s, s', x);
    }
    forall x ensures x in s'.existing <==> x in s.existing + s'.rendered {
      assert NameSteps(g, s, s', x);
    }
  }

  lemma NameStep(w: World, w': World, ps: Profiles, hopeless: set<string>, x: string)
    requires Named(w.templates, ps) && AllStep(w, w', ps, hopeless) && HopeUnfetched(w.templates, hopeless)
    ensures NameSteps(GraphOf(ps, hopeless), PhaseOf(w, ps, hopeless), PhaseOf(w', ps, hopeless), x)
  {
    if x in ps {
      var i :| 0 <= i < |w.templates| && w.templates[i].name == x;
      NamesAt(w, ps, hopeless, i);
      SameUnique(w.templates, w'.templates);
      NamesAt(w', ps, hopeless, i);
    } else {
      assert forall i :: 0 <= i < |w.templates| ==> w'.templates[i].name != x;
    }
  }

  lemma SameUnique(ts: seq<Template>, ts': seq<Template>)
    requires UniqueNames(ts) && |ts'| == |ts| && forall i :: 0 <= i < |ts| ==> ts'[i].name == ts[i].name
    ensures UniqueNames(ts')
  {}

  lemma NamesAt(w: World, ps: Profiles, hopeless: set<string>, i: nat)
    requires UniqueNames(w.templates) && i < |w.templates| && w.templates[i].name in ps
    ensures var s, t := PhaseOf(w, ps, hopeless), w.templates[i];
            && (t.name in s.rendered <==> IsRendered(t) && t.name !in hopeless)
            && (t.name in s.fetched <==> IsFetched(t))
            && (t.name in s.existing <==> Exists(ps[t.name], w.objects))
  {}

  /** Where `n` passes of the graph lead from `p`. */
  ghost predicate Walked(w: World, ps: Profiles, rejects: set<ResourceKey>, hopeless: set<string>, p: G.Phase, n: nat) {
    At(w, ps, rejects, hopeless, G.Passes(GraphOf(ps, hopeless), p, n))
  }

  lemma WalkOn(w: World, ps: Profiles, rejects: set<ResourceKey>, hopeless: set<string>, p: G.Phase, n: nat)
    requires Walked(w, ps, rejects, hopeless, p, n)
    ensures Walked(Pass(w, rejects), ps, rejects, hopeless, p, n + 1)
  {
    PassRefines(w, ps, rejects, hopeless, G.Passes(GraphOf(ps, hopeless), p, n));
  }

  lemma LoopRefines(w: World, ps: Profiles, rejects: set<ResourceKey>, hopeless: set<string>, n: nat, p: G.Phase)
    requires At(w, ps, rejects, hopeless, p)
    ensures At(Loop(w, rejects, n), ps, rejects, hopeless, G.Passes(GraphOf(ps, hopeless), p, n))
  {
    var inv := (u: World, k: nat) => Walked(u, ps, rejects, hopeless, p, k);
    forall u, k: nat | inv(u, k) ensures inv(Pass(u, rejects), k + 1) {
      WalkOn(u, ps, rejects, hopeless, p, k);
    }
    LoopInvariant(w, rejects, n, inv);
    assert inv(Loop(w, rejects, n), n);
  }

  // ----- One reconcile

  /** The start of a reconcile: templates parsed anew, the cluster as it is. */
  predicate Fresh(ts: seq<Template>) {
    forall i :: 0 <= i < |ts| ==> ts[i].resources == [] && !ts[i].renderError && !ts[i].applyError
  }

  lemma FreshAt(ts: seq<Template>, ps: Profiles, objects: map<ResourceKey, Object>, rejects: set<ResourceKey>,
                hopeless: set<string>)
    requires WellFormed(ts, ps) && Fresh(ts) && Hopeless(ps, objects, rejects) == hopeless
    ensures At(World(ts, objects), ps, rejects, hopeless, G.Phase({}, {}, ExistingNames(ps, objects)))
  {
    assert RenderedNames(ts, hopeless) == {} && FetchedNames(ts) == {};
  }

  /** The graph of the templates, given what exists and what is rejected. */
  ghost function Dependencies(ps: Profiles, objects: map<ResourceKey, Object>, rejects: set<ResourceKey>): G.Graph {
    GraphOf(ps, Hopeless(ps, objects, rejects))
  }

  /** One reconcile of the controller is one reconcile of `TemplateGraph`. */
  lemma ReconcileRefines(ts: seq<Template>, ps: Profiles, objects: map<ResourceKey, Object>, rejects: set<ResourceKey>)
    requires WellFormed(ts, ps) && Fresh(ts)
    ensures At(Loop(World(ts, objects), rejects, |ts|), ps, rejects, Hopeless(ps, objects, rejects),
               G.Reconcile(Dependencies(ps, objects, rejects), ExistingNames(ps, objects)))
  {
    var hopeless := Hopeless(ps, objects, rejects);
    FreshAt(ts, ps, objects, rejects, hopeless);
    LoopRefines(World(ts, objects), ps, rejects, hopeless, |ts|, G.Phase({}, {}, ExistingNames(ps, objects)));
    ProfileCount(ts, ps);
  }

  lemma LoopKeepsKind(w: World, rejects: set<ResourceKey>, n: nat)
    ensures SameKind(w.templates, Loop(w, rejects, n).templates)
  {
    var inv := (u: World, k: nat) => SameKind(w.templates, u.templates);
    forall u, k: nat | inv(u, k) ensures inv(Pass(u, rejects), k + 1) {
      PassKeepsKind(u, rejects);
    }
    LoopInvariant(w, rejects, n, inv);
  }

  /** Which templates are fetched at the end of a reconcile, by name. */
  lemma FetchedAtEnd(ts: seq<Template>, ps: Profiles, objects: map<ResourceKey, Object>, rejects: set<ResourceKey>,
                     end: World, i: nat)
    requires WellFormed(ts, ps) && Fresh(ts) && i < |ts| && end == Loop(World(ts, objects), rejects, |ts|)
    ensures |end.templates| == |ts| && end.templates[i].name == ts[i].name && ts[i].name in ps
    ensures IsFetched(end.templates[i])
       <==> ts[i].name in G.Reconcile(Dependencies(ps, objects, rejects), ExistingNames(ps, objects)).fetched
  {
    ReconcileRefines(ts, ps, objects, rejects);
    LoopKeepsKind(World(ts, objects), rejects, |ts|);
    NamesAt(end, ps, Hopeless(ps, objects, rejects), i);
  }

  /**
   What one reconcile of N templates fetches: those from which every path of dependencies
   ends, and costs at most N, counting one for a template that exists and two for one to create.
   */
  lemma FetchedIffAffordable(ts: seq<Template>, ps: Profiles, objects: map<ResourceKey, Object>,
                             rejects: set<ResourceKey>, end: World, i: nat)
    requires WellFormed(ts, ps) && Fresh(ts) && i < |ts| && end == Loop(World(ts, objects), rejects, |ts|)
    ensures |end.templates| == |ts|
    ensures IsFetched(end.templates[i])
       <==> G.Affordable(Dependencies(ps, objects, rejects), ExistingNames(ps, objects), ts[i].name, |ts|)
  {
    FetchedAtEnd(ts, ps, objects, rejects, end, i);
    ProfileCount(ts, ps);
    G.FetchedIffAffordable(Dependencies(ps, objects, rejects), ExistingNames(ps, objects), ts[i].name, |ts|);
  }

  /** A template from which reading leads to a cycle, to a name that is no template, or to a hopeless template. */
  ghost predicate Stuck(g: G.Graph, t: string) {
    exists p :: G.Path(g, p) && p[0] == t && G.DeadEnd(g, p)
  }

  /** The least fixpoint has exactly the templates that are not stuck. */
  lemma TierIsNotStuck(g: G.Graph, t: string)
    requires t in g
    ensures t in G.Tier(g, |g|) <==> !Stuck(g, t)
  {
    G.LeftOverIff(g, t);
  }

  lemma TierExists(g: G.Graph, existing: set<string>)
    requires forall t :: t in g && !Stuck(g, t) ==> t in existing
    ensures G.Tier(g, |g|) <= existing
  {
    G.TierFixpoint(g);
    forall t | t in G.Tier(g, |g|) ensures t in existing {
      TierIsNotStuck(g, t);
    }
  }

  /** If every child exists already that can, one reconcile fetches exactly the templates that are not stuck. */
  lemma OneReconcileSuffices(ts: seq<Template>, ps: Profiles, objects: map<ResourceKey, Object>,
                             rejects: set<ResourceKey>, end: World, i: nat)
    requires WellFormed(ts, ps) && Fresh(ts) && i < |ts| && end == Loop(World(ts, objects), rejects, |ts|)
    requires forall x :: x in ps && !Stuck(Dependencies(ps, objects, rejects), x) ==> Exists(ps[x], objects)
    ensures |end.templates| == |ts|
    ensures IsFetched(end.templates[i]) <==> !Stuck(Dependencies(ps, objects, rejects), ts[i].name)
  {
    var g, existing := Dependencies(ps, objects, rejects), ExistingNames(ps, objects);
    FetchedAtEnd(ts, ps, objects, rejects, end, i);
    TierExists(g, existing);
    G.ReconcileWhenAllExist(g, existing);
    TierIsNotStuck(g, ts[i].name);
  }

  // ----- Reconciles in a row

  /** The cluster after one reconcile. */
  ghost function Reconciled(ts: seq<Template>, objects: map<ResourceKey, Object>, rejects: set<ResourceKey>)
    : map<ResourceKey, Object>
  {
    Loop(World(ts, objects), rejects, |ts|).objects
  }

  /** The cluster after `k` reconciles of the same templates. */
  ghost function Reconciles(ts: seq<Template>, objects: map<ResourceKey, Object>, rejects: set<ResourceKey>, k: nat)
    : map<ResourceKey, Object>
  {
    if k == 0 then objects else Reconciled(ts, Reconciles(ts, objects, rejects, k - 1), rejects)
  }

  /** In the cluster exactly the templates `names` exist, and exactly the templates `hopeless` never will. */
  ghost predicate Stands(ps: Profiles, objects: map<ResourceKey, Object>, rejects: set<ResourceKey>,
                         hopeless: set<string>, names: set<string>) {
    Hopeless(ps, objects, rejects) == hopeless && ExistingNames(ps, objects) == names
  }

  lemma ReconcileStands(ts: seq<Template>, ps: Profiles, objects: map<ResourceKey, Object>, rejects: set<ResourceKey>,
                        hopeless: set<string>, names: set<string>)
    requires WellFormed(ts, ps) && Fresh(ts) && Stands(ps, objects, rejects, hopeless, names)
    ensures Stands(ps, Reconciled(ts, objects, rejects), rejects, hopeless,
                   G.Reconcile(GraphOf(ps, hopeless), names).existing)
  {
    ReconcileRefines(ts, ps, objects, rejects);
  }

  /** Reconciles of the controller in a row are reconciles of `TemplateGraph` in a row. */
  lemma ReconcilesRefine(ts: seq<Template>, ps: Profiles, objects: map<ResourceKey, Object>, rejects: set<ResourceKey>,
                         k: nat)
    requires WellFormed(ts, ps) && Fresh(ts)
    ensures Stands(ps, Reconciles(ts, objects, rejects, k), rejects, Hopeless(ps, objects, rejects),
                   G.ExistingAfter(Dependencies(ps, objects, rejects), ExistingNames(ps, objects), k))
  {
    var hopeless, names := Hopeless(ps, objects, rejects), ExistingNames(ps, objects);
    var g := GraphOf(ps, hopeless);
    var i := 0;
    while i < k
      invariant i <= k
      invariant Stands(ps, Reconciles(ts, objects, rejects, i), rejects, hopeless, G.ExistingAfter(g, names, i))
    {
      ReconcileStands(ts, ps, Reconciles(ts, objects, rejects, i), rejects, hopeless, G.ExistingAfter(g, names, i));
      i := i + 1;
    }
  }

  /** Whatever exists at the start, `Log2(N) + 1` reconciles of `N` templates create every child that is not stuck. */
  lemma LogReconcilesCreate(ts: seq<Template>, ps: Profiles, objects: map<ResourceKey, Object>,
                            rejects: set<ResourceKey>, k: nat, x: string)
    requires WellFormed(ts, ps) && Fresh(ts) && x in ps && k > G.Log2(|ts|)
    ensures !Stuck(Dependencies(ps, objects, rejects), x) ==> Exists(ps[x], Reconciles(ts, objects, rejects, k))
  {
    var g := Dependencies(ps, objects, rejects);
    ProfileCount(ts, ps);
    ReconcilesRefine(ts, ps, objects, rejects, k);
    assert |ps| > 0 by { assert x in ps.Keys; assert |ps| == |ps.Keys|; }
    G.LogReconcilesSuffice(g, ExistingNames(ps, objects), k);
    TierIsNotStuck(g, x);
  }

  /** The next reconcile fetches exactly the templates that are not stuck. */
  lemma LogReconcilesFetch(ts: seq<Template>, ps: Profiles, objects: map<ResourceKey, Object>,
                           rejects: set<ResourceKey>, k: nat, end: World, i: nat)
    requires WellFormed(ts, ps) && Fresh(ts) && i < |ts| && k > G.Log2(|ts|)
    requires end == Loop(World(ts, Reconciles(ts, objects, rejects, k)), rejects, |ts|)
    ensures |end.templates| == |ts|
    ensures IsFetched(end.templates[i]) <==> !Stuck(Dependencies(ps, objects, rejects), ts[i].name)
  {
    var now, g := Reconciles(ts, objects, rejects, k), Dependencies(ps, objects, rejects);
    ReconcilesRefine(ts, ps, objects, rejects, k);
    forall x | x in ps && !Stuck(g, x) ensures Exists(ps[x], now) {
      LogReconcilesCreate(ts, ps, objects, rejects, k, x);
    }
    OneReconcileSuffices(ts, ps, now, rejects, end, i);
  }

  ghost predicate AllExist(ps: Profiles, objects: map<ResourceKey, Object>) {
    forall x :: x in ps ==> Exists(ps[x], objects)
  }

  /**
   Templates that read from one another in a line need all of those reconciles when nothing
   exists at the start: the passes of a single reconcile do not create them.
   */
  lemma ChainIsExact(ts: seq<Template>, ps: Profiles, objects: map<ResourceKey, Object>, rejects: set<ResourceKey>,
                     line: seq<string>, k: nat)
    requires WellFormed(ts, ps) && Fresh(ts) && ts != []
    requires G.Chain(Dependencies(ps, objects, rejects), line) && ExistingNames(ps, objects) == {}
    ensures AllExist(ps, Reconciles(ts, objects, rejects, k)) <==> k > G.Log2(|ts|)
  {
    var g := Dependencies(ps, objects, rejects);
    ProfileCount(ts, ps);
    G.ChainSize(g, line);
    ReconcilesRefine(ts, ps, objects, rejects, k);
    G.ChainNeedsLogReconciles(g, line, {}, k);
    AllExistIff(ps, Reconciles(ts, objects, rejects, k));
  }

  lemma AllExistIff(ps: Profiles, objects: map<ResourceKey, Object>)
    ensures AllExist(ps, objects) <==> ExistingNames(ps, objects) == ps.Keys
  {
    if ExistingNames(ps, objects) == ps.Keys {
      forall x | x in ps ensures Exists(ps[x], objects) {
        assert x in ExistingNames(ps, objects);
      }
    }
  }
}
