/**
 How a gateway reconcile ends: the Programmed and Ready conditions and the decision to fail,
 to requeue or to be done, all from what the template loop leaves behind.
 */
module GatewayStatus {
  import opened Common
  import opened Templating
  import opened TemplateLoop
  import G = TemplateGraph

  // ----- Missing resources

  datatype Missing = NoResources(name: string) | Unfetched(name: string, index: nat)

  function MissingResources(name: string, rs: seq<Resource>): seq<Missing> {
    if rs == [] then []
    else
      var n := |rs| - 1;
      MissingResources(name, rs[..n]) + if rs[n].current.None? then [Missing.Unfetched(name, n)] else []
  }

  function MissingIn(name: string, rs: seq<Resource>): seq<Missing> {
    if rs == [] then [NoResources(name)] else MissingResources(name, rs)
  }

  ghost function AllMissing(ts: seq<Template>): seq<Missing> {
    if ts == [] then []
    else AllMissing(ts[..|ts| - 1]) + MissingIn(ts[|ts| - 1].name, ts[|ts| - 1].resources)
  }

  /** `statusExistingTemplates`. */
  method StatusExistingTemplates(templates: seq<TemplateState>) returns (missing: seq<Missing>)
    ensures missing == AllMissing(Snap(templates))
  {
    missing := [];
    for i := 0 to |templates|
      invariant missing == AllMissing(Snap(templates)[..i])
    {
      var more := MissingOf(templates[i]);
      assert Snap(templates)[..i + 1][..i] == Snap(templates)[..i];
      missing := missing + more;
    }
    assert Snap(templates)[..|templates|] == Snap(templates);
  }

  method MissingOf(t: TemplateState) returns (missing: seq<Missing>)
    ensures missing == MissingIn(t.name, t.resources)
  {
    if |t.resources| == 0 {
      return [NoResources(t.name)];
    }
    missing := [];
    for j := 0 to |t.resources|
      invariant missing == MissingResources(t.name, t.resources[..j])
    {
      assert t.resources[..j + 1][..j] == t.resources[..j];
      if t.resources[j].current.None? {
        missing := missing + [Missing.Unfetched(t.name, j)];
      }
    }
    assert t.resources[..|t.resources|] == t.resources;
  }

  lemma {:induction false} MissingResourcesMember(name: string, rs: seq<Resource>, m: Missing)
    ensures m in MissingResources(name, rs)
       <==> m.Unfetched? && m.name == name && m.index < |rs| && rs[m.index].current.None?
  {
    if rs == [] {
    } else {
      MissingResourcesMember(name, rs[..|rs| - 1], m);
    }
  }

  /** What the report says about `t`: that it has no resources, or that one of them has no object. */
  predicate Lacks(t: Template, m: Missing) {
    && t.name == m.name
    && match m
       case NoResources(_) => t.resources == []
       case Unfetched(_, j) => j < |t.resources| && t.resources[j].current.None?
  }

  /** The report names what is lacking, and nothing else. */
  lemma {:induction false} AllMissingMember(ts: seq<Template>, m: Missing)
    ensures m in AllMissing(ts) <==> exists i :: 0 <= i < |ts| && Lacks(ts[i], m)
  {
    if ts == [] {
    } else {
      var n := |ts| - 1;
      AllMissingMember(ts[..n], m);
      MissingInMember(ts[n], m);
      SomeLacks(ts, ts[..n], m);
    }
  }

  lemma SomeLacks(ts: seq<Template>, init: seq<Template>, m: Missing)
    requires ts != [] && init == ts[..|ts| - 1]
    ensures (exists i :: 0 <= i < |ts| && Lacks(ts[i], m))
       <==> (exists i :: 0 <= i < |init| && Lacks(init[i], m)) || Lacks(ts[|ts| - 1], m)
  {
    if i :| 0 <= i < |init| && Lacks(init[i], m) {
      assert ts[i] == init[i];
    }
    if i :| 0 <= i < |init| && Lacks(ts[i], m) {
      assert ts[i] == init[i];
    }
  }

  lemma MissingInMember(t: Template, m: Missing)
    ensures m in MissingIn(t.name, t.resources) <==> Lacks(t, m)
  {
    if t.resources != [] {
      MissingResourcesMember(t.name, t.resources, m);
    }
  }

  lemma NothingMissingIff(ts: seq<Template>)
    ensures AllMissing(ts) == [] <==> forall i :: 0 <= i < |ts| ==> IsFetched(ts[i])
  {
    if AllMissing(ts) == [] {
      forall i | 0 <= i < |ts| ensures IsFetched(ts[i]) {
        NotMissing(ts, i);
      }
    } else {
      AllMissingMember(ts, AllMissing(ts)[0]);
    }
  }

  lemma NotMissing(ts: seq<Template>, i: nat)
    requires AllMissing(ts) == [] && i < |ts|
    ensures IsFetched(ts[i])
  {
    NotReported(ts, i, NoResources(ts[i].name));
    forall j | 0 <= j < |ts[i].resources| ensures ts[i].resources[j].current.Some? {
      NotReported(ts, i, Missing.Unfetched(ts[i].name, j));
    }
  }

  lemma NotReported(ts: seq<Template>, i: nat, m: Missing)
    requires AllMissing(ts) == [] && i < |ts|
    ensures !Lacks(ts[i], m)
  {
    AllMissingMember(ts, m);
  }

  // ----- Readiness

  predicate IsHealthy(r: Resource) {
    r.current.Some? && r.current.value.health == Healthy
  }

  /** All resources of the first `n` templates. */
  ghost predicate HealthyBefore(ts: seq<Template>, n: nat)
    requires n <= |ts|
  {
    forall i, j :: 0 <= i < n && 0 <= j < |ts[i].resources| ==> IsHealthy(ts[i].resources[j])
  }

  ghost predicate AllHealthy(ts: seq<Template>) {
    HealthyBefore(ts, |ts|)
  }

  /** The first resource that is not healthy, in the order of the scan, cannot be judged at all. */
  ghost predicate Unjudgeable(ts: seq<Template>) {
    exists i, j :: 0 <= i < |ts| && 0 <= j < |ts[i].resources| && StopsAt(ts, i, j)
                   && ts[i].resources[j].current.Some? && ts[i].resources[j].current.value.health == Broken
  }

  /** The scan comes to resource `j` of template `i` and no further. */
  ghost predicate StopsAt(ts: seq<Template>, i: nat, j: nat)
    requires i < |ts| && j < |ts[i].resources|
  {
    && !IsHealthy(ts[i].resources[j])
    && HealthyBefore(ts, i)
    && forall k :: 0 <= k < j ==> IsHealthy(ts[i].resources[k])
  }

  /** `statusIsReady`: a scan that returns at the first resource that is not healthy. */
  method StatusIsReady(templates: seq<TemplateState>) returns (ready: bool, error: bool)
    ensures ready <==> AllHealthy(Snap(templates))
    ensures error <==> Unjudgeable(Snap(templates))
  {
    ghost var ts := Snap(templates);
    for i := 0 to |templates|
      invariant HealthyBefore(ts, i)
    {
      var rs := templates[i].resources;
      for j := 0 to |rs|
        invariant forall k :: 0 <= k < j ==> IsHealthy(rs[k])
      {
        if rs[j].current.None? {
          StopsOnce(ts, i, j);
          return false, false;
        }
        if rs[j].current.value.health == Broken {
          StopsOnce(ts, i, j);
          return false, true;
        }
        if rs[j].current.value.health != Healthy {
          StopsOnce(ts, i, j);
          return false, false;
        }
      }
    }
    return true, false;
  }

  /** The scan stops in one place only. */
  lemma StopsOnce(ts: seq<Template>, i: nat, j: nat)
    requires i < |ts| && j < |ts[i].resources| && StopsAt(ts, i, j)
    ensures !AllHealthy(ts)
    ensures Unjudgeable(ts) <==> ts[i].resources[j].current.Some? && ts[i].resources[j].current.value.health == Broken
  {}

  // ----- Errors and counters

  ghost predicate HasErrors(ts: seq<Template>) {
    exists i :: 0 <= i < |ts| && (ts[i].renderError || ts[i].applyError)
  }

  /** Every rendered resource is fetched. */
  ghost predicate NothingUnfetched(ts: seq<Template>) {
    forall i :: 0 <= i < |ts| ==> AllFetched(ts[i].resources)
  }

  lemma {:induction false} CountsCompare(ts: seq<Template>)
    ensures CountFetched(ts) <= CountRendered(ts)
    ensures CountFetched(ts) == CountRendered(ts) <==> NothingUnfetched(ts)
  {
    if ts == [] {
    } else {
      var init := ts[..|ts| - 1];
      CountsCompare(init);
      FetchedLength(ts[|ts| - 1].resources);
      assert forall i :: 0 <= i < |ts| - 1 ==> init[i] == ts[i];
    }
  }

  /** Every template has a resource, all are fetched, and nothing went wrong. */
  ghost predicate Complete(ts: seq<Template>) {
    !HasErrors(ts) && forall i :: 0 <= i < |ts| ==> IsFetched(ts[i])
  }

  /** The errors that the templates carry after the loop, joined. */
  method CollectErrors(templates: seq<TemplateState>) returns (errors: bool)
    ensures errors <==> HasErrors(Snap(templates))
  {
    errors := false;
    ghost var ts := Snap(templates);
    for i := 0 to |templates|
      invariant errors <==> exists k :: 0 <= k < i && (ts[k].renderError || ts[k].applyError)
    {
      assert ts[i] == templates[i].Snapshot();
      if templates[i].renderError || templates[i].applyError {
        errors := true;
      }
    }
  }

  // ----- The end of a reconcile

  datatype Outcome = Failed | Requeued | Done

  /** What the status template makes of the fetched resources; a blueprint may have none. */
  type StatusTemplate = Option<ResourceValues -> bool>

  /** The Programmed condition. */
  method IsProgrammed(templates: seq<TemplateState>, errStatus: bool) returns (programmed: bool)
    requires errStatus <==> HasErrors(Snap(templates))
    ensures programmed <==> Complete(Snap(templates))
  {
    var missing := StatusExistingTemplates(templates);
    NothingMissingIff(Snap(templates));
    programmed := missing == [] && !errStatus;
  }

  /** The status template, over the resources fetched by the end of the loop. */
  method StatusIsOk(templates: seq<TemplateState>, status: StatusTemplate) returns (ok: bool)
    ensures status.None? ==> ok
    ensures status.Some? ==> (ok <==> status.value(ValuesOf(Snap(templates))))
  {
    ok := true;
    if status.Some? {
      var values := BuildResourceValues(templates);
      ok := status.value(values);
    }
  }

  /** Whether to requeue because of the counters. */
  method CountersDiffer(rendered: nat, exist: nat, ghost ts: seq<Template>) returns (differ: bool)
    requires rendered == CountRendered(ts) && exist == CountFetched(ts)
    ensures differ <==> !NothingUnfetched(ts)
  {
    CountsCompare(ts);
    differ := rendered != exist;
  }

  /**
   From the template loop to the result of the gateway reconcile. `written` says whether
   updating the status in the API succeeds, if it is attempted.
   */
  method Conclude(templates: seq<TemplateState>, rendered: nat, exist: nat, status: StatusTemplate, written: bool,
                  ghost ts: seq<Template>)
    returns (programmed: bool, ready: bool, outcome: Outcome)
    requires ts == Snap(templates)
    requires rendered == CountRendered(ts) && exist == CountFetched(ts)
    ensures programmed <==> Complete(ts)
    ensures ready <==> programmed && AllHealthy(ts) && (status.None? || status.value(ValuesOf(ts)))
    ensures outcome == Failed <==> !written || HasErrors(ts) || Unjudgeable(ts)
    ensures outcome == Done <==>
              outcome != Failed && (status.None? || status.value(ValuesOf(ts))) && NothingUnfetched(ts)
  {
    var errStatus := CollectErrors(templates);
    var differ := CountersDiffer(rendered, exist, ts);
    var statusOk, error;
    programmed, ready, statusOk, error := Judge(templates, status, errStatus, ts);
    outcome := OutcomeOf(!written, errStatus, error, differ, statusOk);
  }

  /** The two conditions, and what they are made of. */
  method Judge(templates: seq<TemplateState>, status: StatusTemplate, errStatus: bool, ghost ts: seq<Template>)
    returns (programmed: bool, ready: bool, statusOk: bool, error: bool)
    requires ts == Snap(templates) && (errStatus <==> HasErrors(ts))
    ensures programmed <==> Complete(ts)
    ensures statusOk <==> status.None? || status.value(ValuesOf(ts))
    ensures ready <==> programmed && AllHealthy(ts) && statusOk
    ensures error <==> Unjudgeable(ts)
  {
    programmed := IsProgrammed(templates, errStatus);
    statusOk := StatusIsOk(templates, status);
    ready, error := StatusIsReady(templates);
    ready := ready && statusOk && programmed;
  }

  /** Whether to fail, to requeue or to be done. */
  method OutcomeOf(unwritten: bool, errStatus: bool, error: bool, differ: bool, statusOk: bool)
    returns (outcome: Outcome)
    ensures outcome == Failed <==> unwritten || errStatus || error
    ensures outcome == Done <==> outcome != Failed && !differ && statusOk
  {
    var requeue := differ;
    if !statusOk {
      requeue := true;
    }
    if unwritten || errStatus || error {
      outcome := Failed;
    } else if requeue {
      outcome := Requeued;
    } else {
      outcome := Done;
    }
  }

  /** The gateway reconcile from parsed templates to its result. */
  method ReconcileTemplates(cluster: Cluster, templates: seq<TemplateState>, status: StatusTemplate, written: bool,
                            ghost start: World)
    returns (programmed: bool, ready: bool, outcome: Outcome, ghost end: World)
    requires Distinct(templates) && Snap(templates) == start.templates && cluster.objects == start.objects
    requires Fresh(start.templates)
    modifies templates, cluster
    ensures Snap(templates) == end.templates && cluster.objects == end.objects
    ensures programmed <==> Complete(end.templates)
    ensures ready <==>
              programmed && AllHealthy(end.templates) && (status.None? || status.value(ValuesOf(end.templates)))
    ensures outcome == Failed <==> !written || HasErrors(end.templates) || Unjudgeable(end.templates)
    ensures outcome == Done <==>
              && outcome != Failed && NothingUnfetched(end.templates)
              && (status.None? || status.value(ValuesOf(end.templates)))
    ensures end == Loop(start, cluster.rejects, |templates|)
  {
    var rendered, exist;
    rendered, exist, end := RunLoop(cluster, templates, start);
    programmed, ready, outcome := Conclude(templates, rendered, exist, status, written, end.templates);
  }

  /** A programmed gateway has agreeing counters. */
  lemma CompleteCountsAgree(ts: seq<Template>)
    requires Complete(ts)
    ensures CountRendered(ts) == CountFetched(ts)
  {
    CountsCompare(ts);
  }

  // ----- What the errors of the last pass mean

  /**
   From one pass to the next, a render error stands for a template that failed to render in
   it, and an apply error for a resource that was rejected.
   */
  ghost predicate ErrorsMean(u: World, ts: seq<Template>, rejects: set<ResourceKey>) {
    && |ts| == |u.templates|
    && forall i :: 0 <= i < |ts| ==>
         && (ts[i].renderError <==> ts[i].resources == [] && u.templates[i].render(ValuesOf(u.templates)).None?)
         && (ts[i].applyError <==> exists r :: r in ts[i].resources && r.rendered.key in rejects)
  }

  lemma {:induction false} AnyRejectedIff(rs: seq<Resource>, rejects: set<ResourceKey>)
    ensures AnyRejected(rs, rejects) <==> exists r :: r in rs && r.rendered.key in rejects
  {
    if rs == [] {
    } else {
      AnyRejectedIff(rs[..|rs| - 1], rejects);
      assert rs == rs[..|rs| - 1] + [rs[|rs| - 1]];
    }
  }

  /** Render errors are on templates without resources only. */
  ghost predicate ErrorsOnEmpty(ts: seq<Template>) {
    forall i :: 0 <= i < |ts| && ts[i].renderError ==> ts[i].resources == []
  }

  lemma PassErrorsMean(w: World, rejects: set<ResourceKey>)
    requires ErrorsOnEmpty(w.templates)
    ensures ErrorsOnEmpty(Pass(w, rejects).templates) && ErrorsMean(w, Pass(w, rejects).templates, rejects)
  {
    var ts := RenderStage(w);
    forall i | 0 <= i < |ts|
      ensures ts[i].renderError <==> ts[i].resources == [] && w.templates[i].render(ValuesOf(w.templates)).None?
      ensures ApplyOne(ts[i], rejects).applyError <==> exists r :: r in ts[i].resources && r.rendered.key in rejects
    {
      AnyRejectedIff(ts[i].resources, rejects);
    }
  }

  /** `u` stands after `n` passes of a reconcile that started in `w`. */
  ghost predicate Reaches(w: World, rejects: set<ResourceKey>, n: nat, u: World) {
    u == Loop(w, rejects, n)
  }

  lemma LoopErrorsOnEmpty(w: World, rejects: set<ResourceKey>, n: nat, u: World)
    requires Fresh(w.templates) && Reaches(w, rejects, n, u)
    ensures ErrorsOnEmpty(u.templates)
  {
    var inv := (v: World, k: nat) => ErrorsOnEmpty(v.templates);
    forall v, k: nat | inv(v, k) ensures inv(Pass(v, rejects), k + 1) {
      PassErrorsMean(v, rejects);
    }
    LoopInvariant(w, rejects, n, inv);
    assert inv(u, n);
  }

  lemma PassBefore(w: World, rejects: set<ResourceKey>, n: nat, u: World) returns (v: World)
    requires n > 0 && Reaches(w, rejects, n, u)
    ensures Reaches(w, rejects, n - 1, v) && u == Pass(v, rejects)
  {
    v := Loop(w, rejects, n - 1);
  }

  /** After the loop of a reconcile, every error is one of the last pass. */
  lemma LoopErrorsMean(w: World, rejects: set<ResourceKey>, n: nat, u: World)
    requires Fresh(w.templates) && Reaches(w, rejects, n, u)
    ensures ErrorsMean(u, Loop(w, rejects, n + 1).templates, rejects)
  {
    LoopErrorsOnEmpty(w, rejects, n, u);
    PassErrorsMean(u, rejects);
  }

  // ----- When done is not programmed

  /** Template `i` stands there without resources and renders to none. */
  ghost predicate RendersToNothing(u: World, i: nat)
    requires i < |u.templates|
  {
    u.templates[i].resources == [] && u.templates[i].render(ValuesOf(u.templates)) == Some([])
  }

  lemma EmptyIff(u: World, rejects: set<ResourceKey>, i: nat)
    requires ErrorsOnEmpty(u.templates) && i < |u.templates|
    requires !Pass(u, rejects).templates[i].renderError
    ensures Pass(u, rejects).templates[i].resources == [] <==> RendersToNothing(u, i)
  {
    PassErrorsMean(u, rejects);
  }

  lemma CompleteIffNonEmpty(ts: seq<Template>)
    requires !HasErrors(ts) && NothingUnfetched(ts)
    ensures Complete(ts) <==> forall i :: 0 <= i < |ts| ==> ts[i].resources != []
    ensures forall i :: 0 <= i < |ts| ==> !ts[i].renderError
  {}

  /** Every template that the pass finds has, or renders to, resources. */
  ghost predicate NoneRendersToNothing(u: World) {
    forall i :: 0 <= i < |u.templates| ==> !RendersToNothing(u, i)
  }

  ghost predicate NoErrorsLeft(ts: seq<Template>) {
    !HasErrors(ts) && NothingUnfetched(ts)
  }

  lemma PassDoneIff(u: World, rejects: set<ResourceKey>)
    requires ErrorsOnEmpty(u.templates) && NoErrorsLeft(Pass(u, rejects).templates)
    ensures Complete(Pass(u, rejects).templates) <==> NoneRendersToNothing(u)
  {
    var ts := Pass(u, rejects).templates;
    CompleteIffNonEmpty(ts);
    forall i | 0 <= i < |ts| ensures ts[i].resources == [] <==> RendersToNothing(u, i) {
      EmptyIff(u, rejects, i);
    }
  }

  /**
   A reconcile that ends without error and without anything left to fetch leaves the gateway
   programmed exactly if in its last pass no template stood there that renders to nothing.
   */
  lemma DoneIsProgrammedIff(w: World, rejects: set<ResourceKey>, n: nat, end: World) returns (u: World)
    requires Fresh(w.templates) && n > 0 && Reaches(w, rejects, n, end) && NoErrorsLeft(end.templates)
    ensures Reaches(w, rejects, n - 1, u)
    ensures Complete(end.templates) <==> NoneRendersToNothing(u)
  {
    u := PassBefore(w, rejects, n, end);
    LoopErrorsOnEmpty(w, rejects, n - 1, u);
    PassDoneIff(u, rejects);
  }

  /** For templates with known profiles, that is: exactly if each of them has a resource to render to. */
  lemma DoneIsProgrammedIffKeys(ts: seq<Template>, ps: Profiles, objects: map<ResourceKey, Object>,
                                rejects: set<ResourceKey>, end: World)
    requires WellFormed(ts, ps) && Fresh(ts) && end == Loop(World(ts, objects), rejects, |ts|)
    requires NoErrorsLeft(end.templates)
    ensures Complete(end.templates) <==> forall x :: x in ps ==> ps[x].keys != []
  {
    NoTemplates(ts, ps);
    if ts != [] {
      var u := LastGoodPass(ts, ps, objects, rejects);
      PassProgrammedIff(u, ps, rejects);
    }
  }

  /** Without templates there is nothing to render. */
  lemma NoTemplates(ts: seq<Template>, ps: Profiles)
    requires Named(ts, ps)
    ensures ts == [] <==> ps == map[]
  {
    assert ts != [] ==> ts[0].name in ps;
  }

  /** What a pass of a reconcile starts from. */
  ghost predicate Between(u: World, ps: Profiles) {
    Good(u, ps) && ErrorsOnEmpty(u.templates)
  }

  ghost predicate EndsPass(w: World, ps: Profiles, rejects: set<ResourceKey>) {
    exists u :: Between(u, ps) && w == Pass(u, rejects)
  }

  lemma LastGoodPass(ts: seq<Template>, ps: Profiles, objects: map<ResourceKey, Object>, rejects: set<ResourceKey>)
    returns (u: World)
    requires WellFormed(ts, ps) && Fresh(ts) && ts != []
    ensures Loop(World(ts, objects), rejects, |ts|) == Pass(u, rejects)
    ensures Between(u, ps)
  {
    FreshAt(ts, ps, objects, rejects, Hopeless(ps, objects, rejects));
    LoopEndsPass(World(ts, objects), ps, rejects, |ts|);
    u :| Between(u, ps) && Loop(World(ts, objects), rejects, |ts|) == Pass(u, rejects);
  }

  lemma LoopEndsPass(w: World, ps: Profiles, rejects: set<ResourceKey>, n: nat)
    requires Between(w, ps) && n > 0
    ensures EndsPass(Loop(w, rejects, n), ps, rejects)
  {
    var inv := (u: World, k: nat) => InLoop(u, k, ps, rejects);
    forall u, k: nat | inv(u, k) ensures inv(Pass(u, rejects), k + 1) {
      PassKeepsBetween(u, ps, rejects);
    }
    LoopInvariant(w, rejects, n, inv);
  }

  ghost predicate InLoop(u: World, k: nat, ps: Profiles, rejects: set<ResourceKey>) {
    Between(u, ps) && (k > 0 ==> EndsPass(u, ps, rejects))
  }

  lemma PassKeepsBetween(u: World, ps: Profiles, rejects: set<ResourceKey>)
    requires Between(u, ps)
    ensures Between(Pass(u, rejects), ps)
  {
    PassKeepsGood(u, ps, rejects);
    PassErrorsMean(u, rejects);
  }

  lemma PassProgrammedIff(u: World, ps: Profiles, rejects: set<ResourceKey>)
    requires Good(u, ps) && ErrorsOnEmpty(u.templates) && NoErrorsLeft(Pass(u, rejects).templates)
    ensures Complete(Pass(u, rejects).templates) <==> forall x :: x in ps ==> ps[x].keys != []
  {
    var ts := Pass(u, rejects).templates;
    PassErrorsMean(u, rejects);
    CompleteIffNonEmpty(ts);
    forall i | 0 <= i < |ts| ensures ts[i].name in ps && (ts[i].resources == [] <==> ps[ts[i].name].keys == []) {
      EndEmptyIff(u, ps, rejects, i);
    }
    PassKeepsGood(u, ps, rejects);
    ProfiledEmpty(ts, ps);
  }

  lemma EndEmptyIff(u: World, ps: Profiles, rejects: set<ResourceKey>, i: nat)
    requires Good(u, ps) && i < |u.templates| && ErrorsMean(u, Pass(u, rejects).templates, rejects)
    requires !Pass(u, rejects).templates[i].renderError
    ensures var t := Pass(u, rejects).templates[i]; t.name in ps && (t.resources == [] <==> ps[t.name].keys == [])
  {
    ReadsIff(u, ps, u.templates[i].name);
    BehavesNow(u.templates[i], ps, ValuesOf(u.templates));
    PassAt(u, ps, rejects, i);
  }

  lemma ProfiledEmpty(ts: seq<Template>, ps: Profiles)
    requires Named(ts, ps)
    requires forall i :: 0 <= i < |ts| ==> (ts[i].resources == [] <==> ps[ts[i].name].keys == [])
    ensures (forall i :: 0 <= i < |ts| ==> ts[i].resources != []) <==> forall x :: x in ps ==> ps[x].keys != []
  {
    if forall i :: 0 <= i < |ts| ==> ts[i].resources != [] {
      forall x | x in ps ensures ps[x].keys != [] {
        var i :| 0 <= i < |ts| && ts[i].name == x;
      }
    }
  }

  /** A reconcile of one template that renders to nothing: done, no error, nothing to fetch, not programmed. */
  lemma DoneUnprogrammed() returns (w: World)
    ensures Fresh(w.templates) && |w.templates| == 1
    ensures var end := Loop(w, {}, 1).templates;
            && !HasErrors(end) && !Unjudgeable(end) && NothingUnfetched(end) && CountRendered(end) == CountFetched(end)
            && !Complete(end)
  {
    w := World([Template("t", values => Some([]), [], false, false)], map[]);
    assert Loop(w, {}, 0) == w;
    var end := Loop(w, {}, 1).templates;
    assert |end| == 1 && end[0] == w.templates[0];
    CountsCompare(end);
    assert !IsFetched(end[0]);
  }

  // ----- When a gateway becomes programmed

  ghost predicate NoneRejected(ps: Profiles, rejects: set<ResourceKey>) {
    forall x, key :: x in ps && key in ps[x].keys ==> key !in rejects
  }

  /** A reconcile leaves the gateway programmed exactly if it fetches every template and nothing is rejected. */
  lemma ReconcileCompletes(ts: seq<Template>, ps: Profiles, objects: map<ResourceKey, Object>,
                           rejects: set<ResourceKey>, end: World)
    requires WellFormed(ts, ps) && Fresh(ts) && end == Loop(World(ts, objects), rejects, |ts|)
    ensures Complete(end.templates)
       <==> && ps.Keys <= G.Reconcile(Dependencies(ps, objects, rejects), ExistingNames(ps, objects)).fetched
            && NoneRejected(ps, rejects)
  {
    NoTemplates(ts, ps);
    if ts != [] {
      AllFetchedIff(ts, ps, objects, rejects, end);
      var u := LastGoodPass(ts, ps, objects, rejects);
      if EachFetched(end.templates) {
        FetchedComplete(u, end, ps, rejects);
      }
    }
  }

  /**
   One reconcile of N templates leaves the gateway programmed exactly if nothing is rejected
   and every path of dependencies ends and costs at most N, counting one for a template that
   exists and two for one that has to be created.
   */
  lemma OneReconcileCompletes(ts: seq<Template>, ps: Profiles, objects: map<ResourceKey, Object>,
                              rejects: set<ResourceKey>, end: World)
    requires WellFormed(ts, ps) && Fresh(ts) && end == Loop(World(ts, objects), rejects, |ts|)
    ensures var g, existing := Dependencies(ps, objects, rejects), ExistingNames(ps, objects);
            Complete(end.templates) <==>
              (forall x :: x in ps ==> G.Affordable(g, existing, x, |ts|)) && NoneRejected(ps, rejects)
  {
    var g, existing := Dependencies(ps, objects, rejects), ExistingNames(ps, objects);
    ProfileCount(ts, ps);
    ReconcileCompletes(ts, ps, objects, rejects, end);
    forall x ensures x in G.Reconcile(g, existing).fetched <==> G.Affordable(g, existing, x, |ts|) {
      G.FetchedIffAffordable(g, existing, x, |ts|);
    }
  }

  /**
   After `Log2(N) + 1` reconciles of N templates the next one leaves the gateway programmed,
   exactly if no template is stuck and nothing that they render to is rejected.
   */
  lemma LogReconcilesComplete(ts: seq<Template>, ps: Profiles, objects: map<ResourceKey, Object>,
                              rejects: set<ResourceKey>, k: nat, end: World)
    requires WellFormed(ts, ps) && Fresh(ts) && k > G.Log2(|ts|)
    requires end == Loop(World(ts, Reconciles(ts, objects, rejects, k)), rejects, |ts|)
    ensures Complete(end.templates) <==>
              (forall x :: x in ps ==> !Stuck(Dependencies(ps, objects, rejects), x)) && NoneRejected(ps, rejects)
  {
    var g, now := Dependencies(ps, objects, rejects), Reconciles(ts, objects, rejects, k);
    ProfileCount(ts, ps);
    ReconcileCompletes(ts, ps, now, rejects, end);
    ReconcilesRefine(ts, ps, objects, rejects, k);
    NoTemplates(ts, ps);
    if ts != [] {
      G.LogReconcilesSuffice(g, ExistingNames(ps, objects), k);
      forall x | x in ps ensures x in G.Tier(g, |g|) <==> !Stuck(g, x) {
        TierIsNotStuck(g, x);
      }
    }
  }

  ghost predicate EachFetched(ts: seq<Template>) {
    forall i :: 0 <= i < |ts| ==> IsFetched(ts[i])
  }

  lemma AllFetchedIff(ts: seq<Template>, ps: Profiles, objects: map<ResourceKey, Object>,
                      rejects: set<ResourceKey>, end: World)
    requires WellFormed(ts, ps) && Fresh(ts) && end == Loop(World(ts, objects), rejects, |ts|)
    ensures EachFetched(end.templates)
       <==> ps.Keys <= G.Reconcile(Dependencies(ps, objects, rejects), ExistingNames(ps, objects)).fetched
  {
    var fetched := G.Reconcile(Dependencies(ps, objects, rejects), ExistingNames(ps, objects)).fetched;
    LoopKeepsKind(World(ts, objects), rejects, |ts|);
    forall i | 0 <= i < |ts| ensures FetchedIfNamed(end.templates[i], ts[i], fetched) {
      FetchedAtEnd(ts, ps, objects, rejects, end, i);
    }
    FetchedByName(ts, end.templates, ps, fetched);
  }

  ghost predicate FetchedIfNamed(t: Template, start: Template, fetched: set<string>) {
    IsFetched(t) <==> start.name in fetched
  }

  lemma FetchedByName(ts: seq<Template>, ts': seq<Template>, ps: Profiles, fetched: set<string>)
    requires Named(ts, ps) && |ts'| == |ts| && forall i :: 0 <= i < |ts| ==> FetchedIfNamed(ts'[i], ts[i], fetched)
    ensures EachFetched(ts') <==> ps.Keys <= fetched
  {
    if EachFetched(ts') {
      forall x | x in ps ensures x in fetched {
        var i :| 0 <= i < |ts| && ts[i].name == x;
        assert FetchedIfNamed(ts'[i], ts[i], fetched);
      }
    }
    if ps.Keys <= fetched {
      forall i | 0 <= i < |ts'| ensures IsFetched(ts'[i]) {
        assert FetchedIfNamed(ts'[i], ts[i], fetched);
      }
    }
  }

  lemma FetchedComplete(u: World, end: World, ps: Profiles, rejects: set<ResourceKey>)
    requires Between(u, ps) && end == Pass(u, rejects) && EachFetched(end.templates)
    ensures Complete(end.templates) <==> NoneRejected(ps, rejects)
  {
    PassErrorsMean(u, rejects);
    PassKeepsGood(u, ps, rejects);
    FetchedErrors(u, end, ps, rejects);
  }

  /** With everything fetched, errors are rejected resources. */
  lemma FetchedErrors(u: World, end: World, ps: Profiles, rejects: set<ResourceKey>)
    requires ErrorsMean(u, end.templates, rejects) && Named(end.templates, ps) && AllSound(end, ps)
    requires EachFetched(end.templates)
    ensures HasErrors(end.templates) <==> !NoneRejected(ps, rejects)
  {
    var ts := end.templates;
    forall i | 0 <= i < |ts|
      ensures (ts[i].renderError || ts[i].applyError) <==> exists key :: key in ps[ts[i].name].keys && key in rejects
    {
      RejectedKey(ts[i], ps[ts[i].name], end.objects, rejects);
    }
    if x, key :| x in ps && key in ps[x].keys && key in rejects {
      var i :| 0 <= i < |ts| && ts[i].name == x;
      assert ts[i].renderError || ts[i].applyError;
    }
  }

  lemma RejectedKey(t: Template, p: Profile, objects: map<ResourceKey, Object>, rejects: set<ResourceKey>)
    requires Sound(t, p, objects) && t.resources != []
    ensures (exists r :: r in t.resources && r.rendered.key in rejects)
       <==> (exists key :: key in p.keys && key in rejects)
  {
    if key :| key in p.keys && key in rejects {
      var n :| 0 <= n < |t.resources| && Keys(t.resources)[n] == key;
      assert t.resources[n] in t.resources;
    }
    if r :| r in t.resources && r.rendered.key in rejects {
      var n :| 0 <= n < |t.resources| && t.resources[n] == r;
      assert Keys(t.resources)[n] in p.keys;
    }
  }

  // ----- What Ready means, from the start of the reconcile

  /** Objects that there were keep their health, and new ones are in progress. */
  ghost predicate HealthKept(before: map<ResourceKey, Object>, after: map<ResourceKey, Object>) {
    && (forall k :: k in before ==> k in after && after[k].health == before[k].health)
    && (forall k :: k in after && k !in before ==> after[k].health == Progressing)
  }

  lemma {:induction false} AppliedKeepsHealth(before: map<ResourceKey, Object>, now: map<ResourceKey, Object>,
                                              rs: seq<Rendered>, rejects: set<ResourceKey>)
    requires HealthKept(before, now)
    ensures HealthKept(before, Applied(now, rs, rejects))
  {
    if rs == [] {
    } else {
      AppliedKeepsHealth(before, now, rs[..|rs| - 1], rejects);
    }
  }

  /** `r` is fetched if its object was there before the reconcile, and then in the health that it had. */
  predicate FetchedAs(r: Resource, before: map<ResourceKey, Object>) {
    if r.rendered.key in before then
      r.current.Some? && r.current.value.health == before[r.rendered.key].health
    else
      r.current.Some? ==> r.current.value.health == Progressing
  }

  ghost predicate AllFetchedAs(ts: seq<Template>, before: map<ResourceKey, Object>) {
    forall i, r :: 0 <= i < |ts| && r in ts[i].resources ==> FetchedAs(r, before)
  }

  lemma RenderFetchesAs(t: Template, values: ResourceValues, objects: map<ResourceKey, Object>,
                        before: map<ResourceKey, Object>, r: Resource)
    requires HealthKept(before, objects) && forall q :: q in t.resources ==> FetchedAs(q, before)
    requires r in RenderOne(t, values, objects).resources
    ensures FetchedAs(r, before)
  {
    var rs := if t.resources != [] then t.resources
              else if t.render(values).Some? then Templating.Unfetched(t.render(values).value) else [];
    var j :| 0 <= j < |RenderOne(t, values, objects).resources| && RenderOne(t, values, objects).resources[j] == r;
    assert r == FetchOne(rs[j], objects);
    assert t.resources != [] ==> rs[j] in t.resources;
  }

  lemma PassFetchesAs(u: World, rejects: set<ResourceKey>, before: map<ResourceKey, Object>)
    requires HealthKept(before, u.objects) && AllFetchedAs(u.templates, before)
    ensures HealthKept(before, Pass(u, rejects).objects) && AllFetchedAs(Pass(u, rejects).templates, before)
  {
    var ts := RenderStage(u);
    AppliedKeepsHealth(before, u.objects, AllOutputs(ts), rejects);
    forall i, r | 0 <= i < |ts| && r in ts[i].resources ensures FetchedAs(r, before) {
      RenderFetchesAs(u.templates[i], ValuesOf(u.templates), u.objects, before, r);
    }
  }

  lemma LoopFetchesAs(w: World, rejects: set<ResourceKey>, n: nat, end: World)
    requires Fresh(w.templates) && Reaches(w, rejects, n, end)
    ensures AllFetchedAs(end.templates, w.objects)
  {
    var inv := (u: World, k: nat) => HealthKept(w.objects, u.objects) && AllFetchedAs(u.templates, w.objects);
    forall u, k: nat | inv(u, k) ensures inv(Pass(u, rejects), k + 1) {
      PassFetchesAs(u, rejects, w.objects);
    }
    LoopInvariant(w, rejects, n, inv);
    assert inv(end, n);
  }

  /** The object of `r` was there before the reconcile, in health `h`. */
  predicate Was(r: Resource, before: map<ResourceKey, Object>, h: Health) {
    r.rendered.key in before && before[r.rendered.key].health == h
  }

  /**
   Every child counts as ready exactly if it was there, and healthy, before the reconcile. So a
   reconcile that had to create a child is never ready, nor one with a child in progress.
   */
  lemma ReadyFromStart(w: World, rejects: set<ResourceKey>, n: nat, end: World)
    requires Fresh(w.templates) && Reaches(w, rejects, n, end)
    ensures AllHealthy(end.templates)
       <==> forall i, r :: 0 <= i < |end.templates| && r in end.templates[i].resources ==> Was(r, w.objects, Healthy)
  {
    LoopFetchesAs(w, rejects, n, end);
    HealthyThen(end.templates, w.objects);
  }

  lemma JudgedThen(r: Resource, before: map<ResourceKey, Object>)
    requires FetchedAs(r, before)
    ensures IsHealthy(r) <==> Was(r, before, Healthy)
    ensures (r.current.Some? && r.current.value.health == Broken) <==> Was(r, before, Broken)
  {}

  lemma HealthyThen(ts: seq<Template>, before: map<ResourceKey, Object>)
    requires AllFetchedAs(ts, before)
    ensures AllHealthy(ts)
       <==> forall i, r :: 0 <= i < |ts| && r in ts[i].resources ==> Was(r, before, Healthy)
  {
    forall i, j | 0 <= i < |ts| && 0 <= j < |ts[i].resources|
      ensures IsHealthy(ts[i].resources[j]) <==> Was(ts[i].resources[j], before, Healthy)
    {
      JudgedThen(ts[i].resources[j], before);
    }
  }

  /** The children before resource `j` of template `i` were all there and healthy. */
  ghost predicate HealthyUpTo(ts: seq<Template>, i: nat, j: nat, before: map<ResourceKey, Object>)
    requires i < |ts|
  {
    forall a, b :: 0 <= a <= i && 0 <= b < |ts[a].resources| && (a < i || b < j) ==>
      Was(ts[a].resources[b], before, Healthy)
  }

  lemma StopsThen(ts: seq<Template>, i: nat, j: nat, before: map<ResourceKey, Object>)
    requires AllFetchedAs(ts, before) && i < |ts| && j < |ts[i].resources|
    ensures ts[i].resources[j].current.Some? && ts[i].resources[j].current.value.health == Broken && StopsAt(ts, i, j)
       <==> Was(ts[i].resources[j], before, Broken) && HealthyUpTo(ts, i, j, before)
  {
    JudgedThen(ts[i].resources[j], before);
    forall a, b | 0 <= a <= i && 0 <= b < |ts[a].resources|
      ensures IsHealthy(ts[a].resources[b]) <==> Was(ts[a].resources[b], before, Healthy)
    {
      JudgedThen(ts[a].resources[b], before);
    }
  }

  /** The scan comes to resource `j` of template `i`, which was there and cannot be judged. */
  ghost predicate ErrorAt(ts: seq<Template>, i: nat, j: nat, before: map<ResourceKey, Object>)
    requires i < |ts| && j < |ts[i].resources|
  {
    Was(ts[i].resources[j], before, Broken) && HealthyUpTo(ts, i, j, before)
  }

  lemma UnjudgeableThen(ts: seq<Template>, before: map<ResourceKey, Object>)
    requires AllFetchedAs(ts, before)
    ensures Unjudgeable(ts)
       <==> exists i, j :: 0 <= i < |ts| && 0 <= j < |ts[i].resources| && ErrorAt(ts, i, j, before)
  {
    forall i, j | 0 <= i < |ts| && 0 <= j < |ts[i].resources|
      ensures ts[i].resources[j].current.Some? && ts[i].resources[j].current.value.health == Broken && StopsAt(ts, i, j)
         <==> ErrorAt(ts, i, j, before)
    {
      StopsThen(ts, i, j, before);
    }
  }

  /** The scan ends in an error exactly if it comes to a child that was there and cannot be judged. */
  lemma UnjudgeableFromStart(w: World, rejects: set<ResourceKey>, n: nat, end: World)
    requires Fresh(w.templates) && Reaches(w, rejects, n, end)
    ensures Unjudgeable(end.templates)
       <==> exists i, j :: 0 <= i < |end.templates| && 0 <= j < |end.templates[i].resources|
                           && ErrorAt(end.templates, i, j, w.objects)
  {
    LoopFetchesAs(w, rejects, n, end);
    UnjudgeableThen(end.templates, w.objects);
  }

  // ----- The loop of the route reconcile

  /** Some template has rendered to a resource that is rejected. */
  ghost predicate RenderedRejected(ts: seq<Template>, rejects: set<ResourceKey>) {
    exists i, r :: 0 <= i < |ts| && r in ts[i].resources && r.rendered.key in rejects
  }

  lemma {:induction false} AnyApplyErrorIff(ts: seq<Template>)
    ensures AnyApplyError(ts) <==> exists i :: 0 <= i < |ts| && ts[i].applyError
  {
    if ts == [] {
    } else {
      var init := ts[..|ts| - 1];
      AnyApplyErrorIff(init);
      assert forall i :: 0 <= i < |ts| - 1 ==> init[i] == ts[i];
    }
  }

  lemma PassFails(u: World, rejects: set<ResourceKey>)
    requires ErrorsOnEmpty(u.templates)
    ensures AnyApplyError(Pass(u, rejects).templates) <==> RenderedRejected(Pass(u, rejects).templates, rejects)
  {
    PassErrorsMean(u, rejects);
    AnyApplyErrorIff(Pass(u, rejects).templates);
    ErrorsAreRejected(u, Pass(u, rejects).templates, rejects);
  }

  /** A pass ends with an apply error exactly if some template has rendered to a rejected resource by then. */
  lemma PassFailsIff(w: World, rejects: set<ResourceKey>, n: nat, end: World)
    requires Fresh(w.templates) && n > 0 && Reaches(w, rejects, n, end)
    ensures AnyApplyError(end.templates) <==> RenderedRejected(end.templates, rejects)
  {
    var u := PassBefore(w, rejects, n, end);
    LoopErrorsOnEmpty(w, rejects, n - 1, u);
    PassFails(u, rejects);
  }

  lemma ErrorsAreRejected(u: World, ts: seq<Template>, rejects: set<ResourceKey>)
    requires ErrorsMean(u, ts, rejects)
    ensures (exists i :: 0 <= i < |ts| && ts[i].applyError) <==> RenderedRejected(ts, rejects)
  {
    if i, r :| 0 <= i < |ts| && r in ts[i].resources && r.rendered.key in rejects {
      assert ts[i].applyError;
    }
  }

  /** Where the loop of the route reconcile stops: what `RunRouteLoop` promises of its passes. */
  ghost predicate RouteLoopEnds(w: World, rejects: set<ResourceKey>, passes: nat, failed: bool) {
    && CleanBefore(w, rejects, passes) && passes <= |w.templates| && (!failed ==> passes == |w.templates|)
    && (failed <==> passes > 0 && AnyApplyError(Loop(w, rejects, passes).templates))
  }

  ghost predicate RejectedAfter(w: World, rejects: set<ResourceKey>, n: nat) {
    RenderedRejected(Loop(w, rejects, n).templates, rejects)
  }

  lemma CleanNext(w: World, rejects: set<ResourceKey>, n: nat)
    requires Fresh(w.templates) && n > 0
    ensures CleanBefore(w, rejects, n + 1) <==> CleanBefore(w, rejects, n) && !RejectedAfter(w, rejects, n)
  {
    PassFailsIff(w, rejects, n, Loop(w, rejects, n));
  }

  lemma {:induction false} AllBefore(clean: nat -> bool, bad: nat -> bool, n: nat)
    requires clean(0) && clean(1) && forall k: nat :: k > 0 ==> (clean(k + 1) <==> clean(k) && !bad(k))
    ensures clean(n) <==> forall m :: 0 < m < n ==> !bad(m)
  {
    if n <= 1 {
    } else {
      AllBefore(clean, bad, n - 1);
      assert clean((n - 1) + 1) <==> clean(n - 1) && !bad(n - 1);
    }
  }

  lemma CleanIff(w: World, rejects: set<ResourceKey>, n: nat)
    requires Fresh(w.templates)
    ensures CleanBefore(w, rejects, n) <==> forall m :: 0 < m < n ==> !RejectedAfter(w, rejects, m)
  {
    var clean, bad := (k: nat) => CleanBefore(w, rejects, k), (k: nat) => RejectedAfter(w, rejects, k);
    forall k: nat | k > 0 ensures clean(k + 1) <==> clean(k) && !bad(k) {
      CleanNext(w, rejects, k);
    }
    AllBefore(clean, bad, n);
    forall m: nat ensures bad(m) <==> RejectedAfter(w, rejects, m) {}
  }

  /** It stops after the first pass by which a rejected resource is rendered, or after all. */
  lemma RouteLoopStops(w: World, rejects: set<ResourceKey>, passes: nat, failed: bool)
    requires Fresh(w.templates) && RouteLoopEnds(w, rejects, passes, failed)
    ensures failed <==> passes > 0 && RejectedAfter(w, rejects, passes)
    ensures forall m :: 0 < m < passes ==> !RejectedAfter(w, rejects, m)
    ensures !failed ==> passes == |w.templates|
  {
    CleanIff(w, rejects, passes);
    if passes > 0 {
      PassFailsIff(w, rejects, passes, Loop(w, rejects, passes));
    }
  }

  /** With nothing rejected it makes all its passes, and fetches what the gateway's loop would. */
  lemma RouteLoopFetches(ts: seq<Template>, ps: Profiles, objects: map<ResourceKey, Object>, rejects: set<ResourceKey>,
                         passes: nat, failed: bool, i: nat)
    requires WellFormed(ts, ps) && Fresh(ts) && NoneRejected(ps, rejects) && i < |ts|
    requires RouteLoopEnds(World(ts, objects), rejects, passes, failed)
    ensures !failed && passes == |ts| == |Loop(World(ts, objects), rejects, passes).templates|
    ensures IsFetched(Loop(World(ts, objects), rejects, passes).templates[i])
       <==> G.Affordable(Dependencies(ps, objects, rejects), ExistingNames(ps, objects), ts[i].name, |ts|)
  {
    var w := World(ts, objects);
    RouteLoopStops(w, rejects, passes, failed);
    FreshAt(ts, ps, objects, rejects, Hopeless(ps, objects, rejects));
    LoopStaysGood(w, ps, rejects, passes);
    GoodRejected(Loop(w, rejects, passes), ps, rejects);
    FetchedIffAffordable(ts, ps, objects, rejects, Loop(w, rejects, passes), i);
  }

  lemma LoopStaysGood(w: World, ps: Profiles, rejects: set<ResourceKey>, n: nat)
    requires Good(w, ps)
    ensures Good(Loop(w, rejects, n), ps)
  {
    var inv := (u: World, k: nat) => Good(u, ps);
    forall u, k: nat | inv(u, k) ensures inv(Pass(u, rejects), k + 1) {
      PassKeepsGood(u, ps, rejects);
    }
    LoopInvariant(w, rejects, n, inv);
    assert inv(Loop(w, rejects, n), n);
  }

  lemma GoodRejected(w: World, ps: Profiles, rejects: set<ResourceKey>)
    requires AllSound(w, ps) && NoneRejected(ps, rejects)
    ensures !RenderedRejected(w.templates, rejects)
  {
    forall i, r | 0 <= i < |w.templates| && r in w.templates[i].resources ensures r.rendered.key !in rejects {
      var t := w.templates[i];
      assert Sound(t, ps[t.name], w.objects);
      var n :| 0 <= n < |t.resources| && t.resources[n] == r;
      assert Keys(t.resources)[n] in ps[t.name].keys;
    }
  }
}
