/**
 What holds of the template loop whatever the templates are: nothing is undone within a
 reconcile, and when the order of the templates matters.
 */
module TemplateOrder {
  import opened Common
  import opened Templating
  import opened TemplateLoop

  // ----- Nothing is undone

  /** `s` is `t` with some elements left out. */
  predicate Subsequence<T(==)>(s: seq<T>, t: seq<T>)
    decreases |t|
  {
    if s == [] then true
    else if t == [] then false
    else if s[|s| - 1] == t[|t| - 1] && Subsequence(s[..|s| - 1], t[..|t| - 1]) then true
    else Subsequence(s, t[..|t| - 1])
  }

  /** Later resources: the same ones, and what was fetched stays as it was fetched. */
  ghost predicate Extends(before: seq<Resource>, after: seq<Resource>) {
    && |before| == |after|
    && forall i :: 0 <= i < |before| ==>
         after[i].rendered == before[i].rendered && (before[i].current.Some? ==> after[i] == before[i])
  }

  lemma FetchedLast(rs: seq<Resource>)
    requires rs != []
    ensures var last := rs[|rs| - 1];
            Fetched(rs) == Fetched(rs[..|rs| - 1]) + if last.current.Some? then [last.current.value] else []
  {}

  lemma {:induction false} ExtendsSubsequence(rs: seq<Resource>, rs': seq<Resource>)
    requires Extends(rs, rs')
    ensures Subsequence(Fetched(rs), Fetched(rs'))
  {
    if rs == [] {
    } else {
      var a, b := rs[..|rs| - 1], rs'[..|rs| - 1];
      ExtendsSubsequence(a, b);
      FetchedLast(rs);
      FetchedLast(rs');
      if rs[|rs| - 1].current.Some? {
        assert Fetched(rs)[..|Fetched(rs)| - 1] == Fetched(a);
        assert Fetched(rs')[..|Fetched(rs')| - 1] == Fetched(b);
      } else if rs'[|rs| - 1].current.Some? {
        assert Fetched(rs')[..|Fetched(rs')| - 1] == Fetched(b);
        assert Fetched(rs) == Fetched(a);
      } else {
        assert Fetched(rs) == Fetched(a) && Fetched(rs') == Fetched(b);
      }
    }
  }

  /** `w'` comes after `w` in the same reconcile. */
  ghost predicate Later(w: World, w': World) {
    && |w'.templates| == |w.templates|
    && (forall i :: 0 <= i < |w.templates| && w.templates[i].resources != [] ==>
          Extends(w.templates[i].resources, w'.templates[i].resources))
    && w.objects.Keys <= w'.objects.Keys
  }

  lemma PassIsLater(w: World, rejects: set<ResourceKey>)
    ensures Later(w, Pass(w, rejects))
  {
    forall k | k in w.objects ensures k in Pass(w, rejects).objects {
      AppliedKeys(w.objects, AllOutputs(RenderStage(w)), rejects, k);
    }
    forall i | 0 <= i < |w.templates| && w.templates[i].resources != []
      ensures Extends(w.templates[i].resources, Pass(w, rejects).templates[i].resources)
    {
      RenderExtends(w.templates[i], ValuesOf(w.templates), w.objects);
    }
  }

  lemma RenderExtends(t: Template, values: ResourceValues, objects: map<ResourceKey, Object>)
    requires t.resources != []
    ensures Extends(t.resources, RenderOne(t, values, objects).resources)
  {}

  lemma LaterTransitive(u: World, v: World, w: World)
    requires Later(u, v) && Later(v, w)
    ensures Later(u, w)
  {}

  /** `n` more passes, from any point of a reconcile. */
  lemma LoopIsLater(w: World, rejects: set<ResourceKey>, n: nat)
    ensures Later(w, Loop(w, rejects, n))
  {
    var inv := (u: World, k: nat) => Later(w, u);
    forall u, k: nat | inv(u, k) ensures inv(Pass(u, rejects), k + 1) {
      PassIsLater(u, rejects);
      LaterTransitive(w, u, Pass(u, rejects));
    }
    LoopInvariant(w, rejects, n, inv);
  }

  /**
   From any point of a reconcile on, a rendered template is not rendered again, a fetched
   object is not fetched again, and the list other templates read only grows, in order.
   */
  lemma LoopUndoesNothing(w: World, rejects: set<ResourceKey>, n: nat, i: nat)
    requires i < |w.templates|
    ensures |Loop(w, rejects, n).templates| == |w.templates|
    ensures var rs, rs' := w.templates[i].resources, Loop(w, rejects, n).templates[i].resources;
            (rs != [] ==> Extends(rs, rs')) && Subsequence(Fetched(rs), Fetched(rs'))
  {
    LoopIsLater(w, rejects, n);
    if w.templates[i].resources != [] {
      ExtendsSubsequence(w.templates[i].resources, Loop(w, rejects, n).templates[i].resources);
    }
  }

  // ----- When the list that others read grows at its end

  /** No resource fetched in between stands before one that was fetched already. */
  ghost predicate FetchedInOrder(rs: seq<Resource>, rs': seq<Resource>)
    requires |rs| == |rs'|
  {
    forall i, j :: 0 <= i < j < |rs| && rs[j].current.Some? ==> rs[i].current.Some? || rs'[i].current.None?
  }

  /** Nothing was fetched in between. */
  ghost predicate SameFetched(rs: seq<Resource>, rs': seq<Resource>)
    requires |rs| == |rs'|
  {
    forall i :: 0 <= i < |rs| ==> rs[i].current.Some? || rs'[i].current.None?
  }

  lemma {:induction false} FetchedMore(rs: seq<Resource>, rs': seq<Resource>)
    requires Extends(rs, rs')
    ensures |Fetched(rs)| <= |Fetched(rs')|
    ensures |Fetched(rs)| == |Fetched(rs')| <==> SameFetched(rs, rs')
    ensures SameFetched(rs, rs') ==> Fetched(rs) == Fetched(rs')
  {
    if rs == [] {
    } else {
      var a, b := rs[..|rs| - 1], rs'[..|rs| - 1];
      FetchedMore(a, b);
      assert SameFetched(rs, rs') <==>
          SameFetched(a, b) && (rs[|rs| - 1].current.Some? || rs'[|rs| - 1].current.None?);
    }
  }

  ghost predicate PairwiseDifferent(os: seq<Object>) {
    forall i, j :: 0 <= i < j < |os| ==> os[i] != os[j]
  }

  /**
   For pairwise different objects, the list grows at its end only exactly if no resource that
   was fetched in between stands before one that was fetched already.
   */
  lemma {:induction false} GrowsAtEndIff(rs: seq<Resource>, rs': seq<Resource>)
    requires Extends(rs, rs') && PairwiseDifferent(Fetched(rs'))
    ensures Fetched(rs) <= Fetched(rs') <==> FetchedInOrder(rs, rs')
  {
    if rs == [] {
    } else {
      var a, b := rs[..|rs| - 1], rs'[..|rs| - 1];
      FetchedMore(a, b);
      FetchedLast(rs);
      FetchedLast(rs');
      assert PairwiseDifferent(Fetched(b)) by {
        assert Fetched(b) == Fetched(rs')[..|Fetched(b)|];
      }
      GrowsAtEndIff(a, b);
      var last := rs[|rs| - 1];
      assert FetchedInOrder(rs, rs') <==>
          FetchedInOrder(a, b) && (last.current.Some? ==> SameFetched(a, b));
      if last.current.Some? {
        AppendedPrefix(Fetched(a), Fetched(b), last.current.value);
      }
    }
  }

  lemma AppendedPrefix(s: seq<Object>, t: seq<Object>, o: Object)
    requires PairwiseDifferent(t + [o]) && |s| <= |t|
    ensures s + [o] <= t + [o] <==> s == t
  {
    var u := t + [o];
    if s + [o] <= u {
      assert u[|s|] == (s + [o])[|s|] == o && u[|t|] == o;
      assert s == (s + [o])[..|s|] == u[..|s|];
    }
  }

  // ----- Which of it holds, told from the cluster before the pass

  /** Template `i` renders to `rs` in the next pass. */
  ghost predicate RendersTo(w: World, i: nat, rs: seq<Rendered>)
    requires i < |w.templates|
  {
    w.templates[i].resources == [] && w.templates[i].render(ValuesOf(w.templates)) == Some(rs) && rs != []
  }

  /** What the pass that renders it fetches. */
  lemma FirstFetches(w: World, rejects: set<ResourceKey>, i: nat, rs: seq<Rendered>)
    requires i < |w.templates| && RendersTo(w, i, rs)
    ensures |Pass(w, rejects).templates| == |w.templates|
    ensures var first := Pass(w, rejects).templates[i].resources;
            && first == Fetch(Unfetched(rs), w.objects) && Outputs(first) == rs
            && forall a :: 0 <= a < |rs| ==> (first[a].current.Some? <==> rs[a].key in w.objects)
  {}

  /** And what the next one. */
  lemma NextFetches(u: World, rejects: set<ResourceKey>, i: nat, rs: seq<Rendered>)
    requires i < |u.templates| && u.templates[i].resources != [] && Outputs(u.templates[i].resources) == rs
    ensures |Pass(u, rejects).templates| == |u.templates|
    ensures var first, second := u.templates[i].resources, Pass(u, rejects).templates[i].resources;
            && second == Fetch(first, u.objects) && Outputs(second) == rs
            && forall a :: 0 <= a < |rs| ==>
                 (second[a].current.Some? <==> first[a].current.Some? || rs[a].key in u.objects)
  {
    var first := u.templates[i].resources;
    assert Outputs(Fetch(first, u.objects)) == Outputs(first);
    forall a | 0 <= a < |rs| ensures first[a].rendered == rs[a] {
      assert Outputs(first)[a] == rs[a];
    }
  }

  lemma TwoPasses(w: World, rejects: set<ResourceKey>, i: nat, rs: seq<Rendered>)
    requires i < |w.templates| && RendersTo(w, i, rs)
    ensures |Pass(w, rejects).templates| == |w.templates| == |Pass(Pass(w, rejects), rejects).templates|
    ensures var first := Pass(w, rejects).templates[i].resources;
            && Outputs(first) == rs
            && forall a :: 0 <= a < |rs| ==> (first[a].current.Some? <==> rs[a].key in w.objects)
    ensures var second := Pass(Pass(w, rejects), rejects).templates[i].resources;
            && Outputs(second) == rs
            && forall a :: 0 <= a < |rs| ==>
                 (second[a].current.Some? <==> rs[a].key in w.objects || rs[a].key !in rejects)
  {
    FirstFetches(w, rejects, i, rs);
    NextFetches(Pass(w, rejects), rejects, i, rs);
    forall a | 0 <= a < |rs|
      ensures rs[a].key in Pass(w, rejects).objects <==> rs[a].key in w.objects || rs[a].key !in rejects
    {
      OwnOutput(w, rejects, i, rs, a);
    }
  }

  lemma OwnOutput(w: World, rejects: set<ResourceKey>, i: nat, rs: seq<Rendered>, a: nat)
    requires i < |w.templates| && RendersTo(w, i, rs) && a < |rs|
    ensures rs[a].key in Pass(w, rejects).objects <==> rs[a].key in w.objects || rs[a].key !in rejects
  {
    assert Outputs(RenderStage(w)[i].resources)[a] == rs[a];
    AppliedOwn(w, rejects, i, rs[a]);
  }

  lemma AppliedOwn(w: World, rejects: set<ResourceKey>, i: nat, r: Rendered)
    requires i < |w.templates| && r in Outputs(RenderStage(w)[i].resources)
    ensures r.key in Pass(w, rejects).objects <==> r.key in w.objects || r.key !in rejects
  {
    AllOutputsMember(RenderStage(w), r);
    AppliedKeys(w.objects, AllOutputs(RenderStage(w)), rejects, r.key);
  }

  /** No resource that has to be created, and can be, stands before one that exists. */
  ghost predicate CreatedLast(rs: seq<Rendered>, objects: map<ResourceKey, Object>, rejects: set<ResourceKey>) {
    forall a, b :: 0 <= a < b < |rs| && rs[b].key in objects ==> rs[a].key in objects || rs[a].key in rejects
  }

  /**
   The list that others read grows at its end only, from the pass that renders the template to
   the next, exactly if no resource that has to be created stands before one that exists.
   */
  lemma GrowsAtEndIffCreatedLast(w: World, rejects: set<ResourceKey>, i: nat, rs: seq<Rendered>)
    requires i < |w.templates| && RendersTo(w, i, rs)
    requires var v := Pass(Pass(w, rejects), rejects);
             |v.templates| == |w.templates| && PairwiseDifferent(Fetched(v.templates[i].resources))
    ensures |Pass(w, rejects).templates| == |w.templates|
    ensures Fetched(Pass(w, rejects).templates[i].resources)
         <= Fetched(Pass(Pass(w, rejects), rejects).templates[i].resources)
       <==> CreatedLast(rs, w.objects, rejects)
  {
    var u := Pass(w, rejects);
    TwoPasses(w, rejects, i, rs);
    PassIsLater(u, rejects);
    GrowsAtEndIff(u.templates[i].resources, Pass(u, rejects).templates[i].resources);
    FetchedSoIff(u.templates[i].resources, Pass(u, rejects).templates[i].resources, rs, w.objects, rejects);
  }

  lemma FetchedSoIff(first: seq<Resource>, second: seq<Resource>, rs: seq<Rendered>,
                     objects: map<ResourceKey, Object>, rejects: set<ResourceKey>)
    requires |first| == |second| == |rs|
    requires forall a :: 0 <= a < |rs| ==> (first[a].current.Some? <==> rs[a].key in objects)
    requires forall a :: 0 <= a < |rs| ==>
               (second[a].current.Some? <==> rs[a].key in objects || rs[a].key !in rejects)
    ensures FetchedInOrder(first, second) <==> CreatedLast(rs, objects, rejects)
  {}

  /** From then on it does not grow any more. */
  lemma FetchedForGood(w: World, rejects: set<ResourceKey>, i: nat, rs: seq<Rendered>, n: nat)
    requires i < |w.templates| && RendersTo(w, i, rs)
    ensures var v := Pass(Pass(w, rejects), rejects);
            && |v.templates| == |w.templates| == |Loop(v, rejects, n).templates|
            && Loop(v, rejects, n).templates[i].resources == v.templates[i].resources
  {
    TwoPasses(w, rejects, i, rs);
    var v := Pass(Pass(w, rejects), rejects);
    var got := v.templates[i].resources;
    assert got != [] && |v.templates| == |w.templates|;
    forall a | 0 <= a < |got| && got[a].current.None?
      ensures got[a].rendered.key in rejects && got[a].rendered.key !in v.objects
    {
      assert Outputs(got)[a] == rs[a];
      StillRejected(w, rejects, rs[a].key);
      StillRejected(Pass(w, rejects), rejects, rs[a].key);
    }
    var inv := (x: World, k: nat) => Saturated(x, i, got, rejects);
    forall x, k: nat | inv(x, k) ensures inv(Pass(x, rejects), k + 1) {
      SaturatedStays(x, i, got, rejects);
    }
    LoopInvariant(v, rejects, n, inv);
    assert inv(Loop(v, rejects, n), n);
    LoopKeepsKind(v, rejects, n);
  }

  lemma StillRejected(w: World, rejects: set<ResourceKey>, k: ResourceKey)
    requires k in rejects
    ensures k in Pass(w, rejects).objects <==> k in w.objects
  {
    AppliedKeys(w.objects, AllOutputs(RenderStage(w)), rejects, k);
  }

  /** Template `i` has `got`, and what it has not fetched is rejected. */
  ghost predicate Saturated(w: World, i: nat, got: seq<Resource>, rejects: set<ResourceKey>) {
    && i < |w.templates| && got != [] && w.templates[i].resources == got
    && forall a :: 0 <= a < |got| && got[a].current.None? ==>
         got[a].rendered.key in rejects && got[a].rendered.key !in w.objects
  }

  lemma SaturatedStays(w: World, i: nat, got: seq<Resource>, rejects: set<ResourceKey>)
    requires Saturated(w, i, got, rejects)
    ensures Saturated(Pass(w, rejects), i, got, rejects)
  {
    assert Fetch(got, w.objects) == got;
    forall a | 0 <= a < |got| && got[a].current.None? ensures got[a].rendered.key !in Pass(w, rejects).objects {
      StillRejected(w, rejects, got[a].rendered.key);
    }
  }

  /** A reconcile in which it does not: of two resources only the second exists at the start. */
  lemma GrowthIsNotPrefix() returns (w: World)
    ensures Fresh(w.templates) && |w.templates| == 2
    ensures |Loop(w, {}, 1).templates| == 2 == |Loop(w, {}, 2).templates|
    ensures !(Fetched(Loop(w, {}, 1).templates[0].resources) <= Fetched(Loop(w, {}, 2).templates[0].resources))
  {
    var a, b := Rendered(ResourceKey("r", None, "a"), "A"), Rendered(ResourceKey("r", None, "b"), "B");
    var t := Template("t", values => Some([a, b]), [], false, false);
    w := World([t, t.(name := "u", render := values => None)], map[b.key := Object("old", Healthy)]);
    FirstPasses(w);
    FirstPass(w, a, b);
    SecondPass(Pass(w, {}), a, b, w.objects[b.key]);
  }

  lemma FirstPasses(w: World)
    ensures Loop(w, {}, 1) == Pass(w, {}) && Loop(w, {}, 2) == Pass(Pass(w, {}), {})
  {
    assert Loop(w, {}, 0) == w;
  }

  lemma FirstPass(w: World, a: Rendered, b: Rendered)
    requires w.templates != [] && w.templates[0].resources == []
    requires w.templates[0].render(ValuesOf(w.templates)) == Some([a, b])
    requires a.key !in w.objects && b.key in w.objects
    ensures var v := Pass(w, {});
            && |v.templates| == |w.templates|
            && v.templates[0].resources == [Resource(a, None), Resource(b, Some(w.objects[b.key]))]
            && a.key in v.objects && v.objects[a.key].health == Progressing
  {
    var ts := RenderStage(w);
    assert ts[0].resources == [Resource(a, None), Resource(b, Some(w.objects[b.key]))];
    assert Outputs(ts[0].resources)[0] == a;
    Created(w.objects, ts, a);
  }

  lemma Created(objects: map<ResourceKey, Object>, ts: seq<Template>, r: Rendered)
    requires ts != [] && r in Outputs(ts[0].resources) && r.key !in objects
    ensures var after := Applied(objects, AllOutputs(ts), {}); r.key in after && after[r.key].health == Progressing
  {
    AllOutputsMember(ts, r);
    AppliedKeys(objects, AllOutputs(ts), {}, r.key);
    AppliedContent(objects, AllOutputs(ts), {}, r.key);
  }

  lemma SecondPass(v: World, a: Rendered, b: Rendered, o: Object)
    requires v.templates != [] && v.templates[0].resources == [Resource(a, None), Resource(b, Some(o))]
    requires a.key in v.objects && v.objects[a.key] != o
    ensures |Pass(v, {}).templates| == |v.templates|
    ensures !(Fetched(v.templates[0].resources) <= Fetched(Pass(v, {}).templates[0].resources))
  {
    var rs := Pass(v, {}).templates[0].resources;
    assert rs == [Resource(a, Some(v.objects[a.key])), Resource(b, Some(o))];
    FetchedPair(Resource(a, None), Resource(b, Some(o)));
    FetchedPair(rs[0], rs[1]);
    assert Fetched(v.templates[0].resources)[0] == o && Fetched(rs)[0] == v.objects[a.key];
  }

  lemma FetchedPair(a: Resource, b: Resource)
    ensures Fetched([a, b])
         == (if a.current.Some? then [a.current.value] else []) + if b.current.Some? then [b.current.value] else []
  {
    assert [a, b][..1] == [a] && [a][..0] == [];
    assert Fetched([a]) == Fetched([]) + if a.current.Some? then [a.current.value] else [];
  }

  // ----- What is left after applying

  /** The content applied last for `k`. */
  function LastContent(rs: seq<Rendered>, k: ResourceKey): Option<string> {
    if rs == [] then None
    else if rs[|rs| - 1].key == k then Some(rs[|rs| - 1].content)
    else LastContent(rs[..|rs| - 1], k)
  }

  function Find(objects: map<ResourceKey, Object>, k: ResourceKey): Option<Object> {
    if k in objects then Some(objects[k]) else None
  }

  function Overwritten(o: Option<Object>, content: Option<string>): Option<Object> {
    if content.None? then o else Some(Object(content.value, if o.Some? then o.value.health else Progressing))
  }

  /** The content that is applied last stays. */
  lemma {:induction false} AppliedContent(objects: map<ResourceKey, Object>, rs: seq<Rendered>,
                                          rejects: set<ResourceKey>, k: ResourceKey)
    ensures Find(Applied(objects, rs, rejects), k)
         == if k in rejects then Find(objects, k) else Overwritten(Find(objects, k), LastContent(rs, k))
  {
    if rs == [] {
    } else {
      AppliedContent(objects, rs[..|rs| - 1], rejects, k);
    }
  }

  lemma SameContent(objects: map<ResourceKey, Object>, s: seq<Rendered>, t: seq<Rendered>, rejects: set<ResourceKey>)
    requires forall k :: k !in rejects ==> LastContent(s, k) == LastContent(t, k)
    ensures Applied(objects, s, rejects) == Applied(objects, t, rejects)
  {
    var a, b := Applied(objects, s, rejects), Applied(objects, t, rejects);
    forall k ensures Find(a, k) == Find(b, k) {
      AppliedContent(objects, s, rejects, k);
      AppliedContent(objects, t, rejects, k);
    }
    forall k ensures k in a <==> k in b {
      assert Find(a, k) == Find(b, k);
    }
    forall k | k in a ensures a[k] == b[k] {
      assert Find(a, k) == Find(b, k);
    }
  }

  lemma {:induction false} LastContentConcat(s: seq<Rendered>, t: seq<Rendered>, k: ResourceKey)
    ensures LastContent(s + t, k) == if LastContent(t, k).Some? then LastContent(t, k) else LastContent(s, k)
    decreases |t|
  {
    if t == [] {
      assert s + t == s;
    } else {
      assert (s + t)[..|s + t| - 1] == s + t[..|t| - 1];
      LastContentConcat(s, t[..|t| - 1], k);
    }
  }

  // ----- When the order of the templates matters

  /** `ts'` lists the templates of `ts` in the order `p`. */
  ghost predicate Reordered(ts: seq<Template>, ts': seq<Template>, p: seq<nat>) {
    && |ts| == |ts'| == |p|
    && (forall i :: 0 <= i < |p| ==> p[i] < |ts| && ts'[i] == ts[p[i]])
    && (forall j :: 0 <= j < |ts| ==> j in p)
  }

  /** The content that `t` leaves for `k`. */
  ghost function ContentOf(t: Template, k: ResourceKey): Option<string> {
    LastContent(Outputs(t.resources), k)
  }

  /** Templates that apply the same resource, and are not rejected, leave the same content. */
  ghost predicate Agree(ts: seq<Template>, rejects: set<ResourceKey>) {
    forall i, j, k :: 0 <= i < |ts| && 0 <= j < |ts| && k !in rejects ==>
      Compatible(ContentOf(ts[i], k), ContentOf(ts[j], k))
  }

  predicate Compatible(a: Option<string>, b: Option<string>) {
    a.Some? && b.Some? ==> a == b
  }

  /** The last template that applies `k` decides. */
  lemma LastTemplate(ts: seq<Template>, k: ResourceKey)
    requires ts != []
    ensures LastContent(AllOutputs(ts), k)
         == if ContentOf(ts[|ts| - 1], k).Some? then ContentOf(ts[|ts| - 1], k)
            else LastContent(AllOutputs(ts[..|ts| - 1]), k)
  {
    LastContentConcat(AllOutputs(ts[..|ts| - 1]), Outputs(ts[|ts| - 1].resources), k);
  }

  lemma {:induction false} SomeTemplate(ts: seq<Template>, k: ResourceKey)
    ensures LastContent(AllOutputs(ts), k).Some? ==>
              exists i :: 0 <= i < |ts| && LastContent(AllOutputs(ts), k) == ContentOf(ts[i], k)
    ensures LastContent(AllOutputs(ts), k).None? ==> forall i :: 0 <= i < |ts| ==> ContentOf(ts[i], k).None?
  {
    if ts == [] {
    } else {
      var init := ts[..|ts| - 1];
      SomeTemplate(init, k);
      LastTemplate(ts, k);
      assert forall i :: 0 <= i < |ts| - 1 ==> init[i] == ts[i];
    }
  }

  /** Agreeing templates leave the same cluster in any order. */
  lemma AgreeingOrder(objects: map<ResourceKey, Object>, ts: seq<Template>, ts': seq<Template>, p: seq<nat>,
                      rejects: set<ResourceKey>)
    requires Reordered(ts, ts', p) && Agree(ts, rejects)
    ensures Applied(objects, AllOutputs(ts'), rejects) == Applied(objects, AllOutputs(ts), rejects)
  {
    forall k | k !in rejects ensures LastContent(AllOutputs(ts'), k) == LastContent(AllOutputs(ts), k) {
      AgreeingLast(ts, ts', p, rejects, k);
    }
    SameContent(objects, AllOutputs(ts'), AllOutputs(ts), rejects);
  }

  lemma AgreeingLast(ts: seq<Template>, ts': seq<Template>, p: seq<nat>, rejects: set<ResourceKey>, k: ResourceKey)
    requires Reordered(ts, ts', p) && Agree(ts, rejects) && k !in rejects
    ensures LastContent(AllOutputs(ts'), k) == LastContent(AllOutputs(ts), k)
  {
    SomeTemplate(ts, k);
    SomeTemplate(ts', k);
    if LastContent(AllOutputs(ts), k).Some? {
      var j :| 0 <= j < |ts| && LastContent(AllOutputs(ts), k) == ContentOf(ts[j], k);
      assert j in p;
      var i :| 0 <= i < |p| && p[i] == j;
      assert ContentOf(ts'[i], k).Some?;
      var n :| 0 <= n < |ts'| && LastContent(AllOutputs(ts'), k) == ContentOf(ts'[n], k);
      assert Compatible(ContentOf(ts[p[n]], k), ContentOf(ts[j], k));
    }
  }

  /** The order in which `j` comes last. */
  function MovedLast(n: nat, j: nat): (p: seq<nat>)
    requires j < n
    ensures |p| == n && p[n - 1] == j
    ensures forall i :: 0 <= i < n ==> p[i] < n
    ensures forall i :: 0 <= i < n ==> i in p
  {
    var p := seq(n, i requires 0 <= i < n => if i < j then i else if i == n - 1 then j else i + 1);
    forall i | 0 <= i < n ensures i in p {
      assert p[if i < j then i else if i == j then n - 1 else i - 1] == i;
    }
    p
  }

  ghost function InOrder(ts: seq<Template>, p: seq<nat>): (ts': seq<Template>)
    requires |p| == |ts| && forall i :: 0 <= i < |p| ==> p[i] < |ts|
    ensures |ts'| == |ts| && forall i :: 0 <= i < |p| ==> ts'[i] == ts[p[i]]
  {
    seq(|p|, i requires 0 <= i < |p| => ts[p[i]])
  }

  ghost predicate AnyOrder(objects: map<ResourceKey, Object>, ts: seq<Template>, rejects: set<ResourceKey>) {
    forall ts', p :: Reordered(ts, ts', p) ==>
      Applied(objects, AllOutputs(ts'), rejects) == Applied(objects, AllOutputs(ts), rejects)
  }

  /** If no order matters, the content that a template leaves is the one that stays. */
  lemma LastWins(objects: map<ResourceKey, Object>, ts: seq<Template>, rejects: set<ResourceKey>, j: nat,
                 k: ResourceKey)
    requires AnyOrder(objects, ts, rejects) && j < |ts| && k !in rejects && ContentOf(ts[j], k).Some?
    ensures k in Applied(objects, AllOutputs(ts), rejects)
    ensures Applied(objects, AllOutputs(ts), rejects)[k].content == ContentOf(ts[j], k).value
  {
    var p := MovedLast(|ts|, j);
    var ts' := InOrder(ts, p);
    assert Reordered(ts, ts', p);
    LastTemplate(ts', k);
    AppliedContent(objects, AllOutputs(ts'), rejects, k);
  }

  /** The order of the templates does not matter for the cluster exactly when they agree. */
  lemma OrderMattersIff(objects: map<ResourceKey, Object>, ts: seq<Template>, rejects: set<ResourceKey>)
    ensures AnyOrder(objects, ts, rejects) <==> Agree(ts, rejects)
  {
    if Agree(ts, rejects) {
      forall ts', p | Reordered(ts, ts', p)
        ensures Applied(objects, AllOutputs(ts'), rejects) == Applied(objects, AllOutputs(ts), rejects)
      {
        AgreeingOrder(objects, ts, ts', p, rejects);
      }
    }
    if AnyOrder(objects, ts, rejects) {
      forall i, j, k | 0 <= i < |ts| && 0 <= j < |ts| && k !in rejects
        ensures Compatible(ContentOf(ts[i], k), ContentOf(ts[j], k))
      {
        if ContentOf(ts[i], k).Some? && ContentOf(ts[j], k).Some? {
          LastWins(objects, ts, rejects, i, k);
          LastWins(objects, ts, rejects, j, k);
        }
      }
    }
  }

  /** A pass does the same to each template in any order; to the cluster, if the templates agree once rendered. */
  lemma PassIgnoresOrder(w: World, w': World, p: seq<nat>, rejects: set<ResourceKey>)
    requires UniqueNames(w.templates) && UniqueNames(w'.templates)
    requires w'.objects == w.objects && Reordered(w.templates, w'.templates, p)
    ensures Reordered(Pass(w, rejects).templates, Pass(w', rejects).templates, p)
    ensures Agree(RenderStage(w), rejects) ==> Pass(w', rejects).objects == Pass(w, rejects).objects
  {
    StageIgnoresOrder(w, w', p);
    if Agree(RenderStage(w), rejects) {
      AgreeingOrder(w.objects, RenderStage(w), RenderStage(w'), p, rejects);
    }
  }

  lemma StageIgnoresOrder(w: World, w': World, p: seq<nat>)
    requires UniqueNames(w.templates) && UniqueNames(w'.templates)
    requires w'.objects == w.objects && Reordered(w.templates, w'.templates, p)
    ensures Reordered(RenderStage(w), RenderStage(w'), p)
  {
    SameValues(w.templates, w'.templates, p);
  }

  lemma ReorderedMember(ts: seq<Template>, ts': seq<Template>, p: seq<nat>, t: Template)
    requires Reordered(ts, ts', p)
    ensures t in ts <==> t in ts'
  {
    if t in ts {
      var j :| 0 <= j < |ts| && ts[j] == t;
      assert j in p;
      var i :| 0 <= i < |p| && p[i] == j;
      assert ts'[i] == t;
    }
  }

  lemma SameValues(ts: seq<Template>, ts': seq<Template>, p: seq<nat>)
    requires UniqueNames(ts) && UniqueNames(ts') && Reordered(ts, ts', p)
    ensures ValuesOf(ts) == ValuesOf(ts')
  {
    forall d ensures d in ValuesOf(ts) <==> d in ValuesOf(ts') {
      ValuesKeys(ts, d);
      ValuesKeys(ts', d);
      forall t ensures t in ts <==> t in ts' { ReorderedMember(ts, ts', p, t); }
      assert forall i :: 0 <= i < |ts| ==> ts[i] in ts';
      assert forall i :: 0 <= i < |ts'| ==> ts'[i] in ts;
    }
    forall d | d in ValuesOf(ts') ensures ValuesOf(ts)[d] == ValuesOf(ts')[d] {
      ValuesKeys(ts', d);
      var i :| 0 <= i < |ts'| && ts'[i].name == d;
      ValuesAt(ts', i);
      ValuesAt(ts, p[i]);
    }
  }

  // ----- Whole loops of templates that own their resources

  /** Whatever a template renders to, now or later, `owner` says that it is its own. */
  ghost predicate OwnsAll(t: Template, owner: ResourceKey -> string) {
    && (forall r :: r in Outputs(t.resources) ==> owner(r.key) == t.name)
    && forall values :: t.render(values).Some? ==> forall r :: r in t.render(values).value ==> owner(r.key) == t.name
  }

  ghost predicate Owned(ts: seq<Template>, owner: ResourceKey -> string) {
    forall i :: 0 <= i < |ts| ==> OwnsAll(ts[i], owner)
  }

  lemma {:induction false} ContentKey(rs: seq<Rendered>, k: ResourceKey)
    ensures LastContent(rs, k).Some? ==> exists r :: r in rs && r.key == k
  {
    if rs == [] {
    } else {
      ContentKey(rs[..|rs| - 1], k);
      assert rs[|rs| - 1] in rs;
    }
  }

  lemma OwnedAgree(ts: seq<Template>, owner: ResourceKey -> string, rejects: set<ResourceKey>)
    requires UniqueNames(ts) && Owned(ts, owner)
    ensures Agree(ts, rejects)
  {
    forall i, j, k | 0 <= i < |ts| && 0 <= j < |ts| && k !in rejects
      ensures Compatible(ContentOf(ts[i], k), ContentOf(ts[j], k))
    {
      ContentOwner(ts[i], owner, k);
      ContentOwner(ts[j], owner, k);
    }
  }

  lemma ContentOwner(t: Template, owner: ResourceKey -> string, k: ResourceKey)
    requires OwnsAll(t, owner)
    ensures ContentOf(t, k).Some? ==> owner(k) == t.name
  {
    ContentKey(Outputs(t.resources), k);
  }

  lemma RenderKeepsOwned(w: World, owner: ResourceKey -> string)
    requires Owned(w.templates, owner)
    ensures Owned(RenderStage(w), owner)
  {
    forall i | 0 <= i < |w.templates| ensures OwnsAll(RenderStage(w)[i], owner) {
      var t, r := w.templates[i], RenderStage(w)[i];
      assert OwnsAll(t, owner);
      if t.resources != [] {
        assert Outputs(r.resources) == Outputs(t.resources);
      } else if t.render(ValuesOf(w.templates)).Some? {
        assert Outputs(r.resources) == t.render(ValuesOf(w.templates)).value;
      }
    }
  }

  lemma ApplyKeepsOwned(ts: seq<Template>, owner: ResourceKey -> string, rejects: set<ResourceKey>)
    requires Owned(ts, owner)
    ensures Owned(ApplyAll(ts, rejects), owner)
  {
    forall i | 0 <= i < |ts| ensures OwnsAll(ApplyAll(ts, rejects)[i], owner) {
      assert OwnsAll(ts[i], owner);
    }
  }

  /** Worlds that differ in the order of their templates only. */
  ghost predicate SameButOrder(w: World, w': World, p: seq<nat>, owner: ResourceKey -> string) {
    && UniqueNames(w.templates) && UniqueNames(w'.templates) && Owned(w.templates, owner)
    && w'.objects == w.objects && Reordered(w.templates, w'.templates, p)
  }

  lemma PassKeepsOrder(w: World, w': World, p: seq<nat>, owner: ResourceKey -> string, rejects: set<ResourceKey>)
    requires SameButOrder(w, w', p, owner)
    ensures SameButOrder(Pass(w, rejects), Pass(w', rejects), p, owner)
  {
    PassIgnoresOrder(w, w', p, rejects);
    RenderKeepsOwned(w, owner);
    ApplyKeepsOwned(RenderStage(w), owner, rejects);
    OwnedAgree(RenderStage(w), owner, rejects);
    assert UniqueNames(RenderStage(w));
    assert UniqueNames(RenderStage(w'));
  }

  /** Where no resource belongs to two templates, whole loops come out the same in any order of the templates. */
  lemma LoopIgnoresOrder(w: World, w': World, p: seq<nat>, owner: ResourceKey -> string, rejects: set<ResourceKey>,
                         n: nat)
    requires SameButOrder(w, w', p, owner)
    ensures SameButOrder(Loop(w, rejects, n), Loop(w', rejects, n), p, owner)
  {
    var i := 0;
    while i < n
      invariant i <= n && SameButOrder(Loop(w, rejects, i), Loop(w', rejects, i), p, owner)
    {
      PassKeepsOrder(Loop(w, rejects, i), Loop(w', rejects, i), p, owner, rejects);
      i := i + 1;
    }
  }
}
