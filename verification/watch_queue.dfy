/**
 The two controllers as one protocol over time. Objects change, change notices wait to be
 handled, handled notices put gateways and routes on the work queues, and a reconcile takes one
 off, looks up what it needs, reads its policies level by level while the cluster goes on
 changing, and in the end renders or fails. Classes and blueprints stay fixed, because neither
 controller watches them.

 A gateway's reconcile also reads the hostnames of the routes attached to it, and a route's
 reconcile the gateways that it refers to. Neither controller watches these, so `touched` keeps
 track of what they change.
 */
module WatchQueue {
  import opened Common
  import opened Json
  import opened Policies
  import opened WatchIndex
  import opened CurrentValues

  type Gateways = map<Key, Gateway>
  type Routes = map<Key, Route>

  datatype Cluster = Cluster(policies: map<PolicyKey, Policy>, gateways: Gateways, routes: Routes)

  ghost predicate Keyed(c: Cluster) {
    && WellKeyed(c.policies)
    && (forall k :: k in c.gateways ==> GatewayKey(c.gateways[k]) == k && k.namespace != "")
    && (forall k :: k in c.routes ==> RouteKey(c.routes[k]) == k)
  }

  // ----- What a reconcile looks up

  datatype Subject = OfGateway(key: Key) | OfRoute(key: Key)

  ghost function Subjects(c: Cluster): set<Subject> {
    (set k | k in c.gateways :: OfGateway(k)) + (set k | k in c.routes :: OfRoute(k))
  }

  /** The gateways that a reconcile of `rt` looks up. */
  function Followed(rt: Route): set<Key> {
    set i | 0 <= i < |rt.parentRefs| && Follows(rt, i) :: ParentKey(rt, i)
  }

  function LookedUp(x: Subject, routes: Routes): set<Key> {
    match x
    case OfGateway(k) => {k}
    case OfRoute(k) => if k in routes then Followed(routes[k]) else {}
  }

  predicate Managed(gateways: Gateways, p: Key, setup: Setup) {
    p in gateways && gateways[p].className in setup.blueprints
  }

  /** The gateways whose values a reconcile renders: those looked up that exist and have a managed class. */
  function Parents(x: Subject, gateways: Gateways, routes: Routes, setup: Setup): Gateways {
    map p | p in LookedUp(x, routes) && Managed(gateways, p, setup) :: gateways[p]
  }

  /** The hostnames of all routes attached to a gateway. */
  ghost function HostnamesFor(gateway: Key, routes: Routes): set<string> {
    set k, h | k in routes && AttachedTo(routes[k], gateway) && h in routes[k].hostnames :: h
  }

  /** Everything but policies that goes into the templates. */
  datatype View = View(route: Option<Route>, hostnames: set<string>, parents: Gateways)

  ghost function ViewOf(x: Subject, c: Cluster, setup: Setup): View {
    var parents := Parents(x, c.gateways, c.routes, setup);
    match x
    case OfGateway(k) => View(None, HostnamesFor(k, c.routes), parents)
    case OfRoute(k) => View(Get(c.routes, k), {}, parents)
  }

  /** There is something to reconcile: a gateway of a managed class, or a route. */
  predicate Live(x: Subject, v: View) {
    match x
    case OfGateway(k) => k in v.parents
    case OfRoute(_) => v.route.Some?
  }

  /** The index attaches the route to every gateway that its reconcile looks up. */
  ghost predicate Indexed(x: Subject, v: View) {
    x.OfRoute? && v.route.Some? ==> forall p :: p in Followed(v.route.value) ==> AttachedTo(v.route.value, p)
  }

  // ----- The protocol

  datatype Notice = ObjectNotice(subject: Subject) | ConfigNotice(before: Option<Policy>, after: Option<Policy>)

  /** A reconcile under way: what it has looked up, and the levels it has read for each parent. */
  datatype Progress = Progress(view: View, groups: map<(Key, Level), seq<Policy>>)

  /** What the templates were last rendered with. */
  datatype Rendering = Rendering(view: View, values: map<Key, Json>)

  datatype State = State(
    cluster: Cluster,
    notices: multiset<Notice>,
    queue: set<Subject>,
    working: map<Subject, Progress>,
    rendered: map<Subject, Rendering>,
    touched: set<Subject>)

  /**
   How a reconcile ends: whether it came to render its templates, whether its key is to come
   back at once or after a while, and the content with the new status that it writes, if it
   writes one.
   */
  datatype Ending = Ending(renders: bool, again: bool, written: Option<string>)

  datatype Event =
    | PutPolicy(policy: Policy)
    | DropPolicy(policyKey: PolicyKey)
    | PutGateway(gateway: Gateway)
    | DropGateway(gatewayKey: Key)
    | PutRoute(route: Route)
    | DropRoute(routeKey: Key)
    | Deliver(notice: Notice)
    | Resync(subject: Subject)
    | Begin(subject: Subject)
    | Read(subject: Subject, parent: Key, level: Level)
    | Finish(subject: Subject, ending: Ending)

  /** Every level of every parent has been read. */
  ghost predicate AllRead(w: Progress) {
    forall p, l: Level :: p in w.view.parents ==> (p, l) in w.groups
  }

  ghost predicate Enabled(s: State, e: Event) {
    match e
    // creation time, namespace and name cannot be changed, and an update of the same spec is filtered out
    case PutPolicy(p) =>
      p.namespace != "" && (KeyOf(p) in s.cluster.policies ==> s.cluster.policies[KeyOf(p)].created == p.created)
    case DropPolicy(k) => k in s.cluster.policies
    case PutGateway(g) => g.namespace != ""
    case DropGateway(k) => k in s.cluster.gateways
    case PutRoute(_) => true
    case DropRoute(k) => k in s.cluster.routes
    case Deliver(n) => n in s.notices
    case Resync(_) => true
    case Begin(x) => x in s.queue && x !in s.working
    case Read(x, p, _) => x in s.working && p in s.working[x].view.parents
    case Finish(x, ending) =>
      x in s.working && AllRead(s.working[x]) && (ending.written.Some? ==> x in Subjects(s.cluster))
  }

  /** A change from `before` to `after` wakes one of the gateways. */
  predicate WakesOneOf(n: Notice, gateways: Gateways, setup: Setup) {
    && n.ConfigNotice?
    && exists p ::
         p in gateways && (WakesAny(n.before, gateways[p], setup) || WakesAny(n.after, gateways[p], setup))
  }

  /** Handling the notice puts `x` on its queue, given the gateways and routes that exist by then. */
  ghost predicate Enqueues(n: Notice, x: Subject, c: Cluster, setup: Setup) {
    if n.ObjectNotice? then n.subject == x
    else
      match x
      case OfGateway(k) => k in c.gateways && WakesOneOf(n, map[k := c.gateways[k]], setup)
      case OfRoute(k) =>
        k in c.routes && WakesOneOf(n, map p | p in c.gateways && AttachedTo(c.routes[k], p) :: c.gateways[p], setup)
  }

  ghost function Enqueued(n: Notice, c: Cluster, setup: Setup): set<Subject> {
    if n.ObjectNotice? then {n.subject} else set x | x in Subjects(c) && Enqueues(n, x, c, setup)
  }

  /** What sees a change of gateways and routes. */
  ghost function Touched(before: Cluster, after: Cluster, setup: Setup): set<Subject> {
    set x | x in Subjects(after) && ViewOf(x, before, setup) != ViewOf(x, after, setup)
  }

  /** A change of the object of `x`, and its notice. */
  ghost function Changed(s: State, after: Cluster, x: Subject, setup: Setup): State {
    s.(cluster := after, notices := s.notices + multiset{ObjectNotice(x)},
       touched := s.touched + Touched(s.cluster, after, setup))
  }

  /** The cluster with a new status of `x`. */
  ghost function Written(c: Cluster, x: Subject, content: string): Cluster
    requires x in Subjects(c)
  {
    match x
    case OfGateway(k) => c.(gateways := c.gateways[k := c.gateways[k].(content := content)])
    case OfRoute(k) => c.(routes := c.routes[k := c.routes[k].(content := content)])
  }

  ghost function Apply(s: State, e: Event, setup: Setup): State
    requires Enabled(s, e)
  {
    var c := s.cluster;
    match e
    case PutPolicy(p) =>
      var before := Get(c.policies, KeyOf(p));
      s.(cluster := c.(policies := c.policies[KeyOf(p) := p]),
         notices := s.notices + if before.Some? && before.value.spec == p.spec then multiset{}
                                else multiset{ConfigNotice(before, Some(p))})
    case DropPolicy(k) =>
      s.(cluster := c.(policies := c.policies - {k}),
         notices := s.notices + multiset{ConfigNotice(Some(c.policies[k]), None)})
    case PutGateway(g) =>
      Changed(s, c.(gateways := c.gateways[GatewayKey(g) := g]), OfGateway(GatewayKey(g)), setup)
    case DropGateway(k) =>
      Changed(s, c.(gateways := c.gateways - {k}), OfGateway(k), setup)
    case PutRoute(rt) =>
      Changed(s, c.(routes := c.routes[RouteKey(rt) := rt]), OfRoute(RouteKey(rt)), setup)
    case DropRoute(k) =>
      Changed(s, c.(routes := c.routes - {k}), OfRoute(k), setup)
    case Deliver(n) =>
      s.(notices := s.notices - multiset{n}, queue := s.queue + Enqueued(n, c, setup))
    case Resync(x) =>
      s.(queue := s.queue + {x})
    case Begin(x) =>
      Begun(s, x, ViewOf(x, c, setup))
    case Read(x, p, l) =>
      var w := s.working[x];
      s.(working := s.working[x := w.(groups := w.groups[(p, l) := GroupNow(c.policies, l, w.view.parents[p], setup)])])
    case Finish(x, ending) =>
      var done := Finished(s, x, ToRender(s.working[x], ending.renders, setup), ending.again);
      if ending.written.None? then done else Changed(done, Written(c, x, ending.written.value), x, setup)
  }

  function Begun(s: State, x: Subject, v: View): State {
    if Live(x, v) then
      s.(queue := s.queue - {x}, working := s.working[x := Progress(v, map[])], touched := s.touched - {x})
    else
      s.(queue := s.queue - {x}, touched := s.touched - {x})
  }

  ghost predicate ManagedParents(v: View, setup: Setup) {
    forall p :: p in v.parents ==> v.parents[p].className in setup.blueprints
  }

  ghost function ResultFor(w: Progress, p: Key, setup: Setup): Result
    requires AllRead(w) && ManagedParents(w.view, setup) && p in w.view.parents
  {
    Assemble(setup.blueprints[w.view.parents[p].className], map l: Level | true :: w.groups[(p, l)])
  }

  /** What is rendered, unless a lookup fails or the reconcile does not come to rendering. */
  ghost function ToRender(w: Progress, renders: bool, setup: Setup): Option<Rendering>
    requires AllRead(w)
  {
    if renders && ManagedParents(w.view, setup) && forall p :: p in w.view.parents ==> ResultFor(w, p, setup).Ok? then
      Some(Rendering(w.view, map p | p in w.view.parents :: ResultFor(w, p, setup).values))
    else None
  }

  /** A reconcile that fails or has something left to do puts its key back. */
  function Finished(s: State, x: Subject, rendering: Option<Rendering>, again: bool): State {
    s.(working := s.working - {x},
       rendered := if rendering.Some? then s.rendered[x := rendering.value] else s.rendered,
       queue := if rendering.None? || again then s.queue + {x} else s.queue)
  }

  // ----- The invariant

  /** Something already under way will reconcile `x` again. */
  ghost predicate Covered(s: State, x: Subject, v: View, setup: Setup) {
    || x in s.queue
    || ObjectNotice(x) in s.notices
    || exists n :: n in s.notices && WakesOneOf(n, v.parents, setup)
  }

  /** `u` has what counts of the present view `v`: its parents, for a gateway; all of it, unless touched. */
  ghost predicate Fits(s: State, x: Subject, u: View, v: View) {
    && (x.OfGateway? || x !in s.touched ==> u.parents == v.parents)
    && (x !in s.touched ==> u == v)
  }

  /** What was read so far still counts. */
  ghost predicate ReadsCount(w: Progress, policies: map<PolicyKey, Policy>, setup: Setup) {
    forall p, l :: p in w.view.parents && (p, l) in w.groups ==>
      w.groups[(p, l)] == GroupNow(policies, l, w.view.parents[p], setup)
  }

  /** The values of a gateway of a managed class. */
  ghost function NowFor(policies: map<PolicyKey, Policy>, g: Gateway, setup: Setup): Result
    requires g.className in setup.blueprints
  {
    ValuesNow(policies, g, setup.blueprints[g.className], setup)
  }

  /** For each parent, exactly the values of now. */
  ghost predicate ValuesCount(r: Rendering, policies: map<PolicyKey, Policy>, setup: Setup) {
    && ManagedParents(r.view, setup) && r.values.Keys == r.view.parents.Keys
    && forall p :: p in r.values ==> NowFor(policies, r.view.parents[p], setup) == Ok(r.values[p])
  }

  /** A touched route may have been rendered with gateways that are no longer as they were. */
  ghost predicate Settled(s: State, x: Subject) {
    x.OfGateway? || x !in s.touched
  }

  ghost predicate UpToDate(s: State, x: Subject, v: View, setup: Setup)
    requires x in s.working
  {
    Fits(s, x, s.working[x].view, v) && (Settled(s, x) ==> ReadsCount(s.working[x], s.cluster.policies, setup))
  }

  ghost predicate Rendered(s: State, x: Subject, v: View, setup: Setup) {
    Settled(s, x) ==>
      && x in s.rendered && Fits(s, x, s.rendered[x].view, v)
      && ValuesCount(s.rendered[x], s.cluster.policies, setup)
  }

  ghost predicate Current(s: State, x: Subject, v: View, setup: Setup) {
    Live(x, v) && Indexed(x, v) && !Covered(s, x, v, setup) ==>
      if x in s.working then UpToDate(s, x, v, setup) else Rendered(s, x, v, setup)
  }

  ghost predicate Inv(s: State, setup: Setup) {
    Keyed(s.cluster) && forall x :: x in Subjects(s.cluster) ==> Current(s, x, ViewOf(x, s.cluster, setup), setup)
  }

  lemma ViewManaged(x: Subject, c: Cluster, setup: Setup)
    ensures ManagedParents(ViewOf(x, c, setup), setup)
  {}

  // ----- Changes of policies

  /** A change that wakes none of the parents leaves all that is read for them as it was. */
  lemma UnwokenParents(c: Cluster, ps': map<PolicyKey, Policy>, k: PolicyKey, parents: Gateways, p: Key, setup: Setup)
    requires setup.controllerNamespace != "" && WellKeyed(c.policies) && WellKeyed(ps')
    requires c.policies - {k} == ps' - {k} && p in parents && parents[p].namespace != ""
    requires !WakesOneOf(ConfigNotice(Get(c.policies, k), Get(ps', k)), parents, setup)
    ensures forall l: Level :: GroupNow(c.policies, l, parents[p], setup) == GroupNow(ps', l, parents[p], setup)
    ensures forall bp :: ValuesNow(c.policies, parents[p], bp, setup) == ValuesNow(ps', parents[p], bp, setup)
  {
    UnwokenValues(c.policies, ps', k, parents[p], setup);
  }

  /** A change of one policy keeps the invariant, provided its notice is pending. */
  lemma PolicyChangeKeeps(s: State, s': State, k: PolicyKey, setup: Setup)
    requires setup.controllerNamespace != "" && Inv(s, setup) && WellKeyed(s'.cluster.policies)
    requires s' == s.(cluster := s.cluster.(policies := s'.cluster.policies), notices := s'.notices)
    requires s.cluster.policies - {k} == s'.cluster.policies - {k} && s.notices <= s'.notices
    requires Get(s.cluster.policies, k) != Get(s'.cluster.policies, k)
         ==> ConfigNotice(Get(s.cluster.policies, k), Get(s'.cluster.policies, k)) in s'.notices
    ensures Inv(s', setup)
  {
    forall x | x in Subjects(s'.cluster) ensures Current(s', x, ViewOf(x, s'.cluster, setup), setup) {
      var v := ViewOf(x, s.cluster, setup);
      assert v == ViewOf(x, s'.cluster, setup);
      assert Current(s, x, v, setup);
      if Live(x, v) && Indexed(x, v) && !Covered(s', x, v, setup) {
        assert !Covered(s, x, v, setup);
        if Get(s.cluster.policies, k) == Get(s'.cluster.policies, k) {
          SameMaps(s.cluster.policies, s'.cluster.policies, k);
        } else if Settled(s, x) {
          UnwokenKeeps(s, s', k, x, v, setup);
        }
      }
    }
  }

  lemma UnwokenKeeps(s: State, s': State, k: PolicyKey, x: Subject, v: View, setup: Setup)
    requires setup.controllerNamespace != "" && WellKeyed(s.cluster.policies) && WellKeyed(s'.cluster.policies)
    requires s' == s.(cluster := s.cluster.(policies := s'.cluster.policies), notices := s'.notices)
    requires s.cluster.policies - {k} == s'.cluster.policies - {k} && Settled(s, x)
    requires forall p :: p in v.parents ==> v.parents[p].namespace != ""
    requires !WakesOneOf(ConfigNotice(Get(s.cluster.policies, k), Get(s'.cluster.policies, k)), v.parents, setup)
    ensures x in s.working && UpToDate(s, x, v, setup) ==> UpToDate(s', x, v, setup)
    ensures Rendered(s, x, v, setup) ==> Rendered(s', x, v, setup)
  {
    forall p | p in v.parents
      ensures forall l: Level ::
        GroupNow(s.cluster.policies, l, v.parents[p], setup) == GroupNow(s'.cluster.policies, l, v.parents[p], setup)
      ensures forall bp :: (
        ValuesNow(s.cluster.policies, v.parents[p], bp, setup)
        == ValuesNow(s'.cluster.policies, v.parents[p], bp, setup))
    {
      UnwokenParents(s.cluster, s'.cluster.policies, k, v.parents, p, setup);
    }
  }

  lemma PutPolicyKeeps(s: State, p: Policy, setup: Setup)
    requires setup.controllerNamespace != "" && Inv(s, setup) && Enabled(s, PutPolicy(p))
    ensures Inv(Apply(s, PutPolicy(p), setup), setup)
  {
    var s', k := Apply(s, PutPolicy(p), setup), KeyOf(p);
    assert s.cluster.policies - {k} == s'.cluster.policies - {k};
    if k in s.cluster.policies && s.cluster.policies[k].spec == p.spec {
      assert s.cluster.policies[k] == p;
    }
    PolicyChangeKeeps(s, s', k, setup);
  }

  // ----- Changes of gateways and routes

  /** Only the object of `x` differs. */
  ghost predicate OnlyChange(c: Cluster, c': Cluster, x: Subject) {
    && c'.policies == c.policies
    && (forall k :: OfGateway(k) != x ==> Get(c.gateways, k) == Get(c'.gateways, k))
    && (forall k :: OfRoute(k) != x ==> Get(c.routes, k) == Get(c'.routes, k))
  }

  /** What a gateway renders for is itself, so that the change of another object does not show in it. */
  lemma OwnParents(k: Key, c: Cluster, c': Cluster, x: Subject, setup: Setup)
    requires OnlyChange(c, c', x) && x != OfGateway(k)
    ensures ViewOf(OfGateway(k), c, setup).parents == ViewOf(OfGateway(k), c', setup).parents
  {
    assert Get(c.gateways, k) == Get(c'.gateways, k);
  }

  /** A change of one object keeps the invariant: its own notice is pending, and what else sees it is touched. */
  lemma ObjectChangeKeeps(s: State, after: Cluster, x: Subject, setup: Setup)
    requires Inv(s, setup) && Keyed(after) && OnlyChange(s.cluster, after, x)
    ensures Inv(Changed(s, after, x, setup), setup)
  {
    var s' := Changed(s, after, x, setup);
    forall y | y in Subjects(after) ensures Current(s', y, ViewOf(y, after, setup), setup) {
      if y != x {
        OtherKeeps(s, after, x, y, setup);
      }
    }
  }

  lemma OtherKeeps(s: State, after: Cluster, x: Subject, y: Subject, setup: Setup)
    requires Inv(s, setup) && OnlyChange(s.cluster, after, x) && y in Subjects(after) && y != x
    ensures Current(Changed(s, after, x, setup), y, ViewOf(y, after, setup), setup)
  {
    var s', v, v' := Changed(s, after, x, setup), ViewOf(y, s.cluster, setup), ViewOf(y, after, setup);
    OtherSubject(s.cluster, after, x, y);
    assert Current(s, y, v, setup);
    if y.OfGateway? {
      OwnParents(y.key, s.cluster, after, x, setup);
    } else {
      assert v'.route == v.route;
    }
    if v == v' || y.OfGateway? {
      assert Covered(s, y, v, setup) ==> Covered(s', y, v', setup);
    }
  }

  lemma OtherSubject(c: Cluster, c': Cluster, x: Subject, y: Subject)
    requires OnlyChange(c, c', x) && y in Subjects(c') && y != x
    ensures y in Subjects(c)
  {
    match y
    case OfGateway(k) => assert Get(c.gateways, k) == Get(c'.gateways, k);
    case OfRoute(k) => assert Get(c.routes, k) == Get(c'.routes, k);
  }

  // ----- Handling notices

  /** Handling a notice queues everything that it stood for. */
  lemma DeliverKeeps(s: State, n: Notice, setup: Setup)
    requires Inv(s, setup) && n in s.notices
    ensures Inv(Apply(s, Deliver(n), setup), setup)
  {
    var s' := Apply(s, Deliver(n), setup);
    forall x | x in Subjects(s'.cluster) ensures Current(s', x, ViewOf(x, s'.cluster, setup), setup) {
      var v := ViewOf(x, s.cluster, setup);
      assert Current(s, x, v, setup);
      if Indexed(x, v) && Covered(s, x, v, setup) && x !in s'.queue {
        if n.ConfigNotice? && WakesOneOf(n, v.parents, setup) {
          StoodFor(n, x, s.cluster, setup);
        }
        assert forall m :: m in s.notices && m != n ==> m in s'.notices;
        assert Covered(s', x, v, setup);
      }
    }
  }

  lemma StoodFor(n: Notice, x: Subject, c: Cluster, setup: Setup)
    requires x in Subjects(c) && Indexed(x, ViewOf(x, c, setup)) && WakesOneOf(n, ViewOf(x, c, setup).parents, setup)
    ensures Enqueues(n, x, c, setup)
  {
    var parents := ViewOf(x, c, setup).parents;
    var p :| p in parents && (WakesAny(n.before, parents[p], setup) || WakesAny(n.after, parents[p], setup));
    if x.OfGateway? {
      assert map[x.key := c.gateways[x.key]][p] == parents[p];
    } else {
      var attached := map q | q in c.gateways && AttachedTo(c.routes[x.key], q) :: c.gateways[q];
      assert p in attached && attached[p] == parents[p];
    }
  }

  // ----- Steps of a reconcile

  /** Such a step touches the bookkeeping of its own subject only. */
  lemma WorkKeeps(s: State, s': State, x: Subject, setup: Setup)
    requires Inv(s, setup) && s'.cluster == s.cluster && s.notices <= s'.notices
    requires forall y :: y != x && y in s.queue ==> y in s'.queue
    requires forall y :: y != x ==> (y in s.touched <==> y in s'.touched)
    requires forall y :: y != x ==>
               Get(s.working, y) == Get(s'.working, y) && Get(s.rendered, y) == Get(s'.rendered, y)
    requires x in Subjects(s'.cluster) ==> Current(s', x, ViewOf(x, s'.cluster, setup), setup)
    ensures Inv(s', setup)
  {
    forall y | y in Subjects(s'.cluster) ensures Current(s', y, ViewOf(y, s'.cluster, setup), setup) {
      if y != x {
        var v := ViewOf(y, s.cluster, setup);
        assert Current(s, y, v, setup);
        assert Covered(s, y, v, setup) ==> Covered(s', y, v, setup);
        assert Get(s.working, y) == Get(s'.working, y) && Get(s.rendered, y) == Get(s'.rendered, y);
      }
    }
  }

  lemma BeginKeeps(s: State, x: Subject, setup: Setup)
    requires Inv(s, setup) && Enabled(s, Begin(x))
    ensures Inv(Apply(s, Begin(x), setup), setup)
  {
    WorkKeeps(s, Apply(s, Begin(x), setup), x, setup);
  }

  lemma ReadKeeps(s: State, x: Subject, p: Key, l: Level, setup: Setup)
    requires Inv(s, setup) && Enabled(s, Read(x, p, l))
    ensures Inv(Apply(s, Read(x, p, l), setup), setup)
  {
    var s' := Apply(s, Read(x, p, l), setup);
    if x in Subjects(s.cluster) {
      var v := ViewOf(x, s.cluster, setup);
      assert Current(s, x, v, setup);
      assert Covered(s, x, v, setup) <==> Covered(s', x, v, setup);
    }
    WorkKeeps(s, s', x, setup);
  }

  /** Resynchronising something that is as it should be does no harm. */
  lemma ResyncKeeps(s: State, x: Subject, setup: Setup)
    requires Inv(s, setup)
    ensures Inv(Apply(s, Resync(x), setup), setup)
  {
    WorkKeeps(s, Apply(s, Resync(x), setup), x, setup);
  }

  /** All levels read and all still counting: the result is that of now. */
  lemma AllReadIsNow(w: Progress, policies: map<PolicyKey, Policy>, p: Key, setup: Setup)
    requires AllRead(w) && ManagedParents(w.view, setup) && p in w.view.parents && ReadsCount(w, policies, setup)
    ensures ResultFor(w, p, setup) == NowFor(policies, w.view.parents[p], setup)
  {
    assert (map l: Level | true :: w.groups[(p, l)])
        == map l: Level | true :: GroupNow(policies, l, w.view.parents[p], setup);
  }

  lemma RenderedCounts(w: Progress, policies: map<PolicyKey, Policy>, setup: Setup)
    requires AllRead(w) && ReadsCount(w, policies, setup) && ToRender(w, true, setup).Some?
    ensures ValuesCount(ToRender(w, true, setup).value, policies, setup)
  {
    forall p | p in w.view.parents ensures ResultFor(w, p, setup) == NowFor(policies, w.view.parents[p], setup) {
      AllReadIsNow(w, policies, p, setup);
    }
  }

  lemma FinishedKeeps(s: State, x: Subject, renders: bool, again: bool, setup: Setup)
    requires Inv(s, setup) && x in s.working && AllRead(s.working[x])
    ensures Inv(Finished(s, x, ToRender(s.working[x], renders, setup), again), setup)
  {
    var s' := Finished(s, x, ToRender(s.working[x], renders, setup), again);
    if x in Subjects(s.cluster) {
      var v := ViewOf(x, s.cluster, setup);
      assert Current(s, x, v, setup);
      assert Covered(s, x, v, setup) ==> Covered(s', x, v, setup);
      if !Covered(s', x, v, setup) && Live(x, v) && Indexed(x, v) && Settled(s, x) {
        RenderedCounts(s.working[x], s.cluster.policies, setup);
      }
    }
    WorkKeeps(s, s', x, setup);
  }

  lemma WrittenKeyed(c: Cluster, x: Subject, content: string)
    requires Keyed(c) && x in Subjects(c)
    ensures Keyed(Written(c, x, content)) && OnlyChange(c, Written(c, x, content), x)
  {}

  lemma FinishKeeps(s: State, x: Subject, ending: Ending, setup: Setup)
    requires Inv(s, setup) && Enabled(s, Finish(x, ending))
    ensures Inv(Apply(s, Finish(x, ending), setup), setup)
  {
    FinishedKeeps(s, x, ending.renders, ending.again, setup);
    if ending.written.Some? {
      WrittenKeyed(s.cluster, x, ending.written.value);
      var done := Finished(s, x, ToRender(s.working[x], ending.renders, setup), ending.again);
      ObjectChangeKeeps(done, Written(s.cluster, x, ending.written.value), x, setup);
    }
  }

  // ----- Whole runs

  /** The object that an event changes from outside, and the cluster after it. */
  ghost function ObjectChange(c: Cluster, e: Event): (Subject, Cluster)
    requires e.PutGateway? || e.DropGateway? || e.PutRoute? || e.DropRoute?
  {
    match e
    case PutGateway(g) => (OfGateway(GatewayKey(g)), c.(gateways := c.gateways[GatewayKey(g) := g]))
    case DropGateway(k) => (OfGateway(k), c.(gateways := c.gateways - {k}))
    case PutRoute(rt) => (OfRoute(RouteKey(rt)), c.(routes := c.routes[RouteKey(rt) := rt]))
    case DropRoute(k) => (OfRoute(k), c.(routes := c.routes - {k}))
  }

  predicate ChangesObject(e: Event) {
    e.PutGateway? || e.DropGateway? || e.PutRoute? || e.DropRoute?
  }

  lemma ObjectChangeIs(s: State, e: Event, setup: Setup)
    requires ChangesObject(e) && Enabled(s, e) && Keyed(s.cluster)
    ensures var (x, after) := ObjectChange(s.cluster, e);
            Apply(s, e, setup) == Changed(s, after, x, setup) && Keyed(after) && OnlyChange(s.cluster, after, x)
  {}

  /** Every step keeps the invariant. */
  lemma StepKeeps(s: State, e: Event, setup: Setup)
    requires setup.controllerNamespace != "" && Inv(s, setup) && Enabled(s, e)
    ensures Inv(Apply(s, e, setup), setup)
  {
    if ChangesObject(e) {
      var (x, after) := ObjectChange(s.cluster, e);
      ObjectChangeIs(s, e, setup);
      ObjectChangeKeeps(s, after, x, setup);
    } else {
      ControllerStepKeeps(s, e, setup);
    }
  }

  lemma ControllerStepKeeps(s: State, e: Event, setup: Setup)
    requires setup.controllerNamespace != "" && Inv(s, setup) && Enabled(s, e) && !ChangesObject(e)
    ensures Inv(Apply(s, e, setup), setup)
  {
    match e
    case PutPolicy(p) =>
      PutPolicyKeeps(s, p, setup);
    case DropPolicy(k) =>
      assert s.cluster.policies - {k} == Apply(s, e, setup).cluster.policies - {k};
      PolicyChangeKeeps(s, Apply(s, e, setup), k, setup);
    case Deliver(n) =>
      DeliverKeeps(s, n, setup);
    case Resync(x) =>
      ResyncKeeps(s, x, setup);
    case Begin(x) =>
      BeginKeeps(s, x, setup);
    case Read(x, p, l) =>
      ReadKeeps(s, x, p, l, setup);
    case Finish(x, ending) =>
      FinishKeeps(s, x, ending, setup);
  }

  ghost predicate Possible(s: State, events: seq<Event>, setup: Setup)
    decreases |events|
  {
    events == [] || (Enabled(s, events[0]) && Possible(Apply(s, events[0], setup), events[1..], setup))
  }

  ghost function After(s: State, events: seq<Event>, setup: Setup): State
    requires Possible(s, events, setup)
    decreases |events|
  {
    if events == [] then s else After(Apply(s, events[0], setup), events[1..], setup)
  }

  const START := State(Cluster(map[], map[], map[]), multiset{}, {}, map[], map[], {})

  lemma {:induction false} RunKeeps(s: State, events: seq<Event>, setup: Setup)
    requires setup.controllerNamespace != "" && Inv(s, setup) && Possible(s, events, setup)
    ensures Inv(After(s, events, setup), setup)
    decreases |events|
  {
    if events == [] {
    } else {
      StepKeeps(s, events[0], setup);
      RunKeeps(Apply(s, events[0], setup), events[1..], setup);
    }
  }

  /** `x` was last rendered with everything that a reconcile of it would look up and read now. */
  ghost predicate RenderedNow(s: State, x: Subject, setup: Setup) {
    && x in s.rendered && s.rendered[x].view == ViewOf(x, s.cluster, setup)
    && ValuesCount(s.rendered[x], s.cluster.policies, setup)
  }

  /**
   In every reachable state, a live gateway of a managed class that nothing pending covers
   and no reconcile is working on was last rendered with exactly itself and what a lookup
   returns now.
   */
  lemma RenderedIsCurrent(events: seq<Event>, setup: Setup, k: Key, ls: Lists)
    requires setup.controllerNamespace != "" && Possible(START, events, setup)
    requires var s := After(START, events, setup);
             && Managed(s.cluster.gateways, k, setup) && OfGateway(k) !in s.working
             && !Covered(s, OfGateway(k), ViewOf(OfGateway(k), s.cluster, setup), setup)
             && forall l: Level :: Answers(ListFor(ls, l), s.cluster.policies, l, s.cluster.gateways[k], setup)
    ensures var s, x := After(START, events, setup), OfGateway(k);
            var g := s.cluster.gateways[k];
            && x in s.rendered && s.rendered[x].view.parents == map[k := g] && s.rendered[x].values.Keys == {k}
            && LookupResult(setup.blueprints[g.className], ls, g) == Ok(s.rendered[x].values[k])
  {
    RunKeeps(START, events, setup);
    GatewayIsCurrent(After(START, events, setup), setup, k);
    NowIsLookup(After(START, events, setup).cluster, After(START, events, setup).cluster.gateways[k], setup, ls);
  }

  lemma GatewayIsCurrent(s: State, setup: Setup, k: Key)
    requires Inv(s, setup) && Managed(s.cluster.gateways, k, setup) && OfGateway(k) !in s.working
    requires !Covered(s, OfGateway(k), ViewOf(OfGateway(k), s.cluster, setup), setup)
    ensures OfGateway(k) in s.rendered
    ensures var r, g := s.rendered[OfGateway(k)], s.cluster.gateways[k];
            && r.view.parents == map[k := g] && r.values.Keys == {k}
            && NowFor(s.cluster.policies, g, setup) == Ok(r.values[k])
  {
    var x := OfGateway(k);
    var v := ViewOf(x, s.cluster, setup);
    OnlyParent(s.cluster, k, setup);
    assert x in Subjects(s.cluster) && Current(s, x, v, setup);
  }

  lemma OnlyParent(c: Cluster, k: Key, setup: Setup)
    requires Managed(c.gateways, k, setup)
    ensures ViewOf(OfGateway(k), c, setup).parents == map[k := c.gateways[k]]
  {}

  /**
   In every reachable state, a live gateway or route that nothing pending covers, that no
   reconcile is working on, and that is not touched, was last rendered with everything as it
   is now. For a route this needs that the index attaches it to the gateways it looks up.
   */
  lemma UntouchedIsCurrent(events: seq<Event>, setup: Setup, x: Subject)
    requires setup.controllerNamespace != "" && Possible(START, events, setup)
    requires var s := After(START, events, setup);
             var v := ViewOf(x, s.cluster, setup);
             && x in Subjects(s.cluster) && Live(x, v) && Indexed(x, v)
             && !Covered(s, x, v, setup) && x !in s.working && x !in s.touched
    ensures RenderedNow(After(START, events, setup), x, setup)
  {
    RunKeeps(START, events, setup);
    var s := After(START, events, setup);
    assert Current(s, x, ViewOf(x, s.cluster, setup), setup);
  }

  /** `NowFor` is what a lookup over any answers of the API returns. */
  lemma NowIsLookup(c: Cluster, g: Gateway, setup: Setup, ls: Lists)
    requires WellKeyed(c.policies) && setup.controllerNamespace != "" && g.namespace != ""
    requires g.className in setup.blueprints
    requires forall l: Level :: Answers(ListFor(ls, l), c.policies, l, g, setup)
    ensures NowFor(c.policies, g, setup) == LookupResult(setup.blueprints[g.className], ls, g)
  {
    ValuesNowIsLookup(c.policies, g, setup.blueprints[g.className], setup, ls);
  }

  /** A route is indexed exactly if the index accepts, for each reference followed, one to the same gateway. */
  lemma IndexedIff(k: Key, v: View)
    requires v.route.Some?
    ensures var rt := v.route.value;
            Indexed(OfRoute(k), v) <==>
              forall i :: 0 <= i < |rt.parentRefs| && Follows(rt, i) ==>
                exists j :: 0 <= j < |rt.parentRefs| && Accepts(rt, j) && ParentKey(rt, j) == ParentKey(rt, i)
  {
    var rt := v.route.value;
    forall p ensures AttachedTo(rt, p)
                <==> exists j :: 0 <= j < |rt.parentRefs| && Accepts(rt, j) && ParentKey(rt, j) == p {
      AttachedIffAccepted(rt, p);
    }
    forall i | 0 <= i < |rt.parentRefs| && Follows(rt, i) ensures ParentKey(rt, i) in Followed(rt) {}
  }
}
