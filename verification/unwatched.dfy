/**
 What the controllers of `WatchQueue` do not notice: changes of gateways, for routes, and
 changes of routes, for gateways. Exactly when such a change leaves something rendered with
 what is no longer so, and that it stays like that even when nothing is left to do.
 */
module Unwatched {
  import opened Common
  import opened Policies
  import opened WatchIndex
  import opened CurrentValues
  import opened WatchQueue
  import opened WatchRest

  // ----- Changes that nothing makes up for

  /** Nothing that is pending or under way will come to `x`. */
  ghost predicate Ignored(s: State, x: Subject, setup: Setup) {
    && x !in s.queue && x !in s.working
    && forall n :: n in s.notices ==> !Enqueues(n, x, s.cluster, setup)
  }

  lemma IgnoredStep(s: State, e: Event, x: Subject, setup: Setup)
    requires Ignored(s, x, setup) && Quiet(s, e, setup)
    ensures var s' := Apply(s, e, setup);
            Ignored(s', x, setup) && s'.cluster == s.cluster && Get(s'.rendered, x) == Get(s.rendered, x)
  {}

  /** Quiet steps never come to `x`. */
  lemma {:induction false} IgnoredRun(s: State, events: seq<Event>, x: Subject, setup: Setup)
    requires Ignored(s, x, setup) && Undisturbed(s, events, setup) && Added(s, events, setup) == 0
    ensures Possible(s, events, setup)
    ensures var s' := After(s, events, setup);
            s'.cluster == s.cluster && Get(s'.rendered, x) == Get(s.rendered, x)
    decreases |events|
  {
    if events == [] {
    } else {
      IgnoredStep(s, events[0], x, setup);
      IgnoredRun(Apply(s, events[0], setup), events[1..], x, setup);
    }
  }

  /** With the controllers at rest, the change of another object leaves nothing that will come to `x`. */
  lemma RestIgnores(s: State, e: Event, x: Subject, setup: Setup)
    requires AtRest(s) && ChangesObject(e) && Enabled(s, e) && ObjectChange(s.cluster, e).0 != x
    ensures Ignored(Apply(s, e, setup), x, setup)
  {}

  lemma SameRendered(s: State, s': State, x: Subject, setup: Setup)
    requires RenderedNow(s, x, setup) && s'.cluster.policies == s.cluster.policies
    requires Get(s'.rendered, x) == Get(s.rendered, x)
    ensures RenderedNow(s', x, setup) <==> ViewOf(x, s'.cluster, setup) == ViewOf(x, s.cluster, setup)
  {}

  /**
   Someone changes a gateway or route, and nothing that is pending then will come to `x`.
   Whatever steps the controllers take, as long as none fails, comes back or writes a status:
   `x` stays rendered as it should be exactly if the change does not show in what its
   reconcile would look up.
   */
  lemma UnnoticedIff(s: State, e: Event, x: Subject, events: seq<Event>, setup: Setup)
    requires Keyed(s.cluster) && RenderedNow(s, x, setup)
    requires ChangesObject(e) && Enabled(s, e) && Ignored(Apply(s, e, setup), x, setup)
    requires Undisturbed(Apply(s, e, setup), events, setup) && Added(Apply(s, e, setup), events, setup) == 0
    ensures Possible(Apply(s, e, setup), events, setup)
    ensures RenderedNow(After(Apply(s, e, setup), events, setup), x, setup)
       <==> ViewOf(x, Apply(s, e, setup).cluster, setup) == ViewOf(x, s.cluster, setup)
  {
    var s' := Apply(s, e, setup);
    ObjectChangeIs(s, e, setup);
    IgnoredRun(s', events, x, setup);
    SameRendered(s, After(s', events, setup), x, setup);
  }

  /** There are such steps, and they lead to rest. */
  lemma RestAgain(s: State, e: Event, setup: Setup) returns (events: seq<Event>)
    requires AtRest(s) && Keyed(s.cluster) && Sane(s, setup) && ChangesObject(e) && Enabled(s, e)
    ensures var s' := Apply(s, e, setup);
            && Undisturbed(s', events, setup) && Added(s', events, setup) == 0
            && Possible(s', events, setup) && AtRest(After(s', events, setup))
  {
    ObjectChangeIs(s, e, setup);
    events := ComesToRest(Apply(s, e, setup), setup);
  }

  // ----- When a change of gateways shows in a route

  /** What a route's reconcile sees of gateway `p`. */
  function Seen(gateways: Gateways, p: Key, setup: Setup): Option<Gateway> {
    if Managed(gateways, p, setup) then Some(gateways[p]) else None
  }

  /** Any change of gateways shows exactly in the managed ones among those that the route refers to. */
  lemma RouteViewIff(c: Cluster, gateways': Gateways, k: Key, setup: Setup)
    requires k in c.routes
    ensures ViewOf(OfRoute(k), c, setup) == ViewOf(OfRoute(k), c.(gateways := gateways'), setup)
       <==> forall p :: p in Followed(c.routes[k]) ==> Seen(c.gateways, p, setup) == Seen(gateways', p, setup)
  {
    var a, b := Parents(OfRoute(k), c.gateways, c.routes, setup), Parents(OfRoute(k), gateways', c.routes, setup);
    forall p | p in Followed(c.routes[k])
      ensures Get(a, p) == Seen(c.gateways, p, setup) && Get(b, p) == Seen(gateways', p, setup)
    {}
    if forall p :: p in Followed(c.routes[k]) ==> Seen(c.gateways, p, setup) == Seen(gateways', p, setup) {
      forall p ensures Get(a, p) == Get(b, p) {}
      SameGet(a, b);
    }
  }

  lemma SameGet<K, V>(m: map<K, V>, n: map<K, V>)
    requires forall k :: Get(m, k) == Get(n, k)
    ensures m == n
  {
    forall k ensures k in m <==> k in n {
      assert Get(m, k) == Get(n, k);
    }
    forall k | k in m ensures m[k] == n[k] {
      assert Get(m, k) == Get(n, k);
    }
  }

  /**
   Putting a gateway shows, unless the route does not refer to it, no managed class is
   involved, or the gateway is as before.
   */
  lemma PutGatewayShowsIff(c: Cluster, g: Gateway, p: Key, k: Key, setup: Setup)
    requires k in c.routes && p == GatewayKey(g)
    ensures ViewOf(OfRoute(k), c, setup) == ViewOf(OfRoute(k), c.(gateways := c.gateways[p := g]), setup)
       <==> || p !in Followed(c.routes[k])
            || (!Managed(c.gateways, p, setup) && g.className !in setup.blueprints)
            || Get(c.gateways, p) == Some(g)
  {
    RouteViewIff(c, c.gateways[p := g], k, setup);
  }

  /** Deleting a gateway shows, unless the route does not refer to it or its class is not managed. */
  lemma DropGatewayShowsIff(c: Cluster, p: Key, k: Key, setup: Setup)
    requires k in c.routes
    ensures ViewOf(OfRoute(k), c, setup) == ViewOf(OfRoute(k), c.(gateways := c.gateways - {p}), setup)
       <==> p !in Followed(c.routes[k]) || !Managed(c.gateways, p, setup)
  {
    RouteViewIff(c, c.gateways - {p}, k, setup);
  }

  // ----- When a change of a route shows in a gateway

  /** The route, if there is one, brings hostname `h` to the gateway. */
  predicate Brings(rt: Option<Route>, gateway: Key, h: string) {
    rt.Some? && AttachedTo(rt.value, gateway) && h in rt.value.hostnames
  }

  /** Some other route than that at `k` brings hostname `h` to the gateway. */
  ghost predicate BroughtBesides(routes: Routes, k: Key, gateway: Key, h: string) {
    exists j :: j in routes && j != k && Brings(Some(routes[j]), gateway, h)
  }

  lemma HostnamesBy(routes: Routes, k: Key, gateway: Key, h: string)
    ensures h in HostnamesFor(gateway, routes)
       <==> Brings(Get(routes, k), gateway, h) || BroughtBesides(routes, k, gateway, h)
  {}

  lemma SameBesides(routes: Routes, routes': Routes, k: Key, gateway: Key, h: string)
    requires forall j :: j != k ==> Get(routes, j) == Get(routes', j)
    ensures BroughtBesides(routes, k, gateway, h) <==> BroughtBesides(routes', k, gateway, h)
  {
    if j :| j in routes && j != k && Brings(Some(routes[j]), gateway, h) {
      assert Get(routes, j) == Get(routes', j);
    }
    if j :| j in routes' && j != k && Brings(Some(routes'[j]), gateway, h) {
      assert Get(routes, j) == Get(routes', j);
    }
  }

  /**
   A change of one route shows in a gateway, unless each hostname that the route brings to the
   gateway before or after the change, but not both, is brought by another route as well.
   */
  lemma RouteShowsIff(c: Cluster, routes': Routes, k: Key, gateway: Key, setup: Setup)
    requires forall j :: j != k ==> Get(c.routes, j) == Get(routes', j)
    ensures ViewOf(OfGateway(gateway), c, setup) == ViewOf(OfGateway(gateway), c.(routes := routes'), setup)
       <==> forall h :: (Brings(Get(c.routes, k), gateway, h) <==> Brings(Get(routes', k), gateway, h))
                        || BroughtBesides(c.routes, k, gateway, h)
  {
    forall h
      ensures h in HostnamesFor(gateway, c.routes)
         <==> Brings(Get(c.routes, k), gateway, h) || BroughtBesides(c.routes, k, gateway, h)
      ensures h in HostnamesFor(gateway, routes')
         <==> Brings(Get(routes', k), gateway, h) || BroughtBesides(c.routes, k, gateway, h)
    {
      HostnamesBy(c.routes, k, gateway, h);
      HostnamesBy(routes', k, gateway, h);
      SameBesides(c.routes, routes', k, gateway, h);
    }
  }

  // ----- The exact conditions, change by change

  /** The steps that follow a change which nothing pending makes up for. */
  ghost predicate Follow(s: State, e: Event, x: Subject, events: seq<Event>, setup: Setup) {
    && Keyed(s.cluster) && RenderedNow(s, x, setup) && ChangesObject(e) && Enabled(s, e)
    && Ignored(Apply(s, e, setup), x, setup)
    && Undisturbed(Apply(s, e, setup), events, setup) && Added(Apply(s, e, setup), events, setup) == 0
  }

  /**
   A route stays as it should be exactly if the gateway put is none of its, or managed neither
   before nor after, or as before.
   */
  lemma PutGatewayUnnoticedIff(s: State, g: Gateway, k: Key, events: seq<Event>, setup: Setup)
    requires k in s.cluster.routes && Follow(s, PutGateway(g), OfRoute(k), events, setup)
    ensures Possible(Apply(s, PutGateway(g), setup), events, setup)
    ensures RenderedNow(After(Apply(s, PutGateway(g), setup), events, setup), OfRoute(k), setup)
       <==> || GatewayKey(g) !in Followed(s.cluster.routes[k])
            || (!Managed(s.cluster.gateways, GatewayKey(g), setup) && g.className !in setup.blueprints)
            || Get(s.cluster.gateways, GatewayKey(g)) == Some(g)
  {
    UnnoticedIff(s, PutGateway(g), OfRoute(k), events, setup);
    PutGatewayShowsIff(s.cluster, g, GatewayKey(g), k, setup);
  }

  /** A route stays as it should be exactly if the gateway deleted is none of its, or not managed. */
  lemma DropGatewayUnnoticedIff(s: State, p: Key, k: Key, events: seq<Event>, setup: Setup)
    requires k in s.cluster.routes && Follow(s, DropGateway(p), OfRoute(k), events, setup)
    ensures Possible(Apply(s, DropGateway(p), setup), events, setup)
    ensures RenderedNow(After(Apply(s, DropGateway(p), setup), events, setup), OfRoute(k), setup)
       <==> p !in Followed(s.cluster.routes[k]) || !Managed(s.cluster.gateways, p, setup)
  {
    UnnoticedIff(s, DropGateway(p), OfRoute(k), events, setup);
    DropGatewayShowsIff(s.cluster, p, k, setup);
  }

  /**
   A gateway stays as it should be exactly if each hostname that the route gains or loses comes
   from another route as well.
   */
  lemma PutRouteUnnoticedIff(s: State, rt: Route, p: Key, events: seq<Event>, setup: Setup)
    requires Follow(s, PutRoute(rt), OfGateway(p), events, setup)
    ensures Possible(Apply(s, PutRoute(rt), setup), events, setup)
    ensures RenderedNow(After(Apply(s, PutRoute(rt), setup), events, setup), OfGateway(p), setup)
       <==> forall h :: (Brings(Get(s.cluster.routes, RouteKey(rt)), p, h) <==> Brings(Some(rt), p, h))
                        || BroughtBesides(s.cluster.routes, RouteKey(rt), p, h)
  {
    UnnoticedIff(s, PutRoute(rt), OfGateway(p), events, setup);
    RouteShowsIff(s.cluster, s.cluster.routes[RouteKey(rt) := rt], RouteKey(rt), p, setup);
  }

  /** And when a route is deleted, exactly if each hostname it brought comes from another route as well. */
  lemma DropRouteUnnoticedIff(s: State, k: Key, p: Key, events: seq<Event>, setup: Setup)
    requires Follow(s, DropRoute(k), OfGateway(p), events, setup)
    ensures Possible(Apply(s, DropRoute(k), setup), events, setup)
    ensures RenderedNow(After(Apply(s, DropRoute(k), setup), events, setup), OfGateway(p), setup)
       <==> forall h :: Brings(Get(s.cluster.routes, k), p, h) ==> BroughtBesides(s.cluster.routes, k, p, h)
  {
    UnnoticedIff(s, DropRoute(k), OfGateway(p), events, setup);
    RouteShowsIff(s.cluster, s.cluster.routes - {k}, k, p, setup);
  }

  // ----- Runs that show it

  ghost predicate Reachable(s: State, setup: Setup) {
    exists events :: Possible(START, events, setup) && After(START, events, setup) == s
  }

  lemma StartReachable(setup: Setup)
    ensures Reachable(START, setup)
  {
    assert Possible(START, [], setup) && After(START, [], setup) == START;
  }

  lemma {:induction false} PossibleConcat(s: State, a: seq<Event>, b: seq<Event>, setup: Setup)
    requires Possible(s, a, setup) && Possible(After(s, a, setup), b, setup)
    ensures Possible(s, a + b, setup) && After(s, a + b, setup) == After(After(s, a, setup), b, setup)
    decreases |a|
  {
    ConcatTail(a, b);
    if a != [] {
      PossibleConcat(Apply(s, a[0], setup), a[1..], b, setup);
    }
  }

  lemma RunReachable(s: State, run: seq<Event>, setup: Setup)
    requires Reachable(s, setup) && Possible(s, run, setup)
    ensures Reachable(After(s, run, setup), setup)
  {
    var events :| Possible(START, events, setup) && After(START, events, setup) == s;
    PossibleConcat(START, events, run, setup);
  }

  lemma StepReachable(s: State, e: Event, setup: Setup)
    requires Reachable(s, setup) && Enabled(s, e)
    ensures Reachable(Apply(s, e, setup), setup)
  {
    OneStep(s, e, setup);
    RunReachable(s, [e], setup);
  }

  lemma OneStep(s: State, e: Event, setup: Setup)
    requires Enabled(s, e)
    ensures Possible(s, [e], setup) && After(s, [e], setup) == Apply(s, e, setup)
  {
    assert [e][1..] == [];
    assert Possible(Apply(s, e, setup), [], setup);
  }

  lemma ReachableInv(s: State, setup: Setup)
    requires setup.controllerNamespace != "" && Reachable(s, setup)
    ensures Inv(s, setup)
  {
    var events :| Possible(START, events, setup) && After(START, events, setup) == s;
    RunKeeps(START, events, setup);
  }

  lemma ReachableKeyed(s: State, setup: Setup)
    requires setup.controllerNamespace != "" && Reachable(s, setup)
    ensures Keyed(s.cluster)
  {
    ReachableInv(s, setup);
  }

  /** What is touched is about to be reconciled. */
  ghost predicate Pending(s: State, x: Subject) {
    x in s.touched ==> x in s.queue || ObjectNotice(x) in s.notices
  }

  lemma PendingStep(s: State, e: Event, x: Subject, setup: Setup)
    requires Pending(s, x) && Quiet(s, e, setup)
    ensures Pending(Apply(s, e, setup), x)
  {
    if e.Deliver? {
      assert forall m :: m in s.notices && m != e.notice ==> m in Apply(s, e, setup).notices;
    }
  }

  lemma {:induction false} PendingRun(s: State, events: seq<Event>, x: Subject, setup: Setup)
    requires Pending(s, x) && Undisturbed(s, events, setup) && Added(s, events, setup) == 0
    ensures Possible(s, events, setup) && Pending(After(s, events, setup), x)
    ensures After(s, events, setup).cluster == s.cluster
    decreases |events|
  {
    if events == [] {
    } else {
      PendingStep(s, events[0], x, setup);
      PendingRun(Apply(s, events[0], setup), events[1..], x, setup);
    }
  }

  /** Whatever went unnoticed, a resynchronisation makes up for it. */
  lemma ResyncRepairs(s: State, x: Subject, events: seq<Event>, setup: Setup)
    requires setup.controllerNamespace != "" && Inv(s, setup)
    requires var v := ViewOf(x, s.cluster, setup); x in Subjects(s.cluster) && Live(x, v) && Indexed(x, v)
    requires Possible(Apply(s, Resync(x), setup), events, setup)
    requires Undisturbed(Apply(s, Resync(x), setup), events, setup)
    requires Added(Apply(s, Resync(x), setup), events, setup) == 0
    requires AtRest(After(Apply(s, Resync(x), setup), events, setup))
    ensures RenderedNow(After(Apply(s, Resync(x), setup), events, setup), x, setup)
  {
    var s' := Apply(s, Resync(x), setup);
    PendingRun(s', events, x, setup);
    ResyncKeeps(s, x, setup);
    RunKeeps(s', events, setup);
    var end := After(s', events, setup);
    RestUncovered(end, x, ViewOf(x, end.cluster, setup), setup);
    assert Current(end, x, ViewOf(x, end.cluster, setup), setup);
  }

  /** From a reachable state in which nothing is touched for nothing, to rest, with `x` rendered as it should be. */
  lemma SettlesDown(s: State, x: Subject, setup: Setup) returns (end: State)
    requires setup.controllerNamespace != "" && Reachable(s, setup) && Sane(s, setup) && Pending(s, x)
    requires var v := ViewOf(x, s.cluster, setup); x in Subjects(s.cluster) && Live(x, v) && Indexed(x, v)
    ensures Reachable(end, setup) && AtRest(end) && Sane(end, setup) && end.cluster == s.cluster
    ensures RenderedNow(end, x, setup)
  {
    var events := ComesToRest(s, setup);
    PendingRun(s, events, x, setup);
    end := After(s, events, setup);
    RunReachable(s, events, setup);
    ReachableInv(end, setup);
    RestUncovered(end, x, ViewOf(x, end.cluster, setup), setup);
    assert Current(end, x, ViewOf(x, end.cluster, setup), setup);
  }

  /** After a change that shows in `x`, at rest again and not rendered as it should be. */
  lemma Misses(s: State, e: Event, x: Subject, setup: Setup) returns (end: State)
    requires Reachable(s, setup) && AtRest(s) && Keyed(s.cluster) && Sane(s, setup) && RenderedNow(s, x, setup)
    requires ChangesObject(e) && Enabled(s, e) && ObjectChange(s.cluster, e).0 != x
    requires ViewOf(x, ObjectChange(s.cluster, e).1, setup) != ViewOf(x, s.cluster, setup)
    ensures Reachable(end, setup) && AtRest(end) && end.cluster == ObjectChange(s.cluster, e).1
    ensures !RenderedNow(end, x, setup)
  {
    var events := RestAgain(s, e, setup);
    RestIgnores(s, e, x, setup);
    UnnoticedIff(s, e, x, events, setup);
    ObjectChangeIs(s, e, setup);
    StepReachable(s, e, setup);
    RunReachable(Apply(s, e, setup), events, setup);
    end := After(Apply(s, e, setup), events, setup);
    IgnoredRun(Apply(s, e, setup), events, x, setup);
  }

  // ----- A first reconcile, which writes a status

  ghost function Missing(w: Progress): set<(Key, Level)> {
    set p, l: Level | p in w.view.parents && (p, l) !in w.groups :: (p, l)
  }

  /** A reconcile reads what it has not read. */
  lemma ReadsOn(s: State, x: Subject, setup: Setup) returns (s': State)
    requires Reachable(s, setup) && Sane(s, setup) && x in s.working
    ensures Reachable(s', setup) && Sane(s', setup) && x in s'.working && AllRead(s'.working[x])
    ensures s'.cluster == s.cluster && s'.working[x].view == s.working[x].view
    decreases Missing(s.working[x])
  {
    if AllRead(s.working[x]) {
      s' := s;
    } else {
      var p, l: Level :| p in s.working[x].view.parents && (p, l) !in s.working[x].groups;
      var next := Apply(s, Read(x, p, l), setup);
      StepReachable(s, Read(x, p, l), setup);
      SaneKept(s, Read(x, p, l), setup);
      assert (p, l) in Missing(s.working[x]) && Missing(next.working[x]) == Missing(s.working[x]) - {(p, l)};
      s' := ReadsOn(next, x, setup);
    }
  }

  lemma Starts(s: State, x: Subject, setup: Setup) returns (s': State)
    requires Reachable(s, setup) && Sane(s, setup) && ObjectNotice(x) in s.notices && x !in s.working
    requires Live(x, ViewOf(x, s.cluster, setup))
    ensures Reachable(s', setup) && Sane(s', setup) && x in s'.working && s'.cluster == s.cluster
  {
    var handled := Apply(s, Deliver(ObjectNotice(x)), setup);
    StepReachable(s, Deliver(ObjectNotice(x)), setup);
    SaneKept(s, Deliver(ObjectNotice(x)), setup);
    s' := Apply(handled, Begin(x), setup);
    StepReachable(handled, Begin(x), setup);
    SaneKept(handled, Begin(x), setup);
  }

  /** A new object is reconciled and gets its status, and all comes to rest. */
  lemma FirstReconcile(s: State, x: Subject, status: string, setup: Setup) returns (end: State)
    requires setup.controllerNamespace != "" && Reachable(s, setup) && Sane(s, setup)
    requires ObjectNotice(x) in s.notices && x !in s.working && x in Subjects(s.cluster)
    requires Live(x, ViewOf(x, s.cluster, setup)) && WellIndexed(x, s.cluster)
    ensures Reachable(end, setup) && AtRest(end) && Sane(end, setup) && end.cluster == Written(s.cluster, x, status)
    ensures RenderedNow(end, x, setup)
  {
    var begun := Starts(s, x, setup);
    var read := ReadsOn(begun, x, setup);
    var e := Finish(x, Ending(true, false, Some(status)));
    var written := Apply(read, e, setup);
    StepReachable(read, e, setup);
    SaneKept(read, e, setup);
    WrittenLive(s.cluster, x, status, setup);
    end := SettlesDown(written, x, setup);
  }

  /** The index attaches the route, if it is one, to every gateway that its reconcile looks up. */
  ghost predicate WellIndexed(x: Subject, c: Cluster) {
    x.OfRoute? && x.key in c.routes ==> forall p :: p in Followed(c.routes[x.key]) ==> AttachedTo(c.routes[x.key], p)
  }

  lemma WrittenLive(c: Cluster, x: Subject, status: string, setup: Setup)
    requires x in Subjects(c) && Live(x, ViewOf(x, c, setup)) && WellIndexed(x, c)
    ensures var c' := Written(c, x, status);
            && x in Subjects(c') && Live(x, ViewOf(x, c', setup)) && Indexed(x, ViewOf(x, c', setup))
            && WellIndexed(x, c')
  {
    if x.OfRoute? {
      var rt, rt' := c.routes[x.key], c.routes[x.key].(content := status);
      assert forall i :: 0 <= i < |rt.parentRefs| ==>
          (Follows(rt, i) <==> Follows(rt', i)) && ParentKey(rt, i) == ParentKey(rt', i);
      assert Followed(rt') == Followed(rt);
      forall p ensures AttachedTo(rt', p) <==> AttachedTo(rt, p) {
        assert forall i :: 0 <= i < |rt.parentRefs| ==>
            (RefersTo(rt, rt.parentRefs[i], p) <==> RefersTo(rt', rt'.parentRefs[i], p));
      }
    }
  }

  // ----- What goes unnoticed

  lemma BothCreated(rt: Route, g: Gateway, setup: Setup) returns (s: State)
    requires g.namespace != "" && BlueprintsDecode(setup)
    ensures Reachable(s, setup) && Sane(s, setup) && s.working == map[]
    ensures s.cluster == Cluster(map[], map[GatewayKey(g) := g], map[RouteKey(rt) := rt])
    ensures ObjectNotice(OfGateway(GatewayKey(g))) in s.notices && ObjectNotice(OfRoute(RouteKey(rt))) in s.notices
  {
    StartReachable(setup);
    var first := Apply(START, PutGateway(g), setup);
    StepReachable(START, PutGateway(g), setup);
    s := Apply(first, PutRoute(rt), setup);
    StepReachable(first, PutRoute(rt), setup);
  }

  /** `rt` refers to the gateway at `p`, and the index knows it. */
  ghost predicate RefersWellTo(rt: Route, p: Key) {
    p in Followed(rt) && forall q :: q in Followed(rt) ==> AttachedTo(rt, q)
  }

  /** A route and its gateway, both reconciled for the first time. */
  lemma RouteRendered(rt: Route, g: Gateway, status: string, setup: Setup) returns (s: State)
    requires setup.controllerNamespace != "" && BlueprintsDecode(setup) && g.namespace != ""
    requires RefersWellTo(rt, GatewayKey(g))
    ensures Reachable(s, setup) && AtRest(s) && Sane(s, setup) && RenderedNow(s, OfRoute(RouteKey(rt)), setup)
    ensures s.cluster == Cluster(map[], map[GatewayKey(g) := g], map[RouteKey(rt) := rt.(content := status)])
  {
    var created := BothCreated(rt, g, setup);
    assert OfRoute(RouteKey(rt)) in Subjects(created.cluster);
    s := FirstReconcile(created, OfRoute(RouteKey(rt)), status, setup);
  }

  lemma SameReferences(rt: Route, status: string)
    ensures Followed(rt.(content := status)) == Followed(rt)
  {
    var rt' := rt.(content := status);
    assert forall i :: 0 <= i < |rt.parentRefs| ==>
        (Follows(rt, i) <==> Follows(rt', i)) && ParentKey(rt, i) == ParentKey(rt', i);
  }

  /**
   A gateway changes in any way, unless it is managed neither before nor after. The
   controllers come to rest, and the route that refers to it is not rendered as it should be.
   */
  lemma GatewayChangeUnnoticed(rt: Route, g: Gateway, g': Gateway, status: string, setup: Setup) returns (end: State)
    requires setup.controllerNamespace != "" && BlueprintsDecode(setup) && g.namespace != ""
    requires RefersWellTo(rt, GatewayKey(g)) && GatewayKey(g') == GatewayKey(g) && g' != g
    requires g.className in setup.blueprints || g'.className in setup.blueprints
    ensures Reachable(end, setup) && AtRest(end)
    ensures end.cluster == Cluster(map[], map[GatewayKey(g) := g'], map[RouteKey(rt) := rt.(content := status)])
    ensures !RenderedNow(end, OfRoute(RouteKey(rt)), setup)
  {
    var s := RouteRendered(rt, g, status, setup);
    ReachableKeyed(s, setup);
    PutShows(rt.(content := status), g, g', setup) by {
      SameReferences(rt, status);
    }
    end := Misses(s, PutGateway(g'), OfRoute(RouteKey(rt)), setup);
  }

  lemma PutShows(rt: Route, g: Gateway, g': Gateway, setup: Setup)
    requires GatewayKey(g) in Followed(rt) && GatewayKey(g') == GatewayKey(g) && g' != g
    requires g.className in setup.blueprints || g'.className in setup.blueprints
    ensures var c := Cluster(map[], map[GatewayKey(g) := g], map[RouteKey(rt) := rt]);
            var c' := Cluster(map[], map[GatewayKey(g) := g'], map[RouteKey(rt) := rt]);
            && ObjectChange(c, PutGateway(g')).1 == c'
            && ViewOf(OfRoute(RouteKey(rt)), c', setup) != ViewOf(OfRoute(RouteKey(rt)), c, setup)
  {
    var p, k := GatewayKey(g), RouteKey(rt);
    assert map[p := g][p := g'] == map[p := g'];
    PutGatewayShowsIff(Cluster(map[], map[p := g], map[k := rt]), g', p, k, setup);
  }

  /** So it is when a managed gateway is deleted. */
  lemma GatewayDeletionUnnoticed(rt: Route, g: Gateway, status: string, setup: Setup) returns (end: State)
    requires setup.controllerNamespace != "" && BlueprintsDecode(setup) && g.namespace != ""
    requires RefersWellTo(rt, GatewayKey(g)) && g.className in setup.blueprints
    ensures Reachable(end, setup) && AtRest(end)
    ensures end.cluster == Cluster(map[], map[], map[RouteKey(rt) := rt.(content := status)])
    ensures !RenderedNow(end, OfRoute(RouteKey(rt)), setup)
  {
    var s := RouteRendered(rt, g, status, setup);
    ReachableKeyed(s, setup);
    DropShows(rt.(content := status), g, setup) by {
      SameReferences(rt, status);
    }
    end := Misses(s, DropGateway(GatewayKey(g)), OfRoute(RouteKey(rt)), setup);
  }

  lemma DropShows(rt: Route, g: Gateway, setup: Setup)
    requires GatewayKey(g) in Followed(rt) && g.className in setup.blueprints
    ensures var c := Cluster(map[], map[GatewayKey(g) := g], map[RouteKey(rt) := rt]);
            var c' := Cluster(map[], map[], map[RouteKey(rt) := rt]);
            && ObjectChange(c, DropGateway(GatewayKey(g))).1 == c'
            && ViewOf(OfRoute(RouteKey(rt)), c', setup) != ViewOf(OfRoute(RouteKey(rt)), c, setup)
  {
    var p, k := GatewayKey(g), RouteKey(rt);
    assert map[p := g] - {p} == map[];
    DropGatewayShowsIff(Cluster(map[], map[p := g], map[k := rt]), p, k, setup);
  }

  /**
   A route changes, and brings a hostname to its gateway that it did not bring before, or no
   longer one that it did. The controllers come to rest, and the gateway is not rendered as it
   should be.
   */
  lemma RouteChangeUnnoticed(rt: Route, rt': Route, g: Gateway, h: string, status: string, setup: Setup)
    returns (end: State)
    requires setup.controllerNamespace != "" && BlueprintsDecode(setup) && g.namespace != ""
    requires g.className in setup.blueprints && RouteKey(rt') == RouteKey(rt)
    requires Brings(Some(rt), GatewayKey(g), h) != Brings(Some(rt'), GatewayKey(g), h)
    ensures Reachable(end, setup) && AtRest(end)
    ensures end.cluster == Cluster(map[], map[GatewayKey(g) := g.(content := status)], map[RouteKey(rt) := rt'])
    ensures !RenderedNow(end, OfGateway(GatewayKey(g)), setup)
  {
    var created := BothCreated(rt, g, setup);
    var s := GatewayRendered(created, rt, g, status, setup);
    ReachableKeyed(s, setup);
    RouteShows(rt, rt', g.(content := status), h, setup);
    end := Misses(s, PutRoute(rt'), OfGateway(GatewayKey(g)), setup);
  }

  lemma GatewayRendered(created: State, rt: Route, g: Gateway, status: string, setup: Setup) returns (s: State)
    requires setup.controllerNamespace != "" && g.className in setup.blueprints
    requires Reachable(created, setup) && Sane(created, setup) && created.working == map[]
    requires created.cluster == Cluster(map[], map[GatewayKey(g) := g], map[RouteKey(rt) := rt])
    requires ObjectNotice(OfGateway(GatewayKey(g))) in created.notices
    ensures Reachable(s, setup) && AtRest(s) && Sane(s, setup) && RenderedNow(s, OfGateway(GatewayKey(g)), setup)
    ensures s.cluster == Cluster(map[], map[GatewayKey(g) := g.(content := status)], map[RouteKey(rt) := rt])
  {
    GatewayWritten(rt, g, status, setup);
    s := FirstReconcile(created, OfGateway(GatewayKey(g)), status, setup);
  }

  lemma GatewayWritten(rt: Route, g: Gateway, status: string, setup: Setup)
    requires g.className in setup.blueprints
    ensures var x, c := OfGateway(GatewayKey(g)), Cluster(map[], map[GatewayKey(g) := g], map[RouteKey(rt) := rt]);
            && x in Subjects(c) && Live(x, ViewOf(x, c, setup))
            && Written(c, x, status)
            == Cluster(map[], map[GatewayKey(g) := g.(content := status)], map[RouteKey(rt) := rt])
  {
    var p := GatewayKey(g);
    assert map[p := g][p := g.(content := status)] == map[p := g.(content := status)];
  }

  lemma RouteShows(rt: Route, rt': Route, g: Gateway, h: string, setup: Setup)
    requires RouteKey(rt') == RouteKey(rt) && Brings(Some(rt), GatewayKey(g), h) != Brings(Some(rt'), GatewayKey(g), h)
    ensures var c := Cluster(map[], map[GatewayKey(g) := g], map[RouteKey(rt) := rt]);
            var c' := Cluster(map[], map[GatewayKey(g) := g], map[RouteKey(rt) := rt']);
            && ObjectChange(c, PutRoute(rt')).1 == c'
            && ViewOf(OfGateway(GatewayKey(g)), c', setup) != ViewOf(OfGateway(GatewayKey(g)), c, setup)
  {
    var p, k := GatewayKey(g), RouteKey(rt);
    assert map[k := rt][k := rt'] == map[k := rt'];
    RouteShowsIff(Cluster(map[], map[p := g], map[k := rt]), map[k := rt'], k, p, setup);
    assert !BroughtBesides(map[k := rt], k, p, h);
  }

  /** For example: a route, its gateway, a new content of the gateway, and a new hostname of the route. */
  lemma UnnoticedExample() returns (rt: Route, rt': Route, g: Gateway, g': Gateway, setup: Setup)
    ensures setup.controllerNamespace != "" && BlueprintsDecode(setup) && g.namespace != ""
    ensures RefersWellTo(rt, GatewayKey(g)) && GatewayKey(g') == GatewayKey(g) && g' != g
    ensures g.className in setup.blueprints && g'.className in setup.blueprints && RouteKey(rt') == RouteKey(rt)
    ensures Brings(Some(rt), GatewayKey(g), "a") != Brings(Some(rt'), GatewayKey(g), "a")
  {
    var ref := ParentRef(None, Some(GATEWAY_KIND), None, "g", None, None);
    rt, rt' := Route("tenant", "r", [ref], [], ""), Route("tenant", "r", [ref], ["a"], "");
    g, g' := Gateway("tenant", "g", "k", "one listener"), Gateway("tenant", "g", "k", "two listeners");
    setup := Setup("infra", map["k" := Blueprint(NoValues, NoValues)]);
    assert Follows(rt, 0) && ParentKey(rt, 0) == GatewayKey(g);
    assert Followed(rt) == {GatewayKey(g)};
    assert RefersTo(rt, rt.parentRefs[0], GatewayKey(g)) && RefersTo(rt', rt'.parentRefs[0], GatewayKey(g));
    assert "a" in rt'.hostnames;
  }
}
