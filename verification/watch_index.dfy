/**
 Which gateways and routes a changed config wakes up, and how exactly that inverts the
 selection that a lookup makes.
 */
module WatchIndex {
  import opened Common
  import opened Policies

  datatype Key = Key(namespace: string, name: string)

  function GatewayKey(g: Gateway): Key {
    Key(g.namespace, g.name)
  }

  // ----- Gateways

  /** A class-targeted config in the controller namespace concerns every namespace. */
  predicate IsGlobal(c: Policy, controllerNamespace: string) {
    && c.GatewayClassConfig? && c.namespace == controllerNamespace
    && c.spec.target.kind == CLASS_KIND && c.spec.target.group == GATEWAY_GROUP
  }

  /** The test applied to each listed gateway. */
  predicate MatchesGateway(c: Policy, g: Gateway) {
    var t := c.spec.target;
    if t.group == GATEWAY_GROUP && t.kind == CLASS_KIND then
      c.GatewayClassConfig? && g.className == t.name
    else if t.group == "" && t.kind == NAMESPACE_KIND then
      g.namespace == t.name
    else if t.group == GATEWAY_GROUP && t.kind == GATEWAY_KIND then
      c.GatewayConfig? && g.name == t.name && (t.namespace == None || t.namespace == Some(g.namespace))
    else
      false
  }

  /** A change of `c` enqueues `g`. */
  predicate Wakes(c: Policy, g: Gateway, controllerNamespace: string) {
    (IsGlobal(c, controllerNamespace) || InNamespace(g.namespace, c.namespace)) && MatchesGateway(c, g)
  }

  function Request(c: Policy, g: Gateway, controllerNamespace: string): seq<Key> {
    if Wakes(c, g, controllerNamespace) then [GatewayKey(g)] else []
  }

  function Woken(c: Policy, gateways: seq<Gateway>, controllerNamespace: string): seq<Key> {
    if gateways == [] then []
    else Request(c, gateways[0], controllerNamespace) + Woken(c, gateways[1..], controllerNamespace)
  }

  lemma {:induction false} WokenConcat(c: Policy, s: seq<Gateway>, t: seq<Gateway>, controllerNamespace: string)
    ensures Woken(c, s + t, controllerNamespace) == Woken(c, s, controllerNamespace) + Woken(c, t, controllerNamespace)
  {
    if s == [] {
      assert s + t == t;
    } else {
      assert (s + t)[1..] == s[1..] + t;
      WokenConcat(c, s[1..], t, controllerNamespace);
      var d := Request(c, s[0], controllerNamespace);
      var u, v := Woken(c, s[1..], controllerNamespace), Woken(c, t, controllerNamespace);
      assert d + (u + v) == (d + u) + v;
    }
  }

  lemma {:induction false} WokenMember(c: Policy, gateways: seq<Gateway>, controllerNamespace: string, k: Key)
    ensures k in Woken(c, gateways, controllerNamespace)
       <==> exists g :: g in gateways && Wakes(c, g, controllerNamespace) && k == Key(g.namespace, g.name)
  {
    if gateways == [] {
    } else {
      WokenMember(c, gateways[1..], controllerNamespace, k);
      assert forall g :: g in gateways <==> g == gateways[0] || g in gateways[1..];
      assert gateways[0] in gateways;
    }
  }

  /** `k` and `l` name two gateways, in this order. */
  ghost predicate NamedInOrder(k: Key, l: Key, gateways: seq<Gateway>) {
    exists a, b :: 0 <= a < b < |gateways|
      && k == Key(gateways[a].namespace, gateways[a].name) && l == Key(gateways[b].namespace, gateways[b].name)
  }

  /** Keys are enqueued in the order of their gateways, and once for each. */
  lemma {:induction false} WokenInOrder(c: Policy, gateways: seq<Gateway>, controllerNamespace: string, i: nat, j: nat)
    requires i < j < |Woken(c, gateways, controllerNamespace)|
    ensures var r := Woken(c, gateways, controllerNamespace);
            NamedInOrder(r[i], r[j], gateways)
  {
    var r, rest := Woken(c, gateways, controllerNamespace), gateways[1..];
    if r == Woken(c, rest, controllerNamespace) {
      WokenInOrder(c, rest, controllerNamespace, i, j);
      LaterNamed(r[i], r[j], gateways);
    } else if i > 0 {
      WokenInOrder(c, rest, controllerNamespace, i - 1, j - 1);
      LaterNamed(r[i], r[j], gateways);
    } else {
      WokenMember(c, rest, controllerNamespace, r[j]);
      var b :| 0 <= b < |rest| && Key(rest[b].namespace, rest[b].name) == r[j];
      assert rest[b] == gateways[b + 1];
    }
  }

  lemma LaterNamed(k: Key, l: Key, gateways: seq<Gateway>)
    requires gateways != [] && NamedInOrder(k, l, gateways[1..])
    ensures NamedInOrder(k, l, gateways)
  {
    var rest := gateways[1..];
    var a, b :| 0 <= a < b < |rest|
      && k == Key(rest[a].namespace, rest[a].name) && l == Key(rest[b].namespace, rest[b].name);
    assert gateways[a + 1] == rest[a] && gateways[b + 1] == rest[b];
  }

  /** `gatewaysForConfig` over the gateways of the cluster. */
  method GatewaysForConfig(c: Policy, cluster: seq<Gateway>, controllerNamespace: string) returns (requests: seq<Key>)
    ensures requests == Woken(c, cluster, controllerNamespace)
  {
    requests := [];
    for i := 0 to |cluster|
      invariant requests == Woken(c, cluster[..i], controllerNamespace)
    {
      var g := cluster[i];
      var listed := IsGlobal(c, controllerNamespace) || InNamespace(g.namespace, c.namespace);
      if listed && MatchesGateway(c, g) {
        requests := requests + [GatewayKey(g)];
      }
      assert cluster[..i + 1] == cluster[..i] + [g];
      WokenConcat(c, cluster[..i], [g], controllerNamespace);
    }
    assert cluster[..|cluster|] == cluster;
  }

  /**
   The one case in which selection and index part, which the command line allows: an empty
   controller namespace makes the lookup list class-targeted configs of all namespaces, while
   the index still looks in the config's own namespace only.
   */
  predicate Missed(c: Policy, g: Gateway, controllerNamespace: string) {
    && controllerNamespace == "" && c.GatewayClassConfig?
    && TargetsClass(c.spec.target, g.className) && c.namespace != g.namespace
  }

  /** The index inverts selection exactly outside that case. */
  lemma WakesIffSelected(c: Policy, g: Gateway, controllerNamespace: string)
    requires c.namespace != "" && g.namespace != ""
    ensures (Wakes(c, g, controllerNamespace) <==> Selected(c, g, controllerNamespace))
       <==> !Missed(c, g, controllerNamespace)
    ensures Wakes(c, g, controllerNamespace) ==> Selected(c, g, controllerNamespace)
  {
    forall l: Level ensures SelectedAt(c, l, g, controllerNamespace) ==>
        c.GatewayClassConfig? == (l == GlobalClass || l == LocalNamespace || l == LocalClass) {}
    assert Selected(c, g, controllerNamespace) <==>
        || SelectedAt(c, GlobalClass, g, controllerNamespace)
        || SelectedAt(c, LocalNamespace, g, controllerNamespace)
        || SelectedAt(c, LocalClass, g, controllerNamespace)
        || SelectedAt(c, ConfigNamespace, g, controllerNamespace)
        || SelectedAt(c, ConfigGateway, g, controllerNamespace);
  }

  /** With an empty controller namespace, a change can miss a gateway whose values it decides. */
  lemma EmptyControllerNamespaceMisses() returns (c: Policy, g: Gateway)
    ensures c.namespace != "" && g.namespace != ""
    ensures Selected(c, g, "") && !Wakes(c, g, "")
  {
    c := GatewayClassConfig("infra", "c", 0, Spec(TargetRef(GATEWAY_GROUP, CLASS_KIND, "k", None), NoValues, NoValues));
    g := Gateway("tenant", "g", "k", "");
    assert SelectedAt(c, GlobalClass, g, "");
  }

  // ----- Routes

  datatype ParentRef = ParentRef(
    group: Option<string>, kind: Option<string>, namespace: Option<string>,
    name: string, sectionName: Option<string>, port: Option<int>)

  /** `content` is the rest of the object: rules, status, annotations. */
  datatype Route = Route(
    namespace: string, name: string, parentRefs: seq<ParentRef>, hostnames: seq<string>, content: string)

  function RouteKey(rt: Route): Key {
    Key(rt.namespace, rt.name)
  }

  /** The test of the route filter for one parent reference. */
  predicate RefersTo(rt: Route, ref: ParentRef, gateway: Key) {
    !( || (ref.group.Some? && ref.group.value != GATEWAY_GROUP)
       || (ref.kind.Some? && ref.kind.value != GATEWAY_KIND)
       || (ref.namespace.Some? && ref.namespace.value != gateway.namespace)
       || (ref.namespace.None? && rt.namespace != gateway.namespace)
       || ref.name != gateway.name)
  }

  /** One copy of a route for each of its references to the gateway. */
  function Copies(rt: Route, refs: seq<ParentRef>, gateway: Key): seq<Route> {
    if refs == [] then []
    else Copies(rt, refs[..|refs| - 1], gateway) + if RefersTo(rt, refs[|refs| - 1], gateway) then [rt] else []
  }

  function Attached(routes: seq<Route>, gateway: Key): seq<Route> {
    if routes == [] then []
    else
      var last := routes[|routes| - 1];
      Attached(routes[..|routes| - 1], gateway) + Copies(last, last.parentRefs, gateway)
  }

  /** `filterHTTPRoutesForGateway`. */
  method FilterRoutes(gateway: Key, routes: seq<Route>) returns (out: seq<Route>)
    ensures out == Attached(routes, gateway)
  {
    out := [];
    for i := 0 to |routes|
      invariant out == Attached(routes[..i], gateway)
    {
      var rt := routes[i];
      ghost var before := out;
      for j := 0 to |rt.parentRefs|
        invariant out == before + Copies(rt, rt.parentRefs[..j], gateway)
      {
        assert rt.parentRefs[..j + 1][..j] == rt.parentRefs[..j];
        if RefersTo(rt, rt.parentRefs[j], gateway) {
          out := out + [rt];
        }
      }
      assert rt.parentRefs[..|rt.parentRefs|] == rt.parentRefs;
      assert routes[..i + 1][..i] == routes[..i];
    }
    assert routes[..|routes|] == routes;
  }

  predicate AttachedTo(rt: Route, gateway: Key) {
    exists i :: 0 <= i < |rt.parentRefs| && RefersTo(rt, rt.parentRefs[i], gateway)
  }

  lemma {:induction false} CopiesMember(rt: Route, refs: seq<ParentRef>, gateway: Key, r: Route)
    ensures r in Copies(rt, refs, gateway) <==> r == rt && exists i :: 0 <= i < |refs| && RefersTo(rt, refs[i], gateway)
  {
    if refs == [] {
    } else {
      CopiesMember(rt, refs[..|refs| - 1], gateway, r);
      assert forall i :: 0 <= i < |refs| - 1 ==> refs[i] == refs[..|refs| - 1][i];
    }
  }

  lemma {:induction false} AttachedMember(routes: seq<Route>, gateway: Key, r: Route)
    ensures r in Attached(routes, gateway) <==> r in routes && AttachedTo(r, gateway)
  {
    if routes == [] {
    } else {
      var last := routes[|routes| - 1];
      AttachedMember(routes[..|routes| - 1], gateway, r);
      CopiesMember(last, last.parentRefs, gateway, r);
      assert routes == routes[..|routes| - 1] + [last];
    }
  }

  /** A change of `c` wakes route `rt` through some gateway of the cluster. */
  ghost predicate WakesRoute(c: Policy, rt: Route, cluster: seq<Gateway>, controllerNamespace: string) {
    exists g :: g in cluster && Wakes(c, g, controllerNamespace) && AttachedTo(rt, GatewayKey(g))
  }

  /** `k` is the key of a route that a change of `c` wakes. */
  ghost predicate KeyWoken(k: Key, c: Policy, cluster: seq<Gateway>, routes: seq<Route>, controllerNamespace: string) {
    exists rt :: rt in routes && WakesRoute(c, rt, cluster, controllerNamespace) && k == Key(rt.namespace, rt.name)
  }

  /** `routesForConfig`: each route once, in no particular order. */
  method RoutesForConfig(c: Policy, cluster: seq<Gateway>, routes: seq<Route>, controllerNamespace: string)
    returns (result: seq<Key>)
    ensures forall i, j :: 0 <= i < j < |result| ==> result[i] != result[j]
    ensures forall k :: k in result <==> KeyWoken(k, c, cluster, routes, controllerNamespace)
  {
    var gateways := GatewaysForConfig(c, cluster, controllerNamespace);
    var requests := RequestsFor(gateways, routes);
    forall k ensures k in requests <==> KeyWoken(k, c, cluster, routes, controllerNamespace) {
      KeyFromIsWakesRoute(k, c, cluster, routes, controllerNamespace);
    }
    result := Enumerate(requests);
  }

  /** The keys of the routes attached to any of `gateways`. */
  method RequestsFor(gateways: seq<Key>, routes: seq<Route>) returns (requests: set<Key>)
    ensures forall k :: k in requests <==> KeyFrom(k, routes, gateways)
  {
    requests := {};
    for i := 0 to |gateways|
      invariant forall k :: k in requests <==> KeyFrom(k, routes, gateways[..i])
    {
      var attached := FilterRoutes(gateways[i], routes);
      ghost var before := requests;
      for j := 0 to |attached|
        invariant forall k :: k in requests <==> k in before || exists n :: 0 <= n < j && k == RouteKey(attached[n])
      {
        requests := requests + {RouteKey(attached[j])};
      }
      forall k ensures k in requests <==> KeyFrom(k, routes, gateways[..i + 1]) {
        AttachedKeys(k, routes, gateways[i]);
        KeyFromNext(k, routes, gateways, i);
      }
    }
    assert gateways[..|gateways|] == gateways;
  }

  /** The members of a set, once each. */
  method Enumerate(requests: set<Key>) returns (result: seq<Key>)
    ensures forall i, j :: 0 <= i < j < |result| ==> result[i] != result[j]
    ensures forall k :: k in result <==> k in requests
  {
    result := [];
    var todo := requests;
    while todo != {}
      invariant todo <= requests && forall k :: k in result <==> k in requests - todo
      invariant forall i, j :: 0 <= i < j < |result| ==> result[i] != result[j]
      decreases todo
    {
      var k :| k in todo;
      assert k !in result;
      result, todo := result + [k], todo - {k};
    }
  }

  /** `k` names a route attached to one of `gateways`. */
  ghost predicate KeyFrom(k: Key, routes: seq<Route>, gateways: seq<Key>) {
    exists gk, rt :: gk in gateways && rt in routes && AttachedTo(rt, gk) && k == RouteKey(rt)
  }

  lemma AttachedKeys(k: Key, routes: seq<Route>, gk: Key)
    ensures (exists n :: 0 <= n < |Attached(routes, gk)| && k == RouteKey(Attached(routes, gk)[n]))
       <==> KeyFrom(k, routes, [gk])
  {
    forall rt ensures rt in Attached(routes, gk) <==> rt in routes && AttachedTo(rt, gk) {
      AttachedMember(routes, gk, rt);
    }
    assert gk in [gk];
    if KeyFrom(k, routes, [gk]) {
      var rt :| rt in routes && AttachedTo(rt, gk) && k == RouteKey(rt);
      assert rt in Attached(routes, gk);
    }
  }

  lemma KeyFromNext(k: Key, routes: seq<Route>, gateways: seq<Key>, i: nat)
    requires i < |gateways|
    ensures KeyFrom(k, routes, gateways[..i + 1])
       <==> KeyFrom(k, routes, gateways[..i]) || KeyFrom(k, routes, [gateways[i]])
  {}

  lemma KeyFromIsWakesRoute(k: Key, c: Policy, cluster: seq<Gateway>, routes: seq<Route>, controllerNamespace: string)
    ensures KeyFrom(k, routes, Woken(c, cluster, controllerNamespace))
       <==> KeyWoken(k, c, cluster, routes, controllerNamespace)
  {}

  // ----- What the index means for the route reconcile

  /** The gateway that the route reconcile looks up for a parent reference. */
  function ParentKey(rt: Route, i: nat): Key
    requires i < |rt.parentRefs|
  {
    var ref := rt.parentRefs[i];
    Key(if ref.namespace.None? then rt.namespace else ref.namespace.value, ref.name)
  }

  /** Reference `i` is of the Gateway API group, or of none. */
  predicate InGroup(rt: Route, i: nat)
    requires i < |rt.parentRefs|
  {
    rt.parentRefs[i].group == None || rt.parentRefs[i].group == Some(GATEWAY_GROUP)
  }

  /** The index accepts reference `i`: its kind may be unset. */
  predicate Accepts(rt: Route, i: nat)
    requires i < |rt.parentRefs|
  {
    (rt.parentRefs[i].kind == None || rt.parentRefs[i].kind == Some(GATEWAY_KIND)) && InGroup(rt, i)
  }

  /** The reconcile follows reference `i`: it looks at the kind only, and gets nowhere once a kind is unset. */
  predicate Follows(rt: Route, i: nat)
    requires i < |rt.parentRefs|
  {
    rt.parentRefs[i].kind == Some(GATEWAY_KIND) && forall j :: 0 <= j < i ==> rt.parentRefs[j].kind.Some?
  }

  /** The reconcile renders `rt` with the values of `gateway`. */
  predicate RendersFor(rt: Route, gateway: Key) {
    exists i :: 0 <= i < |rt.parentRefs| && Follows(rt, i) && ParentKey(rt, i) == gateway
  }

  /** An unset kind ends the reconcile: it renders what the references before it lead to. */
  lemma UnsetKindEnds(rt: Route, i: nat, gateway: Key)
    requires i < |rt.parentRefs| && rt.parentRefs[i].kind.None?
    ensures RendersFor(rt, gateway) <==> RendersFor(rt.(parentRefs := rt.parentRefs[..i]), gateway)
  {
    var short := rt.(parentRefs := rt.parentRefs[..i]);
    forall j | 0 <= j < i ensures Follows(short, j) == Follows(rt, j) && ParentKey(short, j) == ParentKey(rt, j) {}
  }

  lemma AttachedIffAccepted(rt: Route, gateway: Key)
    ensures AttachedTo(rt, gateway)
       <==> exists i :: 0 <= i < |rt.parentRefs| && Accepts(rt, i) && ParentKey(rt, i) == gateway
  {
    forall i | 0 <= i < |rt.parentRefs|
      ensures RefersTo(rt, rt.parentRefs[i], gateway) <==> Accepts(rt, i) && ParentKey(rt, i) == gateway
    {}
  }

  /** A route is woken exactly through the gateways that it refers to and that select the config. */
  lemma RouteWokenIffSelected(c: Policy, rt: Route, cluster: seq<Gateway>, controllerNamespace: string)
    requires c.namespace != "" && forall g :: g in cluster ==> g.namespace != ""
    ensures WakesRoute(c, rt, cluster, controllerNamespace)
       <==> exists g, i ::
              && g in cluster && Selected(c, g, controllerNamespace) && !Missed(c, g, controllerNamespace)
              && 0 <= i < |rt.parentRefs| && Accepts(rt, i) && ParentKey(rt, i) == GatewayKey(g)
  {
    forall g | g in cluster
      ensures Wakes(c, g, controllerNamespace)
         <==> Selected(c, g, controllerNamespace) && !Missed(c, g, controllerNamespace)
      ensures AttachedTo(rt, GatewayKey(g))
         <==> exists i :: 0 <= i < |rt.parentRefs| && Accepts(rt, i) && ParentKey(rt, i) == GatewayKey(g)
    {
      WakesIffSelected(c, g, controllerNamespace);
      AttachedIffAccepted(rt, GatewayKey(g));
    }
  }

  /**
   The references that the index accepts and those that the reconcile follows name the same
   gateways. A foreign group breaks it, unless another reference names the same gateway, and
   so does an unset kind.
   */
  ghost predicate IndexFitsRoute(rt: Route) {
    && (forall i :: 0 <= i < |rt.parentRefs| && Follows(rt, i) ==>
          exists j :: 0 <= j < |rt.parentRefs| && Accepts(rt, j) && ParentKey(rt, j) == ParentKey(rt, i))
    && (forall j :: 0 <= j < |rt.parentRefs| && Accepts(rt, j) ==>
          exists i :: 0 <= i < |rt.parentRefs| && Follows(rt, i) && ParentKey(rt, i) == ParentKey(rt, j))
  }

  /** The index attaches a route to exactly the gateways that its reconcile renders for, if its references fit. */
  lemma AttachedIsRenderedIff(rt: Route)
    ensures (forall gateway :: AttachedTo(rt, gateway) <==> RendersFor(rt, gateway)) <==> IndexFitsRoute(rt)
  {
    forall gateway
      ensures AttachedTo(rt, gateway)
         <==> exists i :: 0 <= i < |rt.parentRefs| && Accepts(rt, i) && ParentKey(rt, i) == gateway
    {
      AttachedIffAccepted(rt, gateway);
    }
    if forall gateway :: AttachedTo(rt, gateway) <==> RendersFor(rt, gateway) {
      forall i | 0 <= i < |rt.parentRefs| && Follows(rt, i)
        ensures exists j :: 0 <= j < |rt.parentRefs| && Accepts(rt, j) && ParentKey(rt, j) == ParentKey(rt, i)
      {
        assert RendersFor(rt, ParentKey(rt, i));
      }
      forall j | 0 <= j < |rt.parentRefs| && Accepts(rt, j)
        ensures exists i :: 0 <= i < |rt.parentRefs| && Follows(rt, i) && ParentKey(rt, i) == ParentKey(rt, j)
      {
        assert AttachedTo(rt, ParentKey(rt, j));
      }
    }
  }

  /** Some reference of the Gateway API group, or of none, leads to `gateway`. */
  predicate FollowedInGroup(rt: Route, gateway: Key) {
    exists j :: 0 <= j < |rt.parentRefs| && rt.parentRefs[j].kind == Some(GATEWAY_KIND)
                && InGroup(rt, j) && ParentKey(rt, j) == gateway
  }

  /** With every kind set, only references through a foreign group can break it. */
  lemma FitsIffInGroup(rt: Route)
    requires forall i :: 0 <= i < |rt.parentRefs| ==> rt.parentRefs[i].kind.Some?
    ensures IndexFitsRoute(rt)
       <==> forall i :: 0 <= i < |rt.parentRefs| && rt.parentRefs[i].kind == Some(GATEWAY_KIND) ==>
              FollowedInGroup(rt, ParentKey(rt, i))
  {
    forall i | 0 <= i < |rt.parentRefs|
      ensures Follows(rt, i) <==> rt.parentRefs[i].kind == Some(GATEWAY_KIND)
      ensures Accepts(rt, i) <==> rt.parentRefs[i].kind == Some(GATEWAY_KIND) && InGroup(rt, i)
    {}
    forall gateway
      ensures FollowedInGroup(rt, gateway)
         <==> exists j :: 0 <= j < |rt.parentRefs| && Accepts(rt, j) && ParentKey(rt, j) == gateway
    {}
    forall i | 0 <= i < |rt.parentRefs| && rt.parentRefs[i].kind == Some(GATEWAY_KIND)
      ensures Follows(rt, i)
    {}
  }

  /** The reconcile of `rt` renders it for a gateway that selects `c`. */
  ghost predicate RendersRoute(c: Policy, rt: Route, cluster: seq<Gateway>, controllerNamespace: string) {
    exists g :: g in cluster && Selected(c, g, controllerNamespace) && RendersFor(rt, GatewayKey(g))
  }

  ghost predicate Namespaced(c: Policy, cluster: seq<Gateway>) {
    c.namespace != "" && forall g :: g in cluster ==> g.namespace != ""
  }

  /** Whatever config changes, exactly the routes are woken that are rendered with its values. */
  ghost predicate WokenIsRendered(rt: Route, controllerNamespace: string) {
    forall c, cluster :: Namespaced(c, cluster) ==>
      (WakesRoute(c, rt, cluster, controllerNamespace) <==> RendersRoute(c, rt, cluster, controllerNamespace))
  }

  /** The gateways that `rt` refers to have a namespace. */
  predicate NamespacedRefs(rt: Route) {
    forall i :: 0 <= i < |rt.parentRefs| ==> ParentKey(rt, i).namespace != ""
  }

  /** The index wakes exactly the routes that are rendered with a config, whatever the config, if the references fit. */
  lemma WokenIsRenderedIff(rt: Route, controllerNamespace: string)
    requires controllerNamespace != "" && NamespacedRefs(rt)
    ensures WokenIsRendered(rt, controllerNamespace) <==> IndexFitsRoute(rt)
  {
    AttachedIsRenderedIff(rt);
    if IndexFitsRoute(rt) {
      forall c, cluster | Namespaced(c, cluster)
        ensures WakesRoute(c, rt, cluster, controllerNamespace) <==> RendersRoute(c, rt, cluster, controllerNamespace)
      {
        forall g | g in cluster ensures Wakes(c, g, controllerNamespace) <==> Selected(c, g, controllerNamespace) {
          WakesIffSelected(c, g, controllerNamespace);
        }
      }
    }
    if WokenIsRendered(rt, controllerNamespace) {
      forall gateway ensures AttachedTo(rt, gateway) <==> RendersFor(rt, gateway) {
        AttachedIffAccepted(rt, gateway);
        if gateway.namespace != "" {
          AttachedWhenWoken(rt, gateway, controllerNamespace);
        }
      }
    }
  }

  /** A config for just one gateway shows whether the route is attached to it. */
  lemma AttachedWhenWoken(rt: Route, gateway: Key, controllerNamespace: string)
    requires controllerNamespace != "" && gateway.namespace != "" && WokenIsRendered(rt, controllerNamespace)
    ensures AttachedTo(rt, gateway) <==> RendersFor(rt, gateway)
  {
    var g := Gateway(gateway.namespace, gateway.name, "k", "");
    var target := TargetRef(GATEWAY_GROUP, GATEWAY_KIND, g.name, None);
    var c := GatewayConfig(g.namespace, "c", 0, Spec(target, NoValues, NoValues));
    assert GatewayKey(g) == gateway && Namespaced(c, [g]);
    WakesIffSelected(c, g, controllerNamespace);
    assert g in [g] && Wakes(c, g, controllerNamespace);
    assert WakesRoute(c, rt, [g], controllerNamespace) <==> AttachedTo(rt, gateway);
    assert RendersRoute(c, rt, [g], controllerNamespace) <==> RendersFor(rt, gateway);
  }

  /** A reference through a foreign group: a change of a config that the route is rendered with does not wake it. */
  lemma ForeignGroupRendersUnwoken() returns (c: Policy, rt: Route, cluster: seq<Gateway>)
    ensures Namespaced(c, cluster) && NamespacedRefs(rt)
    ensures forall i :: 0 <= i < |rt.parentRefs| ==> rt.parentRefs[i].kind.Some?
    ensures RendersRoute(c, rt, cluster, "infra") && !WakesRoute(c, rt, cluster, "infra")
  {
    var g := Gateway("tenant", "g", "k", "");
    var target := TargetRef(GATEWAY_GROUP, GATEWAY_KIND, "g", None);
    c := GatewayConfig("tenant", "c", 0, Spec(target, NoValues, NoValues));
    rt := Route("tenant", "r", [ParentRef(Some("example.com"), Some(GATEWAY_KIND), None, "g", None, None)], [], "");
    cluster := [g];
    assert ParentKey(rt, 0) == GatewayKey(g) && Follows(rt, 0);
    assert Wakes(c, g, "infra");
    WakesIffSelected(c, g, "infra");
    assert g in cluster && RendersFor(rt, GatewayKey(g));
    assert !AttachedTo(rt, GatewayKey(g));
  }
}
