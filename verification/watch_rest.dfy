/**
 How long the controllers of `WatchQueue` go on once nothing changes from outside, and where
 they end.
 */
module WatchRest {
  import opened Common
  import opened Json
  import opened Policies
  import opened Precedence
  import opened WatchIndex
  import opened CurrentValues
  import opened WatchQueue

  /** Nothing is pending or under way. */
  ghost predicate AtRest(s: State) {
    s.notices == multiset{} && s.queue == {} && s.working == map[]
  }

  /** A controller's own steps; a reconcile reads every level of every parent once. */
  ghost predicate Internal(s: State, e: Event) {
    && Enabled(s, e)
    && match e
       case Deliver(_) => true
       case Begin(_) => true
       case Read(x, p, l) => (p, l) !in s.working[x].groups
       case Finish(_, _) => true
       case _ => false
  }

  /** A reconcile that fails, comes back, or writes a status, and so makes more work. */
  ghost predicate Restless(s: State, e: Event, setup: Setup)
    requires Enabled(s, e)
  {
    e.Finish? && (e.ending.again || e.ending.written.Some?
                  || ToRender(s.working[e.subject], e.ending.renders, setup).None?)
  }

  ghost predicate Quiet(s: State, e: Event, setup: Setup) {
    Internal(s, e) && !Restless(s, e, setup)
  }

  // ----- The work left

  ghost function Unread(s: State): set<(Subject, Key, Level)> {
    set x, p, l: Level | x in s.working && p in s.working[x].view.parents && (p, l) !in s.working[x].groups :: (x, p, l)
  }

  const LEVELS := 5

  /** `m * n`, counted up. */
  function Times(m: nat, n: nat): nat {
    if n == 0 then 0 else m + Times(m, n - 1)
  }

  lemma {:induction false} TimesSum(m: nat, a: nat, b: nat)
    ensures Times(m, a + b) == Times(m, a) + Times(m, b)
  {
    if b == 0 {
    } else {
      TimesSum(m, a, b - 1);
    }
  }

  lemma TimesMonotone(m: nat, a: nat, b: nat)
    requires a <= b
    ensures Times(m, a) <= Times(m, b)
  {
    TimesSum(m, a, b - a);
  }

  /** To begin, to read five levels of every parent, and to finish. */
  function PerSubject(gateways: nat): nat {
    2 + LEVELS * gateways
  }

  /** To handle one notice, and everything that it may put on the queues. */
  function PerNotice(gateways: nat, routes: nat): nat {
    1 + Times(PerSubject(gateways), gateways + routes + 1)
  }

  /** How many more steps it takes at most, unless there is more work to come. */
  ghost function Work(s: State): nat {
    Total(|s.cluster.gateways|, |s.cluster.routes|, |s.notices|, |s.queue|, |s.working| + |Unread(s)|)
  }

  function Total(gateways: nat, routes: nat, notices: nat, queue: nat, begun: nat): nat {
    Times(PerNotice(gateways, routes), notices) + Times(PerSubject(gateways), queue) + begun
  }

  /** What a restless step can add. */
  ghost function Unrest(c: Cluster): nat {
    PerSubject(|c.gateways|) + PerNotice(|c.gateways|, |c.routes|)
  }

  lemma UnionSize<T>(a: set<T>, b: set<T>)
    ensures |a + b| <= |a| + |b|
  {
    assert a + b == a + (b - a);
    assert b == (b - a) + (b * a);
  }

  lemma SubsetSize<T>(a: set<T>, b: set<T>)
    requires a <= b
    ensures |a| <= |b|
  {
    assert b == a + (b - a);
  }

  lemma {:induction false} GatewaySubjects(keys: set<Key>)
    ensures |set k | k in keys :: OfGateway(k)| <= |keys|
  {
    if keys == {} {
    } else {
      var k :| k in keys;
      GatewaySubjects(keys - {k});
      var rest := set j | j in keys - {k} :: OfGateway(j);
      assert (set j | j in keys :: OfGateway(j)) == rest + {OfGateway(k)};
      UnionSize(rest, {OfGateway(k)});
    }
  }

  lemma {:induction false} RouteSubjects(keys: set<Key>)
    ensures |set k | k in keys :: OfRoute(k)| <= |keys|
  {
    if keys == {} {
    } else {
      var k :| k in keys;
      RouteSubjects(keys - {k});
      var rest := set j | j in keys - {k} :: OfRoute(j);
      assert (set j | j in keys :: OfRoute(j)) == rest + {OfRoute(k)};
      UnionSize(rest, {OfRoute(k)});
    }
  }

  lemma SubjectsSize(c: Cluster)
    ensures |Subjects(c)| <= |c.gateways| + |c.routes|
  {
    var a, b := set k | k in c.gateways.Keys :: OfGateway(k), set k | k in c.routes.Keys :: OfRoute(k);
    GatewaySubjects(c.gateways.Keys);
    RouteSubjects(c.routes.Keys);
    assert Subjects(c) <= a + b;
    SubsetSize(Subjects(c), a + b);
    UnionSize(a, b);
    assert |c.gateways.Keys| == |c.gateways| && |c.routes.Keys| == |c.routes|;
  }

  lemma EnqueuedSize(n: Notice, c: Cluster, setup: Setup)
    ensures |Enqueued(n, c, setup)| <= |c.gateways| + |c.routes| + 1
  {
    if n.ConfigNotice? {
      SubjectsSize(c);
      SubsetSize(Enqueued(n, c, setup), Subjects(c));
    }
  }

  lemma DeliverSizes(s: State, n: Notice, setup: Setup)
    requires n in s.notices
    ensures var s', c := Apply(s, Deliver(n), setup), s.cluster;
            && |s'.notices| == |s.notices| - 1 && |s'.queue| <= |s.queue| + |c.gateways| + |c.routes| + 1
            && Unread(s') == Unread(s)
  {
    var s' := Apply(s, Deliver(n), setup);
    assert s'.notices == s.notices - multiset{n};
    EnqueuedSize(n, s.cluster, setup);
    UnionSize(s.queue, Enqueued(n, s.cluster, setup));
  }

  lemma DeliverWork(s: State, n: Notice, setup: Setup)
    requires n in s.notices
    ensures Work(Apply(s, Deliver(n), setup)) < Work(s)
  {
    var s', c := Apply(s, Deliver(n), setup), s.cluster;
    DeliverSizes(s, n, setup);
    DeliverTotal(|c.gateways|, |c.routes|, |s.notices|, |s.queue|, |s'.queue|, |s.working| + |Unread(s)|);
  }

  lemma DeliverTotal(gateways: nat, routes: nat, notices: nat, queue: nat, queue': nat, begun: nat)
    requires notices > 0 && queue' <= queue + gateways + routes + 1
    ensures Total(gateways, routes, notices - 1, queue', begun) < Total(gateways, routes, notices, queue, begun)
  {
    TimesMonotone(PerSubject(gateways), queue', queue + (gateways + routes + 1));
    TimesSum(PerSubject(gateways), queue, gateways + routes + 1);
  }

  ghost function AllLevels(x: Subject, parents: set<Key>): set<(Subject, Key, Level)> {
    set p, l: Level | p in parents :: (x, p, l)
  }

  ghost function OwnLevels(x: Subject, p: Key): set<(Subject, Key, Level)> {
    {(x, p, GlobalClass), (x, p, LocalNamespace), (x, p, LocalClass), (x, p, ConfigNamespace), (x, p, ConfigGateway)}
  }

  lemma AnyLevel(x: Subject, p: Key, l: Level)
    ensures (x, p, l) in OwnLevels(x, p)
  {}

  lemma {:induction false} AllLevelsSize(x: Subject, parents: set<Key>)
    ensures |AllLevels(x, parents)| <= LEVELS * |parents|
  {
    if parents == {} {
    } else {
      var p :| p in parents;
      AllLevelsSize(x, parents - {p});
      var own := OwnLevels(x, p);
      forall y | y in AllLevels(x, parents) ensures y in AllLevels(x, parents - {p}) + own {
        assert y == (x, y.1, y.2);
        if y.1 == p {
          AnyLevel(x, p, y.2);
        }
      }
      SubsetSize(AllLevels(x, parents), AllLevels(x, parents - {p}) + own);
      UnionSize(AllLevels(x, parents - {p}), own);
    }
  }

  lemma BeginSizes(s: State, x: Subject, setup: Setup)
    requires Enabled(s, Begin(x))
    ensures var s' := Apply(s, Begin(x), setup);
            && s'.cluster == s.cluster && s'.notices == s.notices && |s'.queue| == |s.queue| - 1
            && |s'.working| + |Unread(s')| <= |s.working| + |Unread(s)| + 1 + LEVELS * |s.cluster.gateways|
  {
    var s', v := Apply(s, Begin(x), setup), ViewOf(x, s.cluster, setup);
    if Live(x, v) {
      StartedSizes(s, s', x);
      ParentsSize(x, s.cluster, setup);
    } else {
      assert s'.working == s.working && Unread(s') == Unread(s);
    }
  }

  lemma BeginWork(s: State, x: Subject, setup: Setup)
    requires Enabled(s, Begin(x))
    ensures Work(Apply(s, Begin(x), setup)) < Work(s)
  {
    var s' := Apply(s, Begin(x), setup);
    BeginSizes(s, x, setup);
    BeginTotal(|s.cluster.gateways|, |s.cluster.routes|, |s.notices|, |s.queue|,
               |s.working| + |Unread(s)|, |s'.working| + |Unread(s')|);
  }

  lemma BeginTotal(gateways: nat, routes: nat, notices: nat, queue: nat, begun: nat, begun': nat)
    requires queue > 0 && begun' <= begun + 1 + LEVELS * gateways
    ensures Total(gateways, routes, notices, queue - 1, begun') < Total(gateways, routes, notices, queue, begun)
  {}

  lemma ParentsSize(x: Subject, c: Cluster, setup: Setup)
    ensures |ViewOf(x, c, setup).parents.Keys| <= |c.gateways|
  {
    SubsetSize(ViewOf(x, c, setup).parents.Keys, c.gateways.Keys);
    assert |c.gateways.Keys| == |c.gateways|;
  }

  lemma StartedSizes(s: State, s': State, x: Subject)
    requires x !in s.working && x in s'.working && s'.working == s.working[x := s'.working[x]]
    ensures |s'.working| == |s.working| + 1
    ensures |Unread(s')| <= |Unread(s)| + LEVELS * |s'.working[x].view.parents.Keys|
  {
    var parents := s'.working[x].view.parents.Keys;
    forall y | y in Unread(s') ensures y in Unread(s) + AllLevels(x, parents) {
      if y.0 != x {
        assert s'.working[y.0] == s.working[y.0];
      } else {
        assert y == (x, y.1, y.2);
      }
    }
    SubsetSize(Unread(s'), Unread(s) + AllLevels(x, parents));
    UnionSize(Unread(s), AllLevels(x, parents));
    AllLevelsSize(x, parents);
  }

  lemma ReadWork(s: State, x: Subject, p: Key, l: Level, setup: Setup)
    requires Internal(s, Read(x, p, l))
    ensures Work(Apply(s, Read(x, p, l), setup)) < Work(s)
  {
    var s' := Apply(s, Read(x, p, l), setup);
    assert s'.working.Keys == s.working.Keys;
    assert |s'.working| == |s'.working.Keys| && |s.working| == |s.working.Keys|;
    assert (x, p, l) in Unread(s);
    forall y | y in Unread(s') ensures y in Unread(s) - {(x, p, l)} {
      assert y.0 != x ==> s'.working[y.0] == s.working[y.0];
      assert y == (y.0, y.1, y.2);
    }
    SubsetSize(Unread(s'), Unread(s) - {(x, p, l)});
  }

  lemma FinishWork(s: State, x: Subject, ending: Ending, setup: Setup)
    requires Enabled(s, Finish(x, ending))
    ensures var s', e := Apply(s, Finish(x, ending), setup), Finish(x, ending);
            && Unrest(s'.cluster) == Unrest(s.cluster)
            && Work(s') < Work(s) + if Restless(s, e, setup) then Unrest(s.cluster) else 0
  {
    var s', c := Apply(s, Finish(x, ending), setup), s.cluster;
    SameSizes(s, x, ending, setup);
    FinishShape(s, x, ending, setup);
    FinishSizes(s, s', x);
    TimesMonotone(PerNotice(|c.gateways|, |c.routes|), |s'.notices|, |s.notices| + 1);
    TimesMonotone(PerSubject(|c.gateways|), |s'.queue|, |s.queue| + 1);
  }

  lemma FinishShape(s: State, x: Subject, ending: Ending, setup: Setup)
    requires Enabled(s, Finish(x, ending))
    ensures var s', e := Apply(s, Finish(x, ending), setup), Finish(x, ending);
            && s'.working == s.working - {x}
            && (s'.queue == s.queue || s'.queue == s.queue + {x})
            && |s'.notices| <= |s.notices| + 1
            && (!Restless(s, e, setup) ==> s'.queue == s.queue && s'.notices == s.notices)
  {}

  lemma SameSizes(s: State, x: Subject, ending: Ending, setup: Setup)
    requires Enabled(s, Finish(x, ending))
    ensures var c, c' := s.cluster, Apply(s, Finish(x, ending), setup).cluster;
            |c'.gateways| == |c.gateways| && |c'.routes| == |c.routes|
  {
    var c, c' := s.cluster, Apply(s, Finish(x, ending), setup).cluster;
    assert c'.gateways.Keys == c.gateways.Keys && c'.routes.Keys == c.routes.Keys;
    assert |c'.gateways| == |c'.gateways.Keys| && |c.gateways| == |c.gateways.Keys|;
    assert |c'.routes| == |c'.routes.Keys| && |c.routes| == |c.routes.Keys|;
  }

  lemma FinishSizes(s: State, s': State, x: Subject)
    requires x in s.working && s'.working == s.working - {x}
    requires s'.queue == s.queue || s'.queue == s.queue + {x}
    ensures |s'.working| == |s.working| - 1 && |Unread(s')| <= |Unread(s)|
    ensures |s'.queue| <= |s.queue| + 1
  {
    assert s'.working.Keys == s.working.Keys - {x};
    assert |s'.working| == |s'.working.Keys| && |s.working| == |s.working.Keys|;
    forall y | y in Unread(s') ensures y in Unread(s) {
      assert s'.working[y.0] == s.working[y.0];
    }
    SubsetSize(Unread(s'), Unread(s));
    UnionSize(s.queue, {x});
  }

  /** Every step of a controller reduces the work left, but for what a restless one adds. */
  lemma InternalStepsEnd(s: State, e: Event, setup: Setup)
    requires Internal(s, e)
    ensures Unrest(Apply(s, e, setup).cluster) == Unrest(s.cluster)
    ensures Work(Apply(s, e, setup)) < Work(s) + if Restless(s, e, setup) then Unrest(s.cluster) else 0
  {
    match e
    case Deliver(n) => DeliverWork(s, n, setup);
    case Begin(x) => BeginWork(s, x, setup);
    case Read(x, p, l) => ReadWork(s, x, p, l, setup);
    case Finish(x, ending) => FinishWork(s, x, ending, setup);
    case _ =>
      assert false;
  }

  // ----- Runs

  /** A run of the controllers' own steps, while nothing changes from outside. */
  ghost predicate Undisturbed(s: State, events: seq<Event>, setup: Setup)
    decreases |events|
  {
    events == [] || (Internal(s, events[0]) && Undisturbed(Apply(s, events[0], setup), events[1..], setup))
  }

  lemma {:induction false} UndisturbedPossible(s: State, events: seq<Event>, setup: Setup)
    requires Undisturbed(s, events, setup)
    ensures Possible(s, events, setup)
    decreases |events|
  {
    if events == [] {
    } else {
      UndisturbedPossible(Apply(s, events[0], setup), events[1..], setup);
    }
  }

  /** What the restless steps of a run add. */
  ghost function Added(s: State, events: seq<Event>, setup: Setup): nat
    requires Undisturbed(s, events, setup)
    decreases |events|
  {
    if events == [] then 0
    else
      var more := Added(Apply(s, events[0], setup), events[1..], setup);
      if Restless(s, events[0], setup) then Unrest(s.cluster) + more else more
  }

  /**
   Once changes stop, the controllers take only so many steps: the work there is at the start,
   and `Unrest`, which depends on the numbers of gateways and routes only, for each reconcile
   that fails, comes back or writes a status.
   */
  lemma {:induction false} RunIsBounded(s: State, events: seq<Event>, setup: Setup)
    requires Undisturbed(s, events, setup)
    ensures |events| <= Work(s) + Added(s, events, setup)
    decreases |events|
  {
    if events == [] {
    } else {
      InternalStepsEnd(s, events[0], setup);
      RunIsBounded(Apply(s, events[0], setup), events[1..], setup);
    }
  }

  // ----- Getting there

  predicate SpecDecodes(p: Policy) {
    !p.spec.dflt.Malformed? && !p.spec.over.Malformed?
  }

  predicate BlueprintsDecode(setup: Setup) {
    forall c :: c in setup.blueprints ==> !setup.blueprints[c].dflt.Malformed? && !setup.blueprints[c].over.Malformed?
  }

  /** Everything decodes, also what was read already. */
  ghost predicate Sane(s: State, setup: Setup) {
    && BlueprintsDecode(setup)
    && (forall k :: k in s.cluster.policies ==> SpecDecodes(s.cluster.policies[k]))
    && (forall x :: x in s.working ==> SaneProgress(s.working[x], setup))
  }

  ghost predicate SaneProgress(w: Progress, setup: Setup) {
    && ManagedParents(w.view, setup)
    && forall q, p :: q in w.groups && p in w.groups[q] ==> SpecDecodes(p)
  }

  lemma GroupSane(s: State, l: Level, g: Gateway, setup: Setup, p: Policy)
    requires Sane(s, setup) && p in GroupNow(s.cluster.policies, l, g, setup)
    ensures SpecDecodes(p)
  {
    assert p in multiset(Listing(Chosen(s.cluster.policies, l, g, setup)));
    assert p in Chosen(s.cluster.policies, l, g, setup);
  }

  /** The controllers' own steps do not change that. */
  lemma SaneKept(s: State, e: Event, setup: Setup)
    requires Sane(s, setup) && Internal(s, e)
    ensures Sane(Apply(s, e, setup), setup)
  {
    if e.Read? {
      var w, w' := s.working[e.subject], Apply(s, e, setup).working[e.subject];
      forall q, p | q in w'.groups && p in w'.groups[q] ensures SpecDecodes(p) {
        if q == (e.parent, e.level) {
          GroupSane(s, e.level, w.view.parents[e.parent], setup, p);
        }
      }
    } else if e.Begin? {
      ViewManaged(e.subject, s.cluster, setup);
    }
  }

  /** A reconcile that has read everything, and only what decodes, can render. */
  lemma SaneValues(w: Progress, setup: Setup)
    requires SaneProgress(w, setup) && AllRead(w) && BlueprintsDecode(setup)
    ensures ToRender(w, true, setup).Some?
  {
    forall p | p in w.view.parents ensures ResultFor(w, p, setup).Ok? {
      SaneResult(w, p, setup);
    }
  }

  lemma SaneResult(w: Progress, p: Key, setup: Setup)
    requires SaneProgress(w, setup) && AllRead(w) && BlueprintsDecode(setup) && p in w.view.parents
    ensures ResultFor(w, p, setup).Ok?
  {
    var bp, gs := setup.blueprints[w.view.parents[p].className], map l: Level | true :: w.groups[(p, l)];
    var h := gs[GlobalClass] + gs[LocalNamespace] + gs[LocalClass] + (gs[ConfigNamespace] + gs[ConfigGateway]);
    forall q | q in h ensures SpecDecodes(q) {
      assert exists l: Level :: q in gs[l];
    }
    PlanDecodable(bp, h, h);
    RunIsFold(Map(map[]), Plan(bp, h, h));
  }

  /** Where no quiet step is left: everything queued is being worked on, and every reconcile can only fail. */
  ghost predicate Blocked(s: State, setup: Setup) {
    && s.notices == multiset{}
    && (forall x :: x in s.queue ==> x in s.working)
    && (forall x :: x in s.working ==> AllRead(s.working[x]) && ToRender(s.working[x], true, setup).None?)
  }

  lemma BlockedIff(s: State, setup: Setup)
    ensures Blocked(s, setup) <==> forall e :: !Quiet(s, e, setup)
  {
    if !Blocked(s, setup) {
      var e := QuietStep(s, setup);
    }
  }

  lemma QuietStep(s: State, setup: Setup) returns (e: Event)
    requires !Blocked(s, setup)
    ensures Quiet(s, e, setup)
  {
    if s.notices != multiset{} {
      var n :| n in s.notices;
      e := Deliver(n);
    } else if x :| x in s.queue && x !in s.working {
      e := Begin(x);
    } else {
      var x :| x in s.working && (!AllRead(s.working[x]) || ToRender(s.working[x], true, setup).Some?);
      if !AllRead(s.working[x]) {
        var p, l: Level :| p in s.working[x].view.parents && (p, l) !in s.working[x].groups;
        e := Read(x, p, l);
      } else {
        e := Finish(x, Ending(true, false, None));
      }
    }
  }

  /** As long as everything decodes, only at rest no quiet step is left. */
  lemma NeverStuck(s: State, setup: Setup)
    requires Sane(s, setup)
    ensures AtRest(s) <==> forall e :: !Quiet(s, e, setup)
  {
    BlockedIff(s, setup);
    if Blocked(s, setup) {
      forall x ensures x !in s.working {
        if x in s.working {
          SaneValues(s.working[x], setup);
        }
      }
    }
  }

  /** From any such state, quiet steps lead to rest, no more than there is work. */
  lemma ComesToRest(s: State, setup: Setup) returns (events: seq<Event>)
    requires Sane(s, setup)
    ensures Undisturbed(s, events, setup) && Added(s, events, setup) == 0
    ensures Possible(s, events, setup) && AtRest(After(s, events, setup)) && Sane(After(s, events, setup), setup)
    ensures |events| <= Work(s)
    decreases Work(s)
  {
    if AtRest(s) {
      events := [];
    } else {
      NeverStuck(s, setup);
      var e :| Quiet(s, e, setup);
      SaneKept(s, e, setup);
      InternalStepsEnd(s, e, setup);
      var rest := ComesToRest(Apply(s, e, setup), setup);
      events := [e] + rest;
      assert events[1..] == rest;
    }
  }

  /** And whichever steps the controllers take: where no quiet step is left, they have come to rest. */
  lemma {:induction false} EndsAtRest(s: State, events: seq<Event>, setup: Setup)
    requires Sane(s, setup) && Undisturbed(s, events, setup)
    ensures Possible(s, events, setup)
    ensures (forall e :: !Quiet(After(s, events, setup), e, setup)) <==> AtRest(After(s, events, setup))
    decreases |events|
  {
    UndisturbedPossible(s, events, setup);
    if events == [] {
      NeverStuck(s, setup);
    } else {
      SaneKept(s, events[0], setup);
      EndsAtRest(Apply(s, events[0], setup), events[1..], setup);
    }
  }

  lemma RestUncovered(s: State, x: Subject, v: View, setup: Setup)
    requires AtRest(s)
    ensures !Covered(s, x, v, setup) && x !in s.working
  {}

  /** At rest, every live gateway of a managed class is rendered with what a lookup returns now. */
  lemma RestIsCurrent(events: seq<Event>, setup: Setup, k: Key, ls: Lists)
    requires setup.controllerNamespace != "" && Possible(START, events, setup)
    requires var s := After(START, events, setup);
             && AtRest(s) && Managed(s.cluster.gateways, k, setup)
             && forall l: Level :: Answers(ListFor(ls, l), s.cluster.policies, l, s.cluster.gateways[k], setup)
    ensures var s, x := After(START, events, setup), OfGateway(k);
            var g := s.cluster.gateways[k];
            && x in s.rendered && s.rendered[x].view.parents == map[k := g] && s.rendered[x].values.Keys == {k}
            && LookupResult(setup.blueprints[g.className], ls, g) == Ok(s.rendered[x].values[k])
  {
    var s := After(START, events, setup);
    RestUncovered(s, OfGateway(k), ViewOf(OfGateway(k), s.cluster, setup), setup);
    RenderedIsCurrent(events, setup, k, ls);
  }

  // ----- What is queued comes to be reconciled

  /** On the way to a state in which it is not queued, what is queued begins. This holds of any run. */
  lemma {:induction false} QueuedBegins(s: State, events: seq<Event>, x: Subject, setup: Setup)
    requires Possible(s, events, setup) && x in s.queue && x !in After(s, events, setup).queue
    ensures Begin(x) in events
    decreases |events|
  {
    if events == [] {
    } else if events[0] != Begin(x) {
      QueuedBegins(Apply(s, events[0], setup), events[1..], x, setup);
      assert forall e :: e in events[1..] ==> e in events;
    }
  }

  /** And so does what there is a notice of. */
  lemma {:induction false} NoticedBegins(s: State, events: seq<Event>, x: Subject, setup: Setup)
    requires Possible(s, events, setup) && ObjectNotice(x) in s.notices && AtRest(After(s, events, setup))
    ensures Begin(x) in events
    decreases |events|
  {
    if events == [] {
    } else {
      var s' := Apply(s, events[0], setup);
      assert forall e :: e in events[1..] ==> e in events;
      if events[0] == Deliver(ObjectNotice(x)) {
        QueuedBegins(s', events[1..], x, setup);
      } else {
        StaysNoticed(s, events[0], x, setup);
        NoticedBegins(s', events[1..], x, setup);
      }
    }
  }

  lemma StaysNoticed(s: State, e: Event, x: Subject, setup: Setup)
    requires Enabled(s, e) && ObjectNotice(x) in s.notices && e != Deliver(ObjectNotice(x))
    ensures ObjectNotice(x) in Apply(s, e, setup).notices
  {}

  /**
   A reconcile that ends with something left to do, does not come to render, cannot look up its
   values or writes a status is followed by another one of the same gateway or route.
   */
  lemma ComesBack(s: State, x: Subject, ending: Ending, events: seq<Event>, setup: Setup)
    requires Enabled(s, Finish(x, ending)) && Possible(Apply(s, Finish(x, ending), setup), events, setup)
    requires ending.again || !ending.renders || ending.written.Some? || ToRender(s.working[x], true, setup).None?
    requires AtRest(After(Apply(s, Finish(x, ending), setup), events, setup))
    ensures Begin(x) in events
  {
    var s' := Apply(s, Finish(x, ending), setup);
    if x in s'.queue {
      QueuedBegins(s', events, x, setup);
    } else {
      NoticedBegins(s', events, x, setup);
    }
  }

  /** A change of a gateway or route is followed by a reconcile of it. */
  lemma ChangeBegins(s: State, e: Event, events: seq<Event>, setup: Setup)
    requires ChangesObject(e) && Enabled(s, e) && Possible(Apply(s, e, setup), events, setup)
    requires AtRest(After(Apply(s, e, setup), events, setup))
    ensures Begin(ObjectChange(s.cluster, e).0) in events
  {
    NoticedBegins(Apply(s, e, setup), events, ObjectChange(s.cluster, e).0, setup);
  }

  /** So is a resynchronisation. */
  lemma ResyncBegins(s: State, x: Subject, events: seq<Event>, setup: Setup)
    requires Possible(Apply(s, Resync(x), setup), events, setup)
    requires AtRest(After(Apply(s, Resync(x), setup), events, setup))
    ensures Begin(x) in events
  {
    QueuedBegins(Apply(s, Resync(x), setup), events, x, setup);
  }

  // ----- What is left alone

  /** There is no such route, or no such gateway of a managed class. */
  predicate NotManaged(x: Subject, c: Cluster, setup: Setup) {
    match x
    case OfGateway(k) => k !in c.gateways || c.gateways[k].className !in setup.blueprints
    case OfRoute(k) => k !in c.routes
  }

  /** The change makes `x` one that is managed, unless it was already. */
  predicate Puts(e: Event, x: Subject, setup: Setup) {
    match e
    case PutGateway(g) => x == OfGateway(Key(g.namespace, g.name)) && g.className in setup.blueprints
    case PutRoute(rt) => x == OfRoute(Key(rt.namespace, rt.name))
    case _ => false
  }

  lemma StaysNotManaged(s: State, e: Event, x: Subject, setup: Setup)
    requires Enabled(s, e) && !Puts(e, x, setup)
    requires NotManaged(x, s.cluster, setup) && x !in s.working
    ensures NotManaged(x, Apply(s, e, setup).cluster, setup) && x !in Apply(s, e, setup).working
    ensures Get(Apply(s, e, setup).rendered, x) == Get(s.rendered, x)
  {}

  /** Until it is put, nothing is rendered for what is not there or has another class, in any run. */
  lemma {:induction false} NotManagedIsLeftAlone(s: State, events: seq<Event>, x: Subject, setup: Setup)
    requires Possible(s, events, setup) && forall e :: e in events ==> !Puts(e, x, setup)
    requires NotManaged(x, s.cluster, setup) && x !in s.working
    ensures x !in After(s, events, setup).working
    ensures Get(After(s, events, setup).rendered, x) == Get(s.rendered, x)
    decreases |events|
  {
    if events == [] {
    } else {
      assert events[0] in events && forall e :: e in events[1..] ==> e in events;
      StaysNotManaged(s, events[0], x, setup);
      NotManagedIsLeftAlone(Apply(s, events[0], setup), events[1..], x, setup);
    }
  }

  /** What a change is about. */
  datatype Matter = PolicyAt(policyKey: PolicyKey) | ObjectAt(subject: Subject)

  /** What there may be: a policy, or a gateway or route but for its content, which reconciles write too. */
  datatype Thing = Nothing | Config(policy: Policy) | BareGateway(gateway: Gateway) | BareRoute(route: Route)

  function ThingAt(c: Cluster, m: Matter): Thing {
    match m
    case PolicyAt(k) => if k in c.policies then Config(c.policies[k]) else Nothing
    case ObjectAt(OfGateway(k)) => if k in c.gateways then BareGateway(c.gateways[k].(content := "")) else Nothing
    case ObjectAt(OfRoute(k)) => if k in c.routes then BareRoute(c.routes[k].(content := "")) else Nothing
  }

  /** What a change is about and what it makes of it, if the event is a change. */
  function ChangeBy(e: Event): Option<(Matter, Thing)> {
    match e
    case PutPolicy(p) => Some((PolicyAt(PolicyKey(p.GatewayClassConfig?, p.namespace, p.name)), Config(p)))
    case DropPolicy(k) => Some((PolicyAt(k), Nothing))
    case PutGateway(g) => Some((ObjectAt(OfGateway(Key(g.namespace, g.name))), BareGateway(g.(content := ""))))
    case DropGateway(k) => Some((ObjectAt(OfGateway(k)), Nothing))
    case PutRoute(rt) => Some((ObjectAt(OfRoute(Key(rt.namespace, rt.name))), BareRoute(rt.(content := ""))))
    case DropRoute(k) => Some((ObjectAt(OfRoute(k)), Nothing))
    case _ => None
  }

  predicate IsAbout(e: Event, m: Matter) {
    ChangeBy(e).Some? && ChangeBy(e).value.0 == m
  }

  /** The controllers' own steps, and changes of other things, leave it as it is. */
  lemma StepLeaves(s: State, e: Event, m: Matter, setup: Setup)
    requires Enabled(s, e) && !IsAbout(e, m)
    ensures ThingAt(Apply(s, e, setup).cluster, m) == ThingAt(s.cluster, m)
  {
    if ChangesObject(e) {
      ChangeLeaves(s, e, m, setup);
    } else if e.Finish? {
      FinishLeaves(s, e.subject, e.ending, m, setup);
    }
  }

  lemma ChangeLeaves(s: State, e: Event, m: Matter, setup: Setup)
    requires Enabled(s, e) && !IsAbout(e, m) && ChangesObject(e)
    ensures ThingAt(Apply(s, e, setup).cluster, m) == ThingAt(s.cluster, m)
  {}

  lemma FinishLeaves(s: State, x: Subject, ending: Ending, m: Matter, setup: Setup)
    requires Enabled(s, Finish(x, ending))
    ensures ThingAt(Apply(s, Finish(x, ending), setup).cluster, m) == ThingAt(s.cluster, m)
  {
    if ending.written.Some? {
      WriteLeaves(s.cluster, x, ending.written.value, m);
    }
  }

  /** A status that is written is content. */
  lemma WriteLeaves(c: Cluster, x: Subject, content: string, m: Matter)
    requires x in Subjects(c)
    ensures ThingAt(Written(c, x, content), m) == ThingAt(c, m)
  {}

  lemma {:induction false} RunLeaves(s: State, events: seq<Event>, m: Matter, setup: Setup)
    requires Possible(s, events, setup) && forall e :: e in events ==> !IsAbout(e, m)
    ensures ThingAt(After(s, events, setup).cluster, m) == ThingAt(s.cluster, m)
    decreases |events|
  {
    if events == [] {
    } else {
      assert events[0] in events && forall e :: e in events[1..] ==> e in events;
      StepLeaves(s, events[0], m, setup);
      RunLeaves(Apply(s, events[0], setup), events[1..], m, setup);
    }
  }

  /** In any run, the last change of anything is what stands. */
  lemma LastChangeStands(s: State, e: Event, events: seq<Event>, m: Matter, setup: Setup)
    requires Enabled(s, e) && IsAbout(e, m) && Possible(Apply(s, e, setup), events, setup)
    requires forall later :: later in events ==> !IsAbout(later, m)
    ensures ThingAt(After(Apply(s, e, setup), events, setup).cluster, m) == ChangeBy(e).value.1
  {
    RunLeaves(Apply(s, e, setup), events, m, setup);
  }

  /** Applying a policy again with the same spec disturbs no one, and applying it with another does. */
  lemma PolicyStirsIff(s: State, p: Policy, setup: Setup)
    requires AtRest(s) && WellKeyed(s.cluster.policies) && Enabled(s, PutPolicy(p))
    ensures AtRest(Apply(s, PutPolicy(p), setup))
       <==> exists q :: q in s.cluster.policies.Values && KeyOf(q) == KeyOf(p) && q.spec == p.spec
  {
    var before := Get(s.cluster.policies, KeyOf(p));
    if before.None? || before.value.spec != p.spec {
      assert ConfigNotice(before, Some(p)) in Apply(s, PutPolicy(p), setup).notices;
    }
  }

  // ----- What the index is for

  /** The lists that the handlers of config notices get. */
  ghost predicate ListsAll(c: Cluster, gateways: seq<Gateway>, routes: seq<Route>) {
    && (forall g :: g in gateways <==> GatewayKey(g) in c.gateways && c.gateways[GatewayKey(g)] == g)
    && (forall rt :: rt in routes <==> RouteKey(rt) in c.routes && c.routes[RouteKey(rt)] == rt)
  }

  /** The index enqueues the gateway for the old or the new form of a config. */
  ghost predicate GatewayIndexed(n: Notice, k: Key, gateways: seq<Gateway>, setup: Setup)
    requires n.ConfigNotice?
  {
    || (n.before.Some? && k in Woken(n.before.value, gateways, setup.controllerNamespace))
    || (n.after.Some? && k in Woken(n.after.value, gateways, setup.controllerNamespace))
  }

  ghost predicate RouteIndexed(n: Notice, k: Key, gateways: seq<Gateway>, routes: seq<Route>, setup: Setup)
    requires n.ConfigNotice?
  {
    || (n.before.Some? && KeyWoken(k, n.before.value, gateways, routes, setup.controllerNamespace))
    || (n.after.Some? && KeyWoken(k, n.after.value, gateways, routes, setup.controllerNamespace))
  }

  /** Handling a config notice queues exactly what the index returns for the config before and after the change. */
  lemma EnqueuesGatewaysIff(n: Notice, k: Key, c: Cluster, gateways: seq<Gateway>, routes: seq<Route>, setup: Setup)
    requires Keyed(c) && ListsAll(c, gateways, routes) && n.ConfigNotice?
    ensures OfGateway(k) in Enqueued(n, c, setup) <==> GatewayIndexed(n, k, gateways, setup)
  {
    if n.before.Some? {
      WokenMember(n.before.value, gateways, setup.controllerNamespace, k);
    }
    if n.after.Some? {
      WokenMember(n.after.value, gateways, setup.controllerNamespace, k);
    }
    if k in c.gateways {
      assert c.gateways[k] in gateways;
      assert map[k := c.gateways[k]][k] == c.gateways[k];
    }
  }

  lemma EnqueuesRoutesIff(n: Notice, k: Key, c: Cluster, gateways: seq<Gateway>, routes: seq<Route>, setup: Setup)
    requires Keyed(c) && ListsAll(c, gateways, routes) && n.ConfigNotice?
    ensures OfRoute(k) in Enqueued(n, c, setup) <==> RouteIndexed(n, k, gateways, routes, setup)
  {
    if k in c.routes {
      var rt := c.routes[k];
      assert rt in routes;
      var attached := map p | p in c.gateways && AttachedTo(rt, p) :: c.gateways[p];
      forall p | p in c.gateways ensures c.gateways[p] in gateways && GatewayKey(c.gateways[p]) == p {}
      WakesAttached(n.before, rt, c, gateways, setup);
      WakesAttached(n.after, rt, c, gateways, setup);
      assert WakesOneOf(n, attached, setup) <==>
          (exists p :: p in attached && WakesAny(n.before, attached[p], setup))
          || (exists p :: p in attached && WakesAny(n.after, attached[p], setup));
    }
  }

  lemma WakesAttached(o: Option<Policy>, rt: Route, c: Cluster, gateways: seq<Gateway>, setup: Setup)
    requires Keyed(c) && forall g :: g in gateways <==> GatewayKey(g) in c.gateways && c.gateways[GatewayKey(g)] == g
    ensures var attached := map p | p in c.gateways && AttachedTo(rt, p) :: c.gateways[p];
            (exists p :: p in attached && WakesAny(o, attached[p], setup))
            <==> o.Some? && WakesRoute(o.value, rt, gateways, setup.controllerNamespace)
  {
    if p :| p in c.gateways && AttachedTo(rt, p) && WakesAny(o, c.gateways[p], setup) {
      assert c.gateways[p] in gateways;
    }
    if o.Some? && WakesRoute(o.value, rt, gateways, setup.controllerNamespace) {
      var g :| g in gateways && Wakes(o.value, g, setup.controllerNamespace) && AttachedTo(rt, GatewayKey(g));
      var attached := map p | p in c.gateways && AttachedTo(rt, p) :: c.gateways[p];
      assert GatewayKey(g) in attached && attached[GatewayKey(g)] == g;
    }
  }
}
