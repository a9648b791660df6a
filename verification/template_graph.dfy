/**
 The render/fetch/apply loop seen as sets of template names. A template renders once every
 template it reads from has been fetched, is fetched once it is rendered and exists, and
 exists once it has been applied. One reconcile runs as many passes as there are templates,
 starting over with nothing rendered or fetched, while what exists stays.
 */
module TemplateGraph {

  /** For every template, the names of the templates whose resources it reads. */
  type Graph = map<string, set<string>>

  function Ready(g: Graph, fetched: set<string>): set<string> {
    set t | t in g && g[t] <= fetched
  }

  /** The templates whose dependency chains have at most `n` templates. */
  function Tier(g: Graph, n: nat): set<string> {
    if n == 0 then {} else Ready(g, Tier(g, n - 1))
  }

  // ----- The least fixpoint

  lemma {:induction false} TierMonotone(g: Graph, m: nat, n: nat)
    requires m <= n
    ensures Tier(g, m) <= Tier(g, n)
    decreases m
  {
    if m == 0 {
    } else {
      TierMonotone(g, m - 1, n - 1);
    }
  }

  lemma {:induction false} TierGrows(g: Graph, n: nat)
    ensures Tier(g, n) == Tier(g, n + 1) || |Tier(g, n + 1)| >= n + 1
  {
    TierMonotone(g, n, n + 1);
    if Tier(g, n) != Tier(g, n + 1) {
      if n > 0 {
        TierGrows(g, n - 1);
        ProperSubsetSize(Tier(g, n), Tier(g, n + 1));
      } else {
        ProperSubsetSize({}, Tier(g, 1));
      }
    }
  }

  lemma SubsetSize(a: set<string>, b: set<string>)
    requires a <= b
    ensures |a| <= |b|
  {
    assert b == a + (b - a);
  }

  lemma ProperSubsetSize(a: set<string>, b: set<string>)
    requires a < b
    ensures |a| < |b|
  {
    var x :| x in b && x !in a;
    SubsetSize(a, b - {x});
  }

  /** As many tiers as there are templates are enough. */
  lemma TierFixpoint(g: Graph)
    ensures Ready(g, Tier(g, |g|)) == Tier(g, |g|)
  {
    TierGrows(g, |g|);
    SubsetSize(Tier(g, |g| + 1), g.Keys);
    assert |g.Keys| == |g|;
  }

  /** `s` is closed under `S -> S + Ready(S)`. */
  predicate Closed(g: Graph, s: set<string>) {
    s + Ready(g, s) == s
  }

  lemma {:induction false} TierBelowClosed(g: Graph, n: nat, s: set<string>)
    requires Closed(g, s)
    ensures Tier(g, n) <= s
  {
    if n == 0 {
    } else {
      TierBelowClosed(g, n - 1, s);
      forall t | t in Tier(g, n) ensures t in s {
        assert t in Ready(g, s);
      }
    }
  }

  /** `Tier(g, |g|)` is the least set closed under `S -> S + Ready(S)`. */
  lemma LeastFixpoint(g: Graph)
    ensures Closed(g, Tier(g, |g|))
    ensures forall s :: Closed(g, s) ==> Tier(g, |g|) <= s
  {
    TierFixpoint(g);
    forall s | Closed(g, s) ensures Tier(g, |g|) <= s {
      TierBelowClosed(g, |g|, s);
    }
  }

  // ----- What is left over

  /** Each name on the path reads from the next. */
  ghost predicate Path(g: Graph, p: seq<string>) {
    |p| > 0 && forall i :: 0 <= i < |p| - 1 ==> p[i] in g && p[i + 1] in g[p[i]]
  }

  /** The path ends at a name that is no template, or closes a cycle. */
  ghost predicate DeadEnd(g: Graph, p: seq<string>)
    requires |p| > 0
  {
    p[|p| - 1] !in g || exists i :: 0 <= i < |p| - 1 && p[i] == p[|p| - 1]
  }

  lemma {:induction false} DownPath(g: Graph, p: seq<string>, n: nat, i: nat)
    requires Path(g, p) && i < |p| && p[0] in Tier(g, n)
    ensures i < n && p[i] in Tier(g, n - i)
  {
    if i == 0 {
    } else {
      DownPath(g, p, n, i - 1);
      assert p[i - 1] in Ready(g, Tier(g, n - i));
      assert p[i] in Tier(g, n - i);
    }
  }

  lemma {:induction false} CycleInNoTier(g: Graph, p: seq<string>, n: nat)
    requires Path(g, p) && |p| > 1 && p[0] == p[|p| - 1]
    ensures p[0] !in Tier(g, n)
    decreases n
  {
    if p[0] in Tier(g, n) {
      DownPath(g, p, n, |p| - 1);
      CycleInNoTier(g, p, n - (|p| - 1));
    }
  }

  lemma DeadEndInNoTier(g: Graph, p: seq<string>, n: nat)
    requires Path(g, p) && DeadEnd(g, p)
    ensures p[0] !in Tier(g, n)
  {
    if p[0] in Tier(g, n) {
      DownPath(g, p, n, |p| - 1);
      var i :| 0 <= i < |p| - 1 && p[i] == p[|p| - 1];
      DownPath(g, p, n, i);
      CycleInNoTier(g, p[i..], n - i);
    }
  }

  /** From a template left over one can walk on among templates left over, or to an unknown name. */
  lemma {:induction false} Walk(g: Graph, t: string, n: nat) returns (p: seq<string>)
    requires t in g && t !in Tier(g, |g|)
    ensures Path(g, p) && p[0] == t
    ensures p[|p| - 1] !in g || (|p| == n + 1 && forall i :: 0 <= i < |p| ==> p[i] in g)
    decreases n
  {
    if n == 0 {
      p := [t];
    } else {
      TierFixpoint(g);
      var u :| u in g[t] && u !in Tier(g, |g|);
      if u in g {
        var q := Walk(g, u, n - 1);
        p := [t] + q;
      } else {
        p := [t, u];
      }
    }
  }

  lemma {:induction false} Repeats(p: seq<string>, names: set<string>) returns (i: nat, j: nat)
    requires forall k :: 0 <= k < |p| ==> p[k] in names
    requires |p| > |names|
    ensures i < j < |p| && p[i] == p[j]
  {
    if k :| 1 <= k < |p| && p[k] == p[0] {
      i, j := 0, k;
    } else {
      forall k | 0 <= k < |p[1..]| ensures p[1..][k] in names - {p[0]} {
        assert p[1..][k] == p[k + 1];
      }
      var a, b := Repeats(p[1..], names - {p[0]});
      i, j := a + 1, b + 1;
    }
  }

  /**
   The templates left over are exactly those from which reading leads to a cycle or to a name
   that is no template.
   */
  lemma LeftOverIff(g: Graph, t: string)
    requires t in g
    ensures t !in Tier(g, |g|) <==> exists p :: Path(g, p) && p[0] == t && DeadEnd(g, p)
  {
    if t !in Tier(g, |g|) {
      var p := Walk(g, t, |g|);
      if p[|p| - 1] in g {
        var i, j := Repeats(p, g.Keys);
        var q := p[..j + 1];
        assert q[i] == q[|q| - 1] && 0 <= i < |q| - 1;
        assert Path(g, q) && q[0] == t && DeadEnd(g, q);
      } else {
        assert Path(g, p) && p[0] == t && DeadEnd(g, p);
      }
    }
    if exists p :: Path(g, p) && p[0] == t && DeadEnd(g, p) {
      var p :| Path(g, p) && p[0] == t && DeadEnd(g, p);
      DeadEndInNoTier(g, p, |g|);
    }
  }

  /** Reading from templates only, and never in a circle. */
  ghost predicate Acyclic(g: Graph) {
    forall p :: Path(g, p) && p[0] in g ==> !DeadEnd(g, p)
  }

  lemma AcyclicIsComplete(g: Graph)
    requires Acyclic(g)
    ensures Tier(g, |g|) == g.Keys
  {
    TierFixpoint(g);
    forall t | t in g ensures t in Tier(g, |g|) {
      LeftOverIff(g, t);
    }
    assert Tier(g, |g|) <= g.Keys;
  }

  // ----- Passes and reconciles

  datatype Phase = Phase(rendered: set<string>, fetched: set<string>, existing: set<string>)

  /** Render what is ready, fetch what is rendered and exists, apply what is rendered. */
  function Pass(g: Graph, s: Phase): Phase {
    var rendered := s.rendered + Ready(g, s.fetched);
    Phase(rendered, s.fetched + rendered * s.existing, s.existing + rendered)
  }

  function Passes(g: Graph, s: Phase, n: nat): Phase {
    if n == 0 then s else Pass(g, Passes(g, s, n - 1))
  }

  function Reconcile(g: Graph, existing: set<string>): Phase {
    Passes(g, Phase({}, {}, existing), |g|)
  }

  /** What exists after `k` reconciles in a row. */
  function ExistingAfter(g: Graph, existing: set<string>, k: nat): set<string> {
    if k == 0 then existing else Reconcile(g, ExistingAfter(g, existing, k - 1)).existing
  }

  predicate Below(s: Phase, t: Phase) {
    s.rendered <= t.rendered && s.fetched <= t.fetched && s.existing <= t.existing
  }

  /** Nothing rendered or fetched is lost, and a better start gives a better outcome. */
  lemma {:induction false} PassesMonotone(g: Graph, s: Phase, t: Phase, n: nat)
    requires Below(s, t)
    ensures Below(Passes(g, s, n), Passes(g, t, n))
    ensures Below(s, Passes(g, s, n))
  {
    if n == 0 {
    } else {
      PassesMonotone(g, s, t, n - 1);
    }
  }

  lemma ReadyMonotone(g: Graph, a: set<string>, b: set<string>)
    requires a <= b
    ensures Ready(g, a) <= Ready(g, b)
  {}

  lemma PassBounded(g: Graph, s: Phase, bound: set<string>)
    requires s.rendered <= bound && s.fetched <= s.rendered && Ready(g, bound) == bound
    ensures Pass(g, s).rendered <= bound && Pass(g, s).fetched <= Pass(g, s).rendered
  {
    ReadyMonotone(g, s.fetched, bound);
  }

  /** Only what the least fixpoint contains is ever rendered, and only what is rendered is fetched. */
  lemma PassesBounded(g: Graph, existing: set<string>, n: nat)
    ensures Passes(g, Phase({}, {}, existing), n).rendered <= Tier(g, |g|)
    ensures Passes(g, Phase({}, {}, existing), n).fetched <= Passes(g, Phase({}, {}, existing), n).rendered
  {
    TierFixpoint(g);
    StartBounded(g, existing, n, Tier(g, |g|));
  }

  lemma {:induction false} StartBounded(g: Graph, existing: set<string>, n: nat, bound: set<string>)
    requires Ready(g, bound) == bound
    ensures var s := Passes(g, Phase({}, {}, existing), n); s.rendered <= bound && s.fetched <= s.rendered
    decreases n
  {
    if n == 0 {
    } else {
      StartBounded(g, existing, n - 1, bound);
      PassBounded(g, Passes(g, Phase({}, {}, existing), n - 1), bound);
    }
  }

  /** A reconcile adds to the cluster exactly what it renders. */
  lemma {:induction false} PassesExisting(g: Graph, existing: set<string>, n: nat)
    ensures Passes(g, Phase({}, {}, existing), n).existing == existing + Passes(g, Phase({}, {}, existing), n).rendered
  {
    if n == 0 {
    } else {
      PassesExisting(g, existing, n - 1);
    }
  }

  lemma TierBounded(g: Graph, n: nat)
    ensures Tier(g, n) <= Tier(g, |g|)
  {
    TierFixpoint(g);
    TierBelowClosed(g, n, Tier(g, |g|));
  }

  /** When everything that can be created exists already, `n` passes render and fetch exactly `n` tiers. */
  lemma {:induction false} PassesWhenAllExist(g: Graph, existing: set<string>, n: nat)
    requires Tier(g, |g|) <= existing
    ensures Passes(g, Phase({}, {}, existing), n) == Phase(Tier(g, n), Tier(g, n), existing)
  {
    if n == 0 {
    } else {
      PassesWhenAllExist(g, existing, n - 1);
      TierMonotone(g, n - 1, n);
      TierBounded(g, n);
    }
  }

  /** Then one reconcile reaches the least fixpoint, whatever the graph. */
  lemma ReconcileWhenAllExist(g: Graph, existing: set<string>)
    requires Tier(g, |g|) <= existing
    ensures Reconcile(g, existing).rendered == Tier(g, |g|) == Reconcile(g, existing).fetched
    ensures Acyclic(g) ==> Reconcile(g, existing).fetched == g.Keys
  {
    PassesWhenAllExist(g, existing, |g|);
    if Acyclic(g) {
      AcyclicIsComplete(g);
    }
  }

  // ----- How many passes a template takes

  /** Passes from all dependencies fetched to fetched: one to render, one more if an apply has to create it. */
  function Price(existing: set<string>, t: string): nat {
    if t in existing then 1 else 2
  }

  function Cost(existing: set<string>, p: seq<string>): nat {
    if p == [] then 0 else Price(existing, p[0]) + Cost(existing, p[1..])
  }

  /** Every path of dependencies from `t` stays among the templates and costs at most `n`. */
  ghost predicate Affordable(g: Graph, existing: set<string>, t: string, n: nat) {
    forall p :: Path(g, p) && p[0] == t ==> (forall i :: 0 <= i < |p| ==> p[i] in g) && Cost(existing, p) <= n
  }

  /** A reconcile with `n` passes instead of one for each template. */
  function Start(g: Graph, existing: set<string>, n: nat): Phase {
    Passes(g, Phase({}, {}, existing), n)
  }

  lemma StartGrows(g: Graph, existing: set<string>, m: nat, n: nat)
    requires m <= n
    ensures Below(Start(g, existing, m), Start(g, existing, n))
    decreases n
  {
    if m < n {
      StartGrows(g, existing, m, n - 1);
    }
  }

  lemma {:induction false} RenderedIff(g: Graph, existing: set<string>, t: string, n: nat)
    ensures t in Start(g, existing, n).rendered <==> n > 0 && t in g && g[t] <= Start(g, existing, n - 1).fetched
  {
    if n == 1 {
      assert Start(g, existing, 0) == Phase({}, {}, existing);
    } else if n > 1 {
      RenderedIff(g, existing, t, n - 1);
      StartGrows(g, existing, n - 2, n - 1);
    }
  }

  /** A template is fetched its price later than the last of what it reads from. */
  lemma {:induction false} FetchedIff(g: Graph, existing: set<string>, t: string, n: nat)
    ensures var c := Price(existing, t);
            t in Start(g, existing, n).fetched <==> n >= c && t in g && g[t] <= Start(g, existing, n - c).fetched
  {
    if n == 0 {
    } else {
      FetchedIff(g, existing, t, n - 1);
      RenderedIff(g, existing, t, n);
      RenderedIff(g, existing, t, n - 1);
      PassesExisting(g, existing, n - 1);
      FetchedEarlier(g, existing, n, Price(existing, t));
    }
  }

  lemma FetchedEarlier(g: Graph, existing: set<string>, n: nat, c: nat)
    ensures 1 <= c < n ==> Start(g, existing, n - 1 - c).fetched <= Start(g, existing, n - c).fetched
    ensures n > 1 ==> Start(g, existing, n - 2).fetched <= Start(g, existing, n - 1).fetched
  {
    if 1 <= c < n {
      StartGrows(g, existing, n - 1 - c, n - c);
    }
    if n > 1 {
      StartGrows(g, existing, n - 2, n - 1);
    }
  }

  lemma PathStep(g: Graph, existing: set<string>, t: string, d: string, p: seq<string>)
    requires t in g && d in g[t] && Path(g, p) && p[0] == d
    ensures Path(g, [t] + p) && Cost(existing, [t] + p) == Price(existing, t) + Cost(existing, p)
  {
    assert ([t] + p)[1..] == p;
  }

  /** Affordability goes along the dependencies, each step at its price. */
  lemma AffordableIff(g: Graph, existing: set<string>, t: string, n: nat)
    ensures var c := Price(existing, t);
            Affordable(g, existing, t, n) <==>
              n >= c && t in g && forall d :: d in g[t] ==> Affordable(g, existing, d, n - c)
  {
    var c := Price(existing, t);
    assert Path(g, [t]) && Cost(existing, [t]) == c + Cost(existing, [t][1..]);
    assert [t][0] in g <==> t in g;
    if Affordable(g, existing, t, n) {
      forall d | d in g[t] ensures Affordable(g, existing, d, n - c) {
        AffordableNext(g, existing, t, d, n);
      }
    }
    if n >= c && t in g && forall d :: d in g[t] ==> Affordable(g, existing, d, n - c) {
      forall p | Path(g, p) && p[0] == t
        ensures (forall i :: 0 <= i < |p| ==> p[i] in g) && Cost(existing, p) <= n
      {
        AffordableAlong(g, existing, p, n);
      }
    }
  }

  lemma AffordableNext(g: Graph, existing: set<string>, t: string, d: string, n: nat)
    requires t in g && d in g[t] && Affordable(g, existing, t, n) && n >= Price(existing, t)
    ensures Affordable(g, existing, d, n - Price(existing, t))
  {
    forall p | Path(g, p) && p[0] == d
      ensures (forall i :: 0 <= i < |p| ==> p[i] in g) && Cost(existing, p) <= n - Price(existing, t)
    {
      PathStep(g, existing, t, d, p);
      assert forall i :: 0 <= i < |p| ==> p[i] == ([t] + p)[i + 1];
    }
  }

  lemma AffordableAlong(g: Graph, existing: set<string>, p: seq<string>, n: nat)
    requires Path(g, p) && p[0] in g && n >= Price(existing, p[0])
    requires forall d :: d in g[p[0]] ==> Affordable(g, existing, d, n - Price(existing, p[0]))
    ensures (forall i :: 0 <= i < |p| ==> p[i] in g) && Cost(existing, p) <= n
  {
    if |p| > 1 {
      var q := p[1..];
      assert Path(g, q) && q[0] in g[p[0]];
      assert forall i :: 1 <= i < |p| ==> p[i] == q[i - 1];
    } else {
      assert Cost(existing, p[1..]) == 0;
    }
  }

  /** After `n` passes exactly those templates are fetched that `n` passes can afford. */
  lemma {:induction false} FetchedIffAffordable(g: Graph, existing: set<string>, t: string, n: nat)
    ensures t in Start(g, existing, n).fetched <==> Affordable(g, existing, t, n)
    decreases n
  {
    var c := Price(existing, t);
    FetchedIff(g, existing, t, n);
    AffordableIff(g, existing, t, n);
    if n >= c && t in g {
      forall d | d in g[t] ensures d in Start(g, existing, n - c).fetched <==> Affordable(g, existing, d, n - c) {
        FetchedIffAffordable(g, existing, d, n - c);
      }
    }
  }

  /** When one reconcile is enough: no path leaves the templates, and none costs more than there are passes. */
  lemma OneReconcileIff(g: Graph, existing: set<string>)
    ensures Reconcile(g, existing).fetched == g.Keys <==> forall t :: t in g ==> Affordable(g, existing, t, |g|)
  {
    forall t ensures t in Reconcile(g, existing).fetched <==> Affordable(g, existing, t, |g|) {
      FetchedIffAffordable(g, existing, t, |g|);
    }
    PassesBounded(g, existing, |g|);
    TierFixpoint(g);
  }

  // ----- From an incomplete cluster each further tier costs two passes

  /** After `p` passes when exactly the first `d` tiers existed. */
  function PhaseFrom(g: Graph, d: nat, p: nat): Phase {
    if p <= d then Phase(Tier(g, p), Tier(g, p), Tier(g, d))
    else
      var q := p - d - 1;
      Phase(Tier(g, d + 1 + q / 2), Tier(g, d + (q + 1) / 2), Tier(g, d + 1 + q / 2))
  }

  lemma PassAlong(g: Graph, p: nat, d: nat)
    requires 0 < p <= d
    ensures Pass(g, Phase(Tier(g, p - 1), Tier(g, p - 1), Tier(g, d))) == Phase(Tier(g, p), Tier(g, p), Tier(g, d))
  {
    TierMonotone(g, p - 1, p);
    TierMonotone(g, p, d);
  }

  lemma PassApplies(g: Graph, h: nat)
    ensures Pass(g, Phase(Tier(g, h), Tier(g, h), Tier(g, h))) == Phase(Tier(g, h + 1), Tier(g, h), Tier(g, h + 1))
  {
    TierMonotone(g, h, h + 1);
  }

  lemma PassFetches(g: Graph, h: nat)
    requires h > 0
    ensures Pass(g, Phase(Tier(g, h), Tier(g, h - 1), Tier(g, h))) == Phase(Tier(g, h), Tier(g, h), Tier(g, h))
  {
    TierMonotone(g, h - 1, h);
  }

  lemma {:induction false} PassesFromTier(g: Graph, d: nat, p: nat)
    ensures Passes(g, Phase({}, {}, Tier(g, d)), p) == PhaseFrom(g, d, p)
  {
    if p == 0 {
    } else {
      PassesFromTier(g, d, p - 1);
      if p <= d {
        PassAlong(g, p, d);
      } else if (p - d - 1) % 2 == 0 {
        PassApplies(g, d + (p - d - 1) / 2);
      } else {
        PassFetches(g, d + 1 + (p - d - 1) / 2);
      }
    }
  }

  /** The tiers that exist after a reconcile that found `d` of them. */
  function NextDepth(n: nat, d: nat): (d': nat)
    requires d <= n
    ensures d <= d' <= n && n - d' == (n - d) / 2
  {
    n - (n - d) / 2
  }

  /** Starting from exactly `d` tiers, a reconcile halves what is missing, for every graph. */
  lemma ReconcileFromTier(g: Graph, d: nat)
    requires d <= |g|
    ensures Reconcile(g, Tier(g, d)).existing == Tier(g, NextDepth(|g|, d))
    ensures Reconcile(g, Tier(g, d)).fetched == Tier(g, d + (|g| - d) / 2)
  {
    PassesFromTier(g, d, |g|);
    if d < |g| {
      var q := |g| - d - 1;
      assert d + 1 + q / 2 == NextDepth(|g|, d);
      assert (q + 1) / 2 == (|g| - d) / 2;
    }
  }

  function Halved(n: nat, k: nat): nat {
    if k == 0 then n else Halved(n, k - 1) / 2
  }

  function Log2(n: nat): nat {
    if n <= 1 then 0 else 1 + Log2(n / 2)
  }

  lemma {:induction false} HalvedFirst(n: nat, k: nat)
    requires k > 0
    ensures Halved(n, k) == Halved(n / 2, k - 1)
  {
    if k <= 1 {
    } else {
      HalvedFirst(n, k - 1);
    }
  }

  /** `n` can be halved exactly `Log2(n)` times before it vanishes. */
  lemma {:induction false} HalvedVanishes(n: nat, k: nat)
    requires n > 0
    ensures Halved(n, k) == 0 <==> k > Log2(n)
  {
    if n > 1 {
      if k > 0 {
        HalvedFirst(n, k);
        HalvedVanishes(n / 2, k - 1);
      }
    } else if k > 0 {
      HalvedFirst(n, k);
      HalvedZero(k - 1);
    }
  }

  lemma {:induction false} HalvedZero(k: nat)
    ensures Halved(0, k) == 0
  {
    if k == 0 {
    } else {
      HalvedZero(k - 1);
    }
  }

  /** How many tiers of `n` exist after `k` reconciles of an empty cluster. */
  function Depth(n: nat, k: nat): (d: nat)
    ensures d <= n
  {
    if k == 0 then 0 else NextDepth(n, Depth(n, k - 1))
  }

  lemma {:induction false} DepthHalves(n: nat, k: nat)
    ensures n - Depth(n, k) == Halved(n, k)
  {
    if k == 0 {
    } else {
      DepthHalves(n, k - 1);
    }
  }

  lemma DepthFull(n: nat, k: nat)
    requires n > 0
    ensures Depth(n, k) == n <==> k > Log2(n)
  {
    DepthHalves(n, k);
    HalvedVanishes(n, k);
  }

  lemma ExistingNext(g: Graph, existing: set<string>, k: nat, d: nat)
    requires k > 0 && d <= |g| && ExistingAfter(g, existing, k - 1) == Tier(g, d)
    ensures ExistingAfter(g, existing, k) == Tier(g, NextDepth(|g|, d))
  {
    ReconcileFromTier(g, d);
  }

  /** `k` reconciles of an empty cluster, for every graph. */
  lemma {:induction false} ExistingFromEmpty(g: Graph, existing: set<string>, k: nat)
    requires existing == {}
    ensures ExistingAfter(g, existing, k) == Tier(g, Depth(|g|, k))
  {
    if k == 0 {
    } else {
      ExistingFromEmpty(g, existing, k - 1);
      ExistingNext(g, existing, k, Depth(|g|, k - 1));
    }
  }

  lemma {:induction false} ExistingMonotone(g: Graph, a: set<string>, b: set<string>, k: nat)
    requires a <= b
    ensures ExistingAfter(g, a, k) <= ExistingAfter(g, b, k)
  {
    if k == 0 {
    } else {
      ExistingMonotone(g, a, b, k - 1);
      PassesMonotone(g, Phase({}, {}, ExistingAfter(g, a, k - 1)), Phase({}, {}, ExistingAfter(g, b, k - 1)), |g|);
    }
  }

  /**
   Whatever exists at the start, `Log2(N) + 1` reconciles create everything that can be
   created, and the next one fetches all of it.
   */
  lemma LogReconcilesSuffice(g: Graph, existing: set<string>, k: nat)
    requires |g| > 0 && k > Log2(|g|)
    ensures Tier(g, |g|) <= ExistingAfter(g, existing, k)
    ensures Reconcile(g, ExistingAfter(g, existing, k)).fetched == Tier(g, |g|)
    ensures Reconcile(g, ExistingAfter(g, existing, k)).rendered == Tier(g, |g|)
  {
    var now := ExistingAfter(g, existing, k);
    DepthFull(|g|, k);
    ExistingFromEmpty(g, {}, k);
    ExistingMonotone(g, {}, existing, k);
    ReconcileFromTier(g, |g|);
    PassesFromTier(g, |g|, |g|);
    PassesMonotone(g, Phase({}, {}, Tier(g, |g|)), Phase({}, {}, now), |g|);
    PassesBounded(g, now, |g|);
  }

  // ----- The bound is exact for a chain

  /** Each template reads from the one before it. */
  ghost predicate Chain(g: Graph, names: seq<string>) {
    && (forall i, j :: 0 <= i < j < |names| ==> names[i] != names[j])
    && (forall t :: t in g <==> t in names)
    && (names != [] ==> g[names[0]] == {})
    && (forall i :: 0 < i < |names| ==> g[names[i]] == {names[i - 1]})
  }

  lemma {:induction false} ChainTier(g: Graph, names: seq<string>, n: nat, i: nat)
    requires Chain(g, names) && i < |names|
    ensures names[i] in Tier(g, n) <==> i < n
  {
    if n > 0 && i == 0 {
      ReadyFirst(g, names[0], Tier(g, n - 1));
    } else if n > 0 {
      ChainTier(g, names, n - 1, i - 1);
      ReadyNext(g, names[i], names[i - 1], Tier(g, n - 1));
    }
  }

  lemma ReadyFirst(g: Graph, t: string, fetched: set<string>)
    requires t in g && g[t] == {}
    ensures t in Ready(g, fetched)
  {}

  lemma ReadyNext(g: Graph, t: string, d: string, fetched: set<string>)
    requires t in g && g[t] == {d}
    ensures t in Ready(g, fetched) <==> d in fetched
  {}

  lemma {:induction false} ChainSize(g: Graph, names: seq<string>)
    requires Chain(g, names)
    ensures |g| == |names|
  {
    DistinctSize(names);
    assert g.Keys == set t | t in names;
  }

  lemma {:induction false} DistinctSize(names: seq<string>)
    requires forall i, j :: 0 <= i < j < |names| ==> names[i] != names[j]
    ensures |set t | t in names| == |names|
  {
    if names == [] {
    } else {
      DistinctSize(names[1..]);
      assert (set t | t in names) == {names[0]} + set t | t in names[1..];
    }
  }

  /** Of a chain, only all `N` tiers together make up all templates. */
  lemma ChainFull(g: Graph, names: seq<string>, n: nat)
    requires Chain(g, names) && names != []
    ensures Tier(g, n) == g.Keys <==> n >= |names|
  {
    var last := names[|names| - 1];
    ChainTier(g, names, n, |names| - 1);
    assert last in g;
    if n >= |names| {
      forall t | t in g ensures t in Tier(g, n) {
        var i :| 0 <= i < |names| && names[i] == t;
        ChainTier(g, names, n, i);
      }
      assert Tier(g, n) <= g.Keys;
    }
  }

  lemma HalfGap(n: nat, d: nat)
    requires d <= n
    ensures d + (n - d) / 2 >= n <==> d == n
  {}

  /** A chain of `N` templates on an empty cluster needs `Log2(N) + 1` reconciles, and no fewer. */
  lemma ChainNeedsLogReconciles(g: Graph, names: seq<string>, existing: set<string>, k: nat)
    requires Chain(g, names) && names != []
    requires existing == {}
    ensures ExistingAfter(g, existing, k) == g.Keys <==> k > Log2(|names|)
  {
    ChainSize(g, names);
    ExistingFromEmpty(g, existing, k);
    DepthFull(|g|, k);
    ChainFull(g, names, Depth(|g|, k));
  }

  /** The reconcile that creates the last link of a chain never fetches it. */
  lemma ChainFetchesOneLater(g: Graph, names: seq<string>, existing: set<string>, k: nat)
    requires Chain(g, names) && names != []
    requires existing == {}
    ensures Reconcile(g, ExistingAfter(g, existing, k)).fetched == g.Keys <==> k > Log2(|names|)
  {
    ChainSize(g, names);
    ExistingFromEmpty(g, existing, k);
    DepthFull(|g|, k);
    ChainHalfway(g, names, Depth(|g|, k));
  }

  lemma ChainHalfway(g: Graph, names: seq<string>, d: nat)
    requires Chain(g, names) && names != [] && d <= |g|
    ensures Reconcile(g, Tier(g, d)).fetched == g.Keys <==> d == |g|
  {
    ChainSize(g, names);
    ChainFull(g, names, d + (|g| - d) / 2);
    FetchedAt(g, d);
  }

  lemma FetchedAt(g: Graph, d: nat)
    requires d <= |g| && (Tier(g, d + (|g| - d) / 2) == g.Keys <==> d + (|g| - d) / 2 >= |g|)
    ensures Reconcile(g, Tier(g, d)).fetched == g.Keys <==> d == |g|
  {
    ReconcileFromTier(g, d);
    HalfGap(|g|, d);
  }
}
