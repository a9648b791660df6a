/**
 The values that a gateway should have, given the policies that there are: what a lookup over
 any answers of the API returns. And which changes of a policy leave them as they are.
 */
module CurrentValues {
  import opened Common
  import opened Json
  import opened Policies
  import opened WatchIndex

  datatype PolicyKey = PolicyKey(isClassConfig: bool, namespace: string, name: string)

  function KeyOf(p: Policy): PolicyKey {
    PolicyKey(p.GatewayClassConfig?, p.namespace, p.name)
  }

  ghost predicate WellKeyed(ps: map<PolicyKey, Policy>) {
    forall k :: k in ps ==> KeyOf(ps[k]) == k && k.namespace != ""
  }

  /** What never changes: the controller namespace and the blueprints of the managed classes. */
  datatype Setup = Setup(controllerNamespace: string, blueprints: map<string, Blueprint>)

  // ----- The values a gateway should have now

  ghost function Chosen(ps: map<PolicyKey, Policy>, l: Level, g: Gateway, setup: Setup): set<Policy> {
    set k | k in ps && SelectedAt(ps[k], l, g, setup.controllerNamespace) :: ps[k]
  }

  ghost function Listing(ps: set<Policy>): (s: seq<Policy>)
    ensures forall p :: p in s <==> p in ps
    ensures forall i, j :: 0 <= i < j < |s| ==> s[i] != s[j]
  {
    if ps == {} then [] else
      var p :| p in ps;
      [p] + Listing(ps - {p})
  }

  ghost function GroupNow(ps: map<PolicyKey, Policy>, l: Level, g: Gateway, setup: Setup): seq<Policy> {
    Sort(Listing(Chosen(ps, l, g, setup)))
  }

  function Assemble(bp: Blueprint, groups: map<Level, seq<Policy>>): Result
    requires forall l: Level :: l in groups
  {
    var h := groups[GlobalClass] + groups[LocalNamespace] + groups[LocalClass]
             + (groups[ConfigNamespace] + groups[ConfigGateway]);
    Run(Map(map[]), Plan(bp, h, h))
  }

  ghost function ValuesNow(ps: map<PolicyKey, Policy>, g: Gateway, bp: Blueprint, setup: Setup): Result {
    Assemble(bp, map l: Level | true :: GroupNow(ps, l, g, setup))
  }

  /** `items` is an answer of the API to the list call for level `l`. */
  ghost predicate Answers(items: seq<Policy>, ps: map<PolicyKey, Policy>, l: Level, g: Gateway, setup: Setup) {
    && (forall i, j :: 0 <= i < j < |items| ==> items[i] != items[j])
    && forall p :: p in items <==> KeyOf(p) in ps && ps[KeyOf(p)] == p && Listed(p, l, g, setup.controllerNamespace)
  }

  /** Within one list, names tell objects apart. */
  lemma ListedDistinct(items: seq<Policy>, ps: map<PolicyKey, Policy>, l: Level, g: Gateway, setup: Setup)
    requires WellKeyed(ps) && setup.controllerNamespace != "" && g.namespace != ""
    requires forall i, j :: 0 <= i < j < |items| ==> items[i] != items[j]
    requires forall p :: p in items ==>
               KeyOf(p) in ps && ps[KeyOf(p)] == p && Listed(p, l, g, setup.controllerNamespace)
    ensures DistinctNames(items)
  {
    forall i, j | 0 <= i < j < |items| ensures SortName(items[i]) != SortName(items[j]) {
      var p, q := items[i], items[j];
      assert p in items && q in items && p != q;
      assert p.namespace == q.namespace && p.name != q.name;
      assert SortName(p)[|p.namespace| + 1..] == p.name && SortName(q)[|p.namespace| + 1..] == q.name;
    }
  }

  /** Whatever order the API lists objects in, the sorted group is the one that counts now. */
  lemma GroupFromList(items: seq<Policy>, ps: map<PolicyKey, Policy>, l: Level, g: Gateway, setup: Setup)
    requires WellKeyed(ps) && setup.controllerNamespace != "" && g.namespace != ""
    requires Answers(items, ps, l, g, setup)
    ensures Sort(Select(items, l, g)) == GroupNow(ps, l, g, setup)
  {
    var mine, canon := Select(items, l, g), Listing(Chosen(ps, l, g, setup));
    ListedDistinct(items, ps, l, g, setup);
    SelectDistinct(items, l, g);
    ListedDistinct(canon, ps, l, g, setup);
    SortAscending(mine);
    SortAscending(canon);
    forall p ensures p in Sort(mine) <==> p in Sort(canon) {
      assert p in Sort(mine) <==> p in multiset(Sort(mine));
      assert p in Sort(canon) <==> p in multiset(Sort(canon));
      assert p in mine <==> p in items && Matches(p, l, g);
      assert p in canon <==> p in Chosen(ps, l, g, setup);
    }
    AscendingUnique(Sort(mine), Sort(canon));
  }

  /** `ValuesNow` is what a lookup over any answers of the API returns. */
  lemma ValuesNowIsLookup(ps: map<PolicyKey, Policy>, g: Gateway, bp: Blueprint, setup: Setup, ls: Lists)
    requires WellKeyed(ps) && setup.controllerNamespace != "" && g.namespace != ""
    requires forall l: Level :: Answers(ListFor(ls, l), ps, l, g, setup)
    ensures LookupResult(bp, ls, g) == ValuesNow(ps, g, bp, setup)
  {
    forall l: Level ensures Group(ls, l, g) == GroupNow(ps, l, g, setup) {
      GroupFromList(ListFor(ls, l), ps, l, g, setup);
    }
    HierarchyIs(ls, g);
  }

  // ----- Changes of one policy

  predicate WakesAny(p: Option<Policy>, g: Gateway, setup: Setup) {
    p.Some? && Wakes(p.value, g, setup.controllerNamespace)
  }

  function Get<K, V>(m: map<K, V>, k: K): Option<V> {
    if k in m then Some(m[k]) else None
  }

  /** A policy that `g` does not select contributes to none of its levels. */
  lemma UnselectedNowhere(p: Policy, g: Gateway, setup: Setup)
    requires setup.controllerNamespace != "" && p.namespace != "" && g.namespace != ""
    requires !Wakes(p, g, setup.controllerNamespace)
    ensures forall l: Level :: !SelectedAt(p, l, g, setup.controllerNamespace)
  {}

  /** A change that wakes `g` neither before nor after leaves the values of `g` as they were. */
  lemma UnwokenValues(ps: map<PolicyKey, Policy>, ps': map<PolicyKey, Policy>, k: PolicyKey, g: Gateway, setup: Setup)
    requires setup.controllerNamespace != "" && g.namespace != "" && WellKeyed(ps) && WellKeyed(ps')
    requires ps - {k} == ps' - {k}
    requires !WakesAny(Get(ps, k), g, setup) && !WakesAny(Get(ps', k), g, setup)
    ensures forall l: Level :: GroupNow(ps, l, g, setup) == GroupNow(ps', l, g, setup)
    ensures forall bp :: ValuesNow(ps, g, bp, setup) == ValuesNow(ps', g, bp, setup)
  {
    if k in ps { UnselectedNowhere(ps[k], g, setup); }
    if k in ps' { UnselectedNowhere(ps'[k], g, setup); }
    forall l: Level ensures GroupNow(ps, l, g, setup) == GroupNow(ps', l, g, setup) {
      ChosenWithout(ps, l, g, setup, k);
      ChosenWithout(ps', l, g, setup, k);
    }
    assert (map l: Level | true :: GroupNow(ps, l, g, setup)) == (map l: Level | true :: GroupNow(ps', l, g, setup));
  }

  lemma ChosenWithout(ps: map<PolicyKey, Policy>, l: Level, g: Gateway, setup: Setup, k: PolicyKey)
    requires k in ps ==> !SelectedAt(ps[k], l, g, setup.controllerNamespace)
    ensures Chosen(ps, l, g, setup) == Chosen(ps - {k}, l, g, setup)
  {
    forall x | x in ps && x != k ensures x in ps - {k} && (ps - {k})[x] == ps[x] {}
  }

  lemma SameMaps<K, V>(m: map<K, V>, n: map<K, V>, k: K)
    requires m - {k} == n - {k} && Get(m, k) == Get(n, k)
    ensures m == n
  {
    forall x ensures x in m <==> x in n {
      assert x in m - {k} <==> x in n - {k};
    }
    forall x | x in m && x in n ensures m[x] == n[x] {
      if x != k {
        assert m[x] == (m - {k})[x] == (n - {k})[x] == n[x];
      }
    }
  }
}
