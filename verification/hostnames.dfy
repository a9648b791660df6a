/**
 The hostname lists that templates use. A wildcard here covers its bare apex as well as every
 name below it, as the controller has it; the Hostname type of the Gateway API is narrower.
 */
module Hostnames {
  import opened Common

  const WILDCARD := "*."

  predicate HasPrefix(s: string, p: string) {
    |p| <= |s| && s[..|p|] == p
  }

  predicate HasSuffix(s: string, p: string) {
    |p| <= |s| && s[|s| - |p|..] == p
  }

  /** The wildcard of `domain` makes `hostname` superfluous. */
  predicate Covers(domain: string, hostname: string) {
    HasSuffix(hostname, "." + domain) || hostname == domain
  }

  predicate IsWildcard(hostname: string) {
    HasPrefix(hostname, WILDCARD)
  }

  function Domain(hostname: string): string
    requires IsWildcard(hostname)
  {
    hostname[|WILDCARD|..]
  }

  /** `name` is served under the list entry `hostname`. */
  predicate Serves(hostname: string, name: string) {
    if IsWildcard(hostname) then Covers(Domain(hostname), name) else name == hostname
  }

  datatype Listener = Listener(hostname: Option<string>)

  /** All hostnames of listeners and routes, in the order they are looked at. */
  function Inputs(listeners: seq<Listener>, routes: seq<seq<string>>): seq<string> {
    ListenerHostnames(listeners) + Flatten(routes)
  }

  function ListenerHostnames(listeners: seq<Listener>): seq<string> {
    if listeners == [] then []
    else (if listeners[0].hostname.Some? then [listeners[0].hostname.value] else []) + ListenerHostnames(listeners[1..])
  }

  function Members(s: seq<string>): set<string> {
    set h | h in s
  }

  ghost predicate NoDuplicates(s: seq<string>) {
    forall i, j :: 0 <= i < j < |s| ==> s[i] != s[j]
  }

  /** The domains and the plain names among the hostnames in `inputs`. */
  ghost predicate Sorted(inputs: set<string>, wildcards: set<string>, hostnames: set<string>) {
    && (forall d :: d in wildcards <==> WILDCARD + d in inputs)
    && (forall h :: h in hostnames <==> h in inputs && !IsWildcard(h))
  }

  lemma WildcardParts(h: string)
    ensures IsWildcard(WILDCARD + h) && Domain(WILDCARD + h) == h
    ensures IsWildcard(h) ==> WILDCARD + Domain(h) == h
  {}

  /** `addHostname`: a hostname goes into one of two sets. */
  method AddHostname(hostname: string, wildcards: set<string>, hostnames: set<string>, ghost inputs: set<string>)
    returns (wildcards': set<string>, hostnames': set<string>)
    requires Sorted(inputs, wildcards, hostnames)
    ensures Sorted(inputs + {hostname}, wildcards', hostnames')
  {
    wildcards', hostnames' := wildcards, hostnames;
    WildcardParts(hostname);
    if IsWildcard(hostname) {
      wildcards' := wildcards + {Domain(hostname)};
    } else {
      hostnames' := hostnames + {hostname};
    }
    forall d ensures d in wildcards' <==> WILDCARD + d in inputs + {hostname} {
      WildcardParts(d);
    }
  }

  /** What the two result lists have to be, up to their order. */
  ghost predicate Combined(inputs: set<string>, union: seq<string>, isect: seq<string>) {
    && NoDuplicates(union) && NoDuplicates(isect)
    && (forall h :: h in union <==> h in inputs)
    && (forall h :: h in isect <==> h in inputs && !Superfluous(inputs, h))
  }

  /** A plain name that some wildcard among the inputs covers. */
  ghost predicate Superfluous(inputs: set<string>, h: string) {
    !IsWildcard(h) && exists w :: w in inputs && IsWildcard(w) && Covers(Domain(w), h)
  }

  /** `combineHostnames`, whatever order the two sets are walked in. */
  method CombineHostnames(listeners: seq<Listener>, routes: seq<seq<string>>)
    returns (union: seq<string>, isect: seq<string>)
    ensures Combined(Members(Inputs(listeners, routes)), union, isect)
  {
    var wildcards, hostnames := Collect(listeners, routes);
    ghost var inputs := Members(Inputs(listeners, routes));
    union, isect := [], [];
    ghost var done: set<string> := {};
    var todo := wildcards;
    while todo != {}
      invariant todo <= wildcards && union == isect && NoDuplicates(union)
      invariant forall h :: h in union <==> IsWildcard(h) && Domain(h) in wildcards - todo
      decreases todo
    {
      var d :| d in todo;
      WildcardParts(d);
      assert WILDCARD + d !in union;
      union, isect, todo := union + [WILDCARD + d], isect + [WILDCARD + d], todo - {d};
      forall h ensures h in union <==> IsWildcard(h) && Domain(h) in wildcards - todo {
        WildcardParts(h);
      }
    }
    ghost var wild := union;
    todo := hostnames;
    while todo != {}
      invariant todo <= hostnames && NoDuplicates(union) && NoDuplicates(isect)
      invariant forall h :: h in union <==> h in wild || h in hostnames - todo
      invariant forall h :: h in isect <==> h in wild || (h in hostnames - todo && !CoveredBy(h, wildcards))
      decreases todo
    {
      var h :| h in todo;
      assert h !in union && h !in isect;
      union, todo := union + [h], todo - {h};
      var covered := IsCovered(h, wildcards);
      if !covered {
        isect := isect + [h];
      }
    }
    CombinedFromSets(inputs, wildcards, hostnames, union, isect);
  }

  ghost predicate CoveredBy(h: string, wildcards: set<string>) {
    exists d :: d in wildcards && Covers(d, h)
  }

  /** The inner loop: look for a wildcard that covers `h`. */
  method IsCovered(h: string, wildcards: set<string>) returns (covered: bool)
    ensures covered <==> CoveredBy(h, wildcards)
  {
    var todo := wildcards;
    while todo != {}
      invariant todo <= wildcards && forall d :: d in wildcards - todo ==> !Covers(d, h)
      decreases todo
    {
      var d :| d in todo;
      if Covers(d, h) {
        return true;
      }
      todo := todo - {d};
    }
    return false;
  }

  lemma CombinedFromSets(inputs: set<string>, wildcards: set<string>, hostnames: set<string>,
                         union: seq<string>, isect: seq<string>)
    requires Sorted(inputs, wildcards, hostnames) && NoDuplicates(union) && NoDuplicates(isect)
    requires forall h :: h in union <==> (IsWildcard(h) && Domain(h) in wildcards) || h in hostnames
    requires forall h :: h in isect <==>
               (IsWildcard(h) && Domain(h) in wildcards) || (h in hostnames && !CoveredBy(h, wildcards))
    ensures Combined(inputs, union, isect)
  {
    forall h ensures IsWildcard(h) ==> (Domain(h) in wildcards <==> h in inputs) {
      WildcardParts(h);
    }
    forall h | h in hostnames ensures CoveredBy(h, wildcards) <==> Superfluous(inputs, h) {
      CoveredIffSuperfluous(inputs, wildcards, hostnames, h);
    }
  }

  lemma CoveredIffSuperfluous(inputs: set<string>, wildcards: set<string>, hostnames: set<string>, h: string)
    requires Sorted(inputs, wildcards, hostnames) && !IsWildcard(h)
    ensures CoveredBy(h, wildcards) <==> Superfluous(inputs, h)
  {
    if CoveredBy(h, wildcards) {
      var d :| d in wildcards && Covers(d, h);
      WildcardParts(d);
      assert WILDCARD + d in inputs;
    }
    if Superfluous(inputs, h) {
      var w :| w in inputs && IsWildcard(w) && Covers(Domain(w), h);
      WildcardParts(w);
      assert Domain(w) in wildcards;
    }
  }

  /** The loops over listeners and routes. */
  method Collect(listeners: seq<Listener>, routes: seq<seq<string>>)
    returns (wildcards: set<string>, hostnames: set<string>)
    ensures Sorted(Members(Inputs(listeners, routes)), wildcards, hostnames)
  {
    wildcards, hostnames := {}, {};
    ghost var inputs: set<string> := {};
    for i := 0 to |listeners|
      invariant Sorted(inputs, wildcards, hostnames)
      invariant forall h :: h in inputs <==> exists k :: 0 <= k < i && listeners[k].hostname == Some(h)
    {
      if listeners[i].hostname.Some? {
        wildcards, hostnames := AddHostname(listeners[i].hostname.value, wildcards, hostnames, inputs);
        inputs := inputs + {listeners[i].hostname.value};
      }
    }
    forall h ensures h in inputs <==> h in ListenerHostnames(listeners) {
      ListenerHostnamesMember(listeners, h);
    }
    wildcards, hostnames := CollectRoutes(routes, wildcards, hostnames, inputs);
    assert inputs + Members(Flatten(routes)) == Members(Inputs(listeners, routes));
  }

  method CollectRoutes(routes: seq<seq<string>>, wildcards: set<string>, hostnames: set<string>,
                       ghost inputs: set<string>)
    returns (wildcards': set<string>, hostnames': set<string>)
    requires Sorted(inputs, wildcards, hostnames)
    ensures Sorted(inputs + Members(Flatten(routes)), wildcards', hostnames')
  {
    wildcards', hostnames' := wildcards, hostnames;
    ghost var now := inputs;
    for i := 0 to |routes|
      invariant Sorted(now, wildcards', hostnames')
      invariant forall h :: h in now <==> h in inputs || exists k :: 0 <= k < i && h in routes[k]
    {
      wildcards', hostnames' := CollectRoute(routes[i], wildcards', hostnames', now);
      now := now + Members(routes[i]);
    }
    assert now == inputs + Members(Flatten(routes));
  }

  method CollectRoute(names: seq<string>, wildcards: set<string>, hostnames: set<string>, ghost inputs: set<string>)
    returns (wildcards': set<string>, hostnames': set<string>)
    requires Sorted(inputs, wildcards, hostnames)
    ensures Sorted(inputs + Members(names), wildcards', hostnames')
  {
    wildcards', hostnames' := wildcards, hostnames;
    ghost var now := inputs;
    for j := 0 to |names|
      invariant Sorted(now, wildcards', hostnames') && now == inputs + Members(names[..j])
    {
      wildcards', hostnames' := AddHostname(names[j], wildcards', hostnames', now);
      now := now + {names[j]};
      assert names[..j + 1] == names[..j] + [names[j]];
    }
    assert names[..|names|] == names;
  }

  lemma {:induction false} ListenerHostnamesMember(listeners: seq<Listener>, h: string)
    ensures h in ListenerHostnames(listeners) <==> exists k :: 0 <= k < |listeners| && listeners[k].hostname == Some(h)
  {
    if listeners == [] {
    } else {
      ListenerHostnamesMember(listeners[1..], h);
      assert forall k :: 1 <= k < |listeners| ==> listeners[k] == listeners[1..][k - 1];
    }
  }

  /** The inputs are the hostnames of listeners that have one, and those of routes. */
  lemma InputsMember(listeners: seq<Listener>, routes: seq<seq<string>>, h: string)
    ensures h in Inputs(listeners, routes)
       <==> (exists k :: 0 <= k < |listeners| && listeners[k].hostname == Some(h))
            || exists k :: 0 <= k < |routes| && h in routes[k]
  {
    ListenerHostnamesMember(listeners, h);
  }

  // ----- What is left out, in terms of the names themselves

  /** The labels of a hostname, between its dots. */
  function Labels(h: string): (r: seq<string>)
    ensures |r| > 0
  {
    if h == "" then [""] else Fronted(h[0], Labels(h[1..]))
  }

  /** With one more character in front of the first label. */
  function Fronted(c: char, labels: seq<string>): seq<string>
    requires |labels| > 0
  {
    if c == '.' then [""] + labels else [[c] + labels[0]] + labels[1..]
  }

  lemma FrontedConcat(c: char, s: seq<string>, t: seq<string>)
    requires |s| > 0
    ensures Fronted(c, s + t) == Fronted(c, s) + t
  {
    assert (s + t)[1..] == s[1..] + t;
  }

  lemma {:induction false} LabelsConcat(h: string, p: string, d: string)
    requires h == p + "." + d
    ensures Labels(h) == Labels(p) + Labels(d)
    decreases p
  {
    if p == "" {
      assert h[0] == '.' && h[1..] == d;
    } else {
      assert h[0] == p[0] && h[1..] == p[1..] + "." + d;
      LabelsConcat(h[1..], p[1..], d);
      FrontedConcat(p[0], Labels(p[1..]), Labels(d));
    }
  }

  /** Putting the labels together again. */
  function Joined(labels: seq<string>): string
    requires |labels| > 0
  {
    if |labels| == 1 then labels[0] else labels[0] + "." + Joined(labels[1..])
  }

  lemma {:induction false} JoinedLabels(h: string)
    ensures Joined(Labels(h)) == h
  {
    if h == "" {
    } else {
      JoinedLabels(h[1..]);
      var rest := Labels(h[1..]);
      if h[0] == '.' {
        assert Labels(h)[1..] == rest;
        assert h == "." + h[1..];
      } else {
        assert Labels(h)[1..] == rest[1..];
        assert h == [h[0]] + h[1..];
      }
    }
  }

  lemma {:induction false} JoinedConcat(s: seq<string>, t: seq<string>)
    requires |s| > 0 && |t| > 0
    ensures Joined(s + t) == Joined(s) + "." + Joined(t)
  {
    if |s| == 1 {
      assert (s + t)[1..] == t;
    } else {
      assert (s + t)[1..] == s[1..] + t;
      JoinedConcat(s[1..], t);
      assert Joined(s + t) == s[0] + "." + (Joined(s[1..]) + "." + Joined(t));
    }
  }

  /** `h` ends with the labels of `d`: it is `d` or a name below it. */
  predicate EndsWithLabels(h: string, d: string) {
    |Labels(d)| <= |Labels(h)| && Labels(h)[|Labels(h)| - |Labels(d)|..] == Labels(d)
  }

  lemma LabelsOfDifferent(h: string, d: string)
    ensures Labels(h) == Labels(d) ==> h == d
  {
    JoinedLabels(h);
    JoinedLabels(d);
  }

  /** A wildcard covers exactly the names that end with the labels of its domain. */
  lemma CoversIff(d: string, h: string)
    ensures Covers(d, h) <==> EndsWithLabels(h, d)
    ensures Covers(d, h) <==> h == d || exists p :: h == p + "." + d
  {
    if HasSuffix(h, "." + d) {
      var p := h[..|h| - |"." + d|];
      assert h == p + ("." + d) == p + "." + d;
      LabelsConcat(h, p, d);
    }
    if p :| h == p + "." + d {
      assert h == p + ("." + d);
      LabelsConcat(h, p, d);
    }
    if EndsWithLabels(h, d) {
      BelowByLabels(h, d);
    }
  }

  lemma BelowByLabels(h: string, d: string)
    requires EndsWithLabels(h, d)
    ensures h == d || exists p :: h == p + "." + d
  {
    var n := |Labels(h)| - |Labels(d)|;
    if n == 0 {
      LabelsOfDifferent(h, d);
    } else {
      assert Labels(h) == Labels(h)[..n] + Labels(d);
      JoinedConcat(Labels(h)[..n], Labels(d));
      JoinedLabels(h);
      JoinedLabels(d);
    }
  }

  /**
   A plain name among the inputs is left out of the intersection exactly if its last labels are
   those of the domain of a wildcard among them.
   */
  lemma LeftOutIff(inputs: set<string>, union: seq<string>, isect: seq<string>, h: string)
    requires Combined(inputs, union, isect) && h in inputs && !("*." <= h)
    ensures h !in isect <==> exists d :: "*." + d in inputs && EndsWithLabels(h, d)
  {
    if w :| w in inputs && IsWildcard(w) && Covers(Domain(w), h) {
      WildcardParts(w);
      CoversIff(Domain(w), h);
      assert "*." + Domain(w) in inputs;
    }
    if d :| "*." + d in inputs && EndsWithLabels(h, d) {
      WildcardParts(d);
      CoversIff(d, h);
    }
  }

  /** A wildcard among the inputs always stays. */
  lemma WildcardsStay(inputs: set<string>, union: seq<string>, isect: seq<string>, h: string)
    requires Combined(inputs, union, isect) && "*." <= h
    ensures h in isect <==> h in inputs
  {}

  // ----- What the lists are good for

  /** Leaving out covered names changes nothing about which names are served. */
  lemma IntersectionServesTheSame(inputs: set<string>, union: seq<string>, isect: seq<string>, name: string)
    requires Combined(inputs, union, isect)
    ensures (exists h :: h in union && Serves(h, name)) <==> (exists h :: h in isect && Serves(h, name))
  {}

  /** What is left is needed: no plain name in the list is covered by a wildcard in it. */
  lemma IntersectionIsIrredundant(inputs: set<string>, union: seq<string>, isect: seq<string>, h: string, w: string)
    requires Combined(inputs, union, isect)
    requires h in isect && w in isect && h != w && !IsWildcard(h)
    ensures !Serves(w, h)
  {}

  /** Combining the intersection again returns it, as both lists, up to their order. */
  lemma CombineIsIdempotent(inputs: set<string>, union: seq<string>, isect: seq<string>,
                            union': seq<string>, isect': seq<string>)
    requires Combined(inputs, union, isect)
    requires Combined(Members(isect), union', isect')
    ensures multiset(isect') == multiset(isect) == multiset(union')
  {
    var again := Members(isect);
    forall h | h in isect ensures !Superfluous(again, h) {
      assert Superfluous(again, h) ==> Superfluous(inputs, h);
    }
    SameMultiset(isect', isect);
    SameMultiset(isect, union');
  }

  /** The outcome is determined up to order. */
  lemma CombinedUnique(inputs: set<string>, union: seq<string>, isect: seq<string>,
                       union': seq<string>, isect': seq<string>)
    requires Combined(inputs, union, isect) && Combined(inputs, union', isect')
    ensures multiset(union) == multiset(union') && multiset(isect) == multiset(isect')
  {
    SameMultiset(union, union');
    SameMultiset(isect, isect');
  }

  lemma SameMultiset(s: seq<string>, t: seq<string>)
    requires NoDuplicates(s) && NoDuplicates(t) && forall h :: h in s <==> h in t
    ensures multiset(s) == multiset(t)
  {
    forall h ensures multiset(s)[h] == multiset(t)[h] {
      OnceAtMost(s, h);
      OnceAtMost(t, h);
      assert h in multiset(s) <==> h in s;
      assert h in multiset(t) <==> h in t;
    }
  }

  lemma {:induction false} OnceAtMost(s: seq<string>, h: string)
    requires NoDuplicates(s)
    ensures multiset(s)[h] <= 1
  {
    if s == [] {
    } else {
      OnceAtMost(s[1..], h);
      assert s == [s[0]] + s[1..];
      assert s[0] !in s[1..];
      assert s[0] !in multiset(s[1..]);
    }
  }
}
