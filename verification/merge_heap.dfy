/**
 The merge as the controller runs it: documents are trees of mutable maps, `MergeInPlace`
 writes into the maps of its first argument and links subtrees of its second argument into
 them. A `Shape` names the map objects of such a tree, so that what is written, what is
 shared and what the tree means can be stated.
 */
module MergeHeap {
  import opened Json

  class MapNode {
    var entries: map<string, Value>

    constructor ()
      ensures entries == map[]
    {
      entries := map[];
    }
  }

  datatype Value = Atom(atom: string) | Object(node: MapNode)

  datatype Shape = AtomShape(atom: string) | NodeShape(node: MapNode, kids: map<string, Shape>)

  /** The map objects a tree consists of. */
  ghost function Nodes(s: Shape): set<MapNode> {
    match s
    case AtomShape(_) => {}
    case NodeShape(n, kids) => {n} + set k, m | k in kids && m in Nodes(kids[k]) :: m
  }

  /** What refers to the tree `s`. */
  ghost function Root(s: Shape): Value {
    match s
    case AtomShape(a) => Atom(a)
    case NodeShape(n, _) => Object(n)
  }

  ghost function Roots(kids: map<string, Shape>): map<string, Value> {
    map k | k in kids :: Root(kids[k])
  }

  /** The heap holds the tree `s`. */
  ghost predicate Holds(s: Shape)
    reads Nodes(s)
    decreases s
  {
    s.NodeShape? ==>
      && s.node.entries == Roots(s.kids)
      && forall k :: k in s.kids ==> assert Nodes(s.kids[k]) <= Nodes(s); Holds(s.kids[k])
  }

  /** No map object occurs twice in the tree. */
  ghost predicate TreeShaped(s: Shape) {
    match s
    case AtomShape(_) => true
    case NodeShape(n, kids) =>
      && (forall k :: k in kids ==> TreeShaped(kids[k]) && n !in Nodes(kids[k]))
      && forall k, l :: k in kids && l in kids && k != l ==> Nodes(kids[k]) !! Nodes(kids[l])
  }

  /** The document that a tree represents. */
  ghost function Abs(s: Shape): Json {
    match s
    case AtomShape(a) => Leaf(a)
    case NodeShape(_, kids) => Map(map k | k in kids :: Abs(kids[k]))
  }

  /** The tree that merging `b` into `a` leaves behind: nodes of `a`, and subtrees of `b` linked in. */
  ghost function MergeShape(a: Shape, b: Shape): Shape
    decreases a
  {
    match a
    case AtomShape(_) => b
    case NodeShape(n, x) =>
      match b
      case AtomShape(_) => a
      case NodeShape(_, y) =>
        NodeShape(n, map k | k in x.Keys + y.Keys ::
                       if k !in y then x[k] else if k in x then MergeShape(x[k], y[k]) else y[k])
  }

  /** The map objects that a tree has below key `k`. */
  ghost function Below(s: Shape, k: string): set<MapNode> {
    if s.NodeShape? && k in s.kids then Nodes(s.kids[k]) else {}
  }

  lemma {:induction false} MergeShapeNodes(a: Shape, b: Shape)
    ensures Nodes(MergeShape(a, b)) <= Nodes(a) + Nodes(b)
    decreases a
  {
    if a.NodeShape? && b.NodeShape? {
      var r := MergeShape(a, b);
      forall k | k in r.kids ensures Nodes(r.kids[k]) <= Nodes(a) + Nodes(b) {
        if k in a.kids && k in b.kids {
          MergeShapeNodes(a.kids[k], b.kids[k]);
        }
        assert k in a.kids ==> Nodes(a.kids[k]) <= Nodes(a);
        assert k in b.kids ==> Nodes(b.kids[k]) <= Nodes(b);
      }
    }
  }

  /** Where the map objects below key `k` of a merged node come from. */
  lemma MergedKidNodes(a: Shape, b: Shape, k: string)
    requires a.NodeShape? && b.NodeShape? && k in a.kids.Keys + b.kids.Keys
    ensures Nodes(MergeShape(a, b).kids[k]) <= Below(a, k) + Below(b, k)
  {
    if k in a.kids && k in b.kids {
      MergeShapeNodes(a.kids[k], b.kids[k]);
    }
  }

  /** The merge of two disjoint trees is a tree. */
  lemma {:induction false} MergeShapeTree(a: Shape, b: Shape)
    requires TreeShaped(a) && TreeShaped(b) && Nodes(a) !! Nodes(b)
    ensures TreeShaped(MergeShape(a, b))
    decreases a
  {
    if a.NodeShape? && b.NodeShape? {
      var r := MergeShape(a, b);
      forall k | k in r.kids ensures TreeShaped(r.kids[k]) && a.node !in Nodes(r.kids[k]) {
        MergedKidNodes(a, b, k);
        assert k in a.kids ==> Nodes(a.kids[k]) <= Nodes(a);
        assert k in b.kids ==> Nodes(b.kids[k]) <= Nodes(b);
        if k in a.kids && k in b.kids {
          MergeShapeTree(a.kids[k], b.kids[k]);
        }
      }
      forall k, l | k in r.kids && l in r.kids && k != l ensures Nodes(r.kids[k]) !! Nodes(r.kids[l]) {
        MergedKidNodes(a, b, k);
        MergedKidNodes(a, b, l);
        forall j | j in {k, l}
          ensures (j in a.kids ==> Nodes(a.kids[j]) <= Nodes(a)) && (j in b.kids ==> Nodes(b.kids[j]) <= Nodes(b))
        {}
      }
    }
  }

  /** The tree left behind represents the merge of the documents. */
  lemma {:induction false} MergeShapeAbs(a: Shape, b: Shape)
    ensures Abs(MergeShape(a, b)) == Merge(Abs(a), Abs(b))
    decreases a
  {
    if a.NodeShape? && b.NodeShape? {
      var r := MergeShape(a, b);
      forall k | k in a.kids && k in b.kids ensures Abs(r.kids[k]) == Merge(Abs(a.kids[k]), Abs(b.kids[k])) {
        MergeShapeAbs(a.kids[k], b.kids[k]);
      }
      assert Abs(r).entries == Merge(Abs(a), Abs(b)).entries;
    }
  }

  /** The tree after the keys `done` of `b` have been merged into `a`. */
  ghost function PartialShape(a: Shape, b: Shape, done: set<string>): Shape
    requires a.NodeShape? && b.NodeShape? && done <= b.kids.Keys
  {
    NodeShape(a.node, map k | k in a.kids.Keys + done ::
                        if k !in done then a.kids[k] else MergeShape(a, b).kids[k])
  }

  lemma PartialShapeKid(a: Shape, b: Shape, done: set<string>, l: string)
    requires a.NodeShape? && b.NodeShape? && done <= b.kids.Keys
    requires TreeShaped(a) && TreeShaped(b) && Nodes(a) !! Nodes(b)
    requires l in PartialShape(a, b, done).kids
    ensures TreeShaped(PartialShape(a, b, done).kids[l])
    ensures Nodes(PartialShape(a, b, done).kids[l]) <= Below(a, l) + (if l in done then Below(b, l) else {})
  {
    MergeShapeTree(a, b);
    MergedKidNodes(a, b, l);
  }

  /** The next key finds a tree that shares nothing with what is still to be merged into it. */
  lemma PartialTree(a: Shape, b: Shape, done: set<string>, k: string)
    requires TreeShaped(a) && TreeShaped(b) && Nodes(a) !! Nodes(b)
    requires a.NodeShape? && b.NodeShape? && done <= b.kids.Keys && k in b.kids && k !in done
    ensures TreeShaped(PartialShape(a, b, done))
    ensures Nodes(PartialShape(a, b, done)) !! Nodes(b.kids[k])
  {
    var r := PartialShape(a, b, done);
    forall l ensures Below(a, l) <= Nodes(a) && Below(b, l) <= Nodes(b) {}
    forall l, m | l in r.kids && m in r.kids && l != m ensures Nodes(r.kids[l]) !! Nodes(r.kids[m]) {
      PartialShapeKid(a, b, done, l);
      PartialShapeKid(a, b, done, m);
      assert Below(a, l) !! Below(a, m) && Below(b, l) !! Below(b, m);
    }
    forall l | l in r.kids
      ensures TreeShaped(r.kids[l]) && a.node !in Nodes(r.kids[l]) && Nodes(r.kids[l]) !! Nodes(b.kids[k])
    {
      PartialShapeKid(a, b, done, l);
      assert Below(a, l) !! Below(b, k) && (l != k ==> Below(b, l) !! Below(b, k));
    }
  }

  lemma PartialStep(a: Shape, b: Shape, done: set<string>, k: string)
    requires a.NodeShape? && b.NodeShape? && done <= b.kids.Keys && k in b.kids && k !in done
    ensures var s := PartialShape(a, b, done);
            && Below(s, k) == Below(a, k)
            && PartialShape(a, b, done + {k})
            == s.(kids := s.kids[k := if k in s.kids then MergeShape(s.kids[k], b.kids[k]) else b.kids[k]])
  {}

  /**
   `merge(a, b)` on the heap. For trees with disjoint footprints it writes map objects of `a`
   only, and leaves a tree over the two footprints that represents `Merge`.
   */
  method MergeInPlace(a: Value, b: Value, ghost sa: Shape, ghost sb: Shape) returns (r: Value)
    requires a == Root(sa) && b == Root(sb) && Holds(sa) && Holds(sb)
    requires TreeShaped(sa) && TreeShaped(sb) && Nodes(sa) !! Nodes(sb)
    modifies Nodes(sa)
    ensures r == Root(MergeShape(sa, sb)) && Holds(MergeShape(sa, sb))
    decreases Nodes(sa), 1
  {
    match a
    case Atom(_) =>
      return b;
    case Object(x) =>
      match b
      case Atom(_) =>
        return a;
      case Object(y) =>
        MergeEntries(x, y, sa, sb);
        return a;
  }

  /** A tree none of whose map objects were written is still held. */
  twostate lemma Undisturbed(s: Shape)
    requires old(Holds(s))
    requires Untouched(Nodes(s))
    ensures Holds(s)
    decreases s
  {
    if s.NodeShape? {
      forall k | k in s.kids ensures Holds(s.kids[k]) {
        assert Nodes(s.kids[k]) <= Nodes(s);
        Undisturbed(s.kids[k]);
      }
    }
  }

  /** The loop over the entries of `y`, in any order. */
  method MergeEntries(x: MapNode, y: MapNode, ghost sa: Shape, ghost sb: Shape)
    requires sa.NodeShape? && sb.NodeShape? && x == sa.node && y == sb.node
    requires Holds(sa) && Holds(sb)
    requires TreeShaped(sa) && TreeShaped(sb) && Nodes(sa) !! Nodes(sb)
    modifies Nodes(sa)
    ensures Holds(MergeShape(sa, sb))
    decreases Nodes(sa), 0
  {
    var todo := y.entries.Keys;
    assert PartialShape(sa, sb, {}).kids == sa.kids;
    ghost var done := {};
    while todo != {}
      invariant done !! todo && done + todo == sb.kids.Keys
      invariant Holds(sb)
      invariant Holds(PartialShape(sa, sb, done))
      decreases todo
    {
      var k :| k in todo;
      ghost var s := PartialShape(sa, sb, done);
      StepFacts(sa, sb, done, k);
      label Before:
      assert allocated(Nodes(sb));
      MergeEntry(x, k, y.entries[k], s, sb.kids[k]);
      Undisturbed@Before(sb);
      todo, done := todo - {k}, done + {k};
    }
    assert done == sb.kids.Keys;
    assert PartialShape(sa, sb, done).kids == MergeShape(sa, sb).kids;
  }

  /** One iteration: the value `vy` goes into `x` under key `k`. */
  method MergeEntry(x: MapNode, k: string, vy: Value, ghost s: Shape, ghost t: Shape)
    requires s.NodeShape? && s.node == x && Holds(s) && TreeShaped(s)
    requires vy == Root(t) && Holds(t) && TreeShaped(t) && Nodes(s) !! Nodes(t)
    modifies {x} + Below(s, k)
    ensures Holds(s.(kids := s.kids[k := MergedKid(s, k, t)]))
    decreases Below(s, k), 3
  {
    EntryFacts(s, k, t);
    var v := MergedValue(x, k, vy, s, t);
    ghost var kid := MergedKid(s, k, t);
    label Merged:
    assert allocated(Nodes(kid));
    x.entries := x.entries[k := v];
    Undisturbed@Merged(kid);
    forall l | l in s.kids && l != k ensures Untouched(Nodes(s.kids[l])) {
      assert old(allocated(Nodes(s.kids[l])));
    }
    EntryWritten(s, k, kid);
  }

  /** What goes under key `k`: the value of `b`, merged with that of `x` if there is one. */
  method MergedValue(x: MapNode, k: string, vy: Value, ghost s: Shape, ghost t: Shape) returns (v: Value)
    requires s.NodeShape? && s.node == x && Holds(s) && TreeShaped(s)
    requires vy == Root(t) && Holds(t) && TreeShaped(t) && Below(s, k) !! Nodes(t)
    modifies Below(s, k)
    ensures v == Root(MergedKid(s, k, t)) && Holds(MergedKid(s, k, t))
    decreases Below(s, k), 2
  {
    v := vy;
    if k in x.entries {
      v := MergeInPlace(x.entries[k], vy, s.kids[k], t);
    }
  }

  /** After a write under key `k` that touched nothing below the other keys. */
  twostate lemma EntryWritten(s: Shape, new k: string, new kid: Shape)
    requires s.NodeShape? && old(Holds(s)) && Holds(kid)
    requires s.node.entries == old(s.node.entries)[k := Root(kid)]
    requires forall l :: l in s.kids && l != k ==> Untouched(Nodes(s.kids[l]))
    ensures Holds(s.(kids := s.kids[k := kid]))
  {
    forall l | l in s.kids && l != k ensures Holds(s.kids[l]) {
      Undisturbed(s.kids[l]);
    }
    assert s.node.entries == Roots(s.kids[k := kid]);
  }

  twostate predicate Untouched(nodes: set<MapNode>)
    reads nodes
  {
    forall n :: n in nodes ==> n.entries == old(n.entries)
  }

  lemma StepFacts(sa: Shape, sb: Shape, done: set<string>, k: string)
    requires TreeShaped(sa) && TreeShaped(sb) && Nodes(sa) !! Nodes(sb)
    requires sa.NodeShape? && sb.NodeShape? && done <= sb.kids.Keys && k in sb.kids && k !in done
    ensures var s := PartialShape(sa, sb, done);
            && TreeShaped(s) && TreeShaped(sb.kids[k]) && Nodes(s) !! Nodes(sb.kids[k])
            && Below(s, k) < Nodes(sa) && s.node in Nodes(sa)
            && PartialShape(sa, sb, done + {k}) == s.(kids := s.kids[k := MergedKid(s, k, sb.kids[k])])
  {
    PartialTree(sa, sb, done, k);
    PartialStep(sa, sb, done, k);
    EntryFacts(sa, k, AtomShape(""));
  }

  ghost function MergedKid(s: Shape, k: string, t: Shape): Shape
    requires s.NodeShape?
  {
    if k in s.kids then MergeShape(s.kids[k], t) else t
  }

  lemma EntryFacts(s: Shape, k: string, t: Shape)
    requires s.NodeShape? && TreeShaped(s) && Nodes(s) !! Nodes(t)
    ensures Below(s, k) < Nodes(s) && s.node !in Below(s, k)
    ensures s.node !in Nodes(MergedKid(s, k, t))
    ensures Below(s, k) !! Nodes(t)
    ensures forall l :: l in s.kids && l != k ==> s.node !in Nodes(s.kids[l]) && Nodes(s.kids[l]) !! Below(s, k)
  {
    if k in s.kids {
      MergeShapeNodes(s.kids[k], t);
    }
    assert s.node in Nodes(s);
  }

  /** Decoding a document always builds new map objects. */
  method Decode(doc: Document) returns (v: Value, ghost s: Shape)
    ensures v == Root(s) && Holds(s) && TreeShaped(s) && s.NodeShape?
    ensures Abs(s) == Map(doc)
    ensures fresh(Nodes(s))
    decreases Map(doc), 0
  {
    var n := new MapNode();
    ghost var kids: map<string, Shape> := map[];
    var todo := doc.Keys;
    while todo != {}
      invariant todo <= doc.Keys && kids.Keys == doc.Keys - todo
      invariant fresh(Nodes(NodeShape(n, kids)))
      invariant Holds(NodeShape(n, kids)) && TreeShaped(NodeShape(n, kids))
      invariant forall k :: k in kids ==> Abs(kids[k]) == doc[k]
      decreases todo
    {
      var k :| k in todo;
      ghost var t := DecodeEntry(n, k, doc[k], kids);
      todo, kids := todo - {k}, kids[k := t];
    }
    v, s := Object(n), NodeShape(n, kids);
    assert Abs(s).entries == doc;
  }

  method DecodeEntry(n: MapNode, k: string, j: Json, ghost kids: map<string, Shape>) returns (ghost t: Shape)
    requires Holds(NodeShape(n, kids)) && TreeShaped(NodeShape(n, kids)) && k !in kids
    modifies n
    ensures Abs(t) == j && fresh(Nodes(t))
    ensures Holds(NodeShape(n, kids[k := t])) && TreeShaped(NodeShape(n, kids[k := t]))
    ensures Nodes(NodeShape(n, kids[k := t])) == Nodes(NodeShape(n, kids)) + Nodes(t)
    decreases j, 1
  {
    var w: Value;
    ghost var sofar := NodeShape(n, kids);
    assert old(allocated(Nodes(sofar)));
    match j {
      case Leaf(a) => w, t := Atom(a), AtomShape(a);
      case Map(inner) => w, t := Decode(inner);
    }
    Undisturbed(sofar);
    AddEntry(n, k, w, kids, t);
  }

  method AddEntry(n: MapNode, k: string, w: Value, ghost kids: map<string, Shape>, ghost t: Shape)
    requires Holds(NodeShape(n, kids)) && TreeShaped(NodeShape(n, kids)) && k !in kids
    requires w == Root(t) && Holds(t) && TreeShaped(t) && Nodes(t) !! Nodes(NodeShape(n, kids))
    modifies n
    ensures Holds(NodeShape(n, kids[k := t])) && TreeShaped(NodeShape(n, kids[k := t]))
    ensures Nodes(NodeShape(n, kids[k := t])) == Nodes(NodeShape(n, kids)) + Nodes(t)
  {
    AddFacts(n, kids, k, t);
    label Before:
    assert allocated(Nodes(t));
    n.entries := n.entries[k := w];
    Undisturbed@Before(t);
    forall l | l in kids ensures Holds(kids[l]) {
      assert old(allocated(Nodes(kids[l])));
      Undisturbed@Before(kids[l]);
    }
    assert n.entries == Roots(kids[k := t]);
  }

  lemma AddFacts(n: MapNode, kids: map<string, Shape>, k: string, t: Shape)
    requires TreeShaped(NodeShape(n, kids)) && k !in kids
    requires TreeShaped(t) && Nodes(t) !! Nodes(NodeShape(n, kids))
    ensures TreeShaped(NodeShape(n, kids[k := t]))
    ensures n !in Nodes(t) && forall l :: l in kids ==> n !in Nodes(kids[l])
    ensures Nodes(NodeShape(n, kids[k := t])) == Nodes(NodeShape(n, kids)) + Nodes(t)
  {
    var r := kids[k := t];
    forall l | l in kids ensures Nodes(kids[l]) <= Nodes(NodeShape(n, kids)) && r[l] == kids[l] {}
    assert Nodes(r[k]) <= Nodes(NodeShape(n, r));
    forall l | l in kids ensures Nodes(r[l]) <= Nodes(NodeShape(n, r)) {}
  }
}
