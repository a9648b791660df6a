/**
 The JSON documents that policies carry, the deep merge that combines them, and the
 meaning of that merge path by path. Arrays and null are never descended into by the
 merge, so they are leaves here, like strings, numbers and booleans.
 */
module Json {
  import opened Common

  /** `atom` is the text of anything that is not an object. */
  datatype Json = Leaf(atom: string) | Map(entries: map<string, Json>)

  type Document = map<string, Json>
  type Path = seq<string>

  /** `b` overwrites `a`, except that an object is never replaced by a leaf. */
  function Merge(a: Json, b: Json): Json
    decreases a
  {
    match a
    case Leaf(_) => b
    case Map(x) =>
      match b
      case Leaf(_) => a
      case Map(y) =>
        Map(map k | k in x.Keys + y.Keys ::
              if k !in y then x[k] else if k in x then Merge(x[k], y[k]) else y[k])
  }

  // ----- What a document holds at a path

  datatype Slot = Absent | Scalar(atom: string) | Branch

  function Look(j: Json, p: Path): Slot
    decreases p
  {
    if p == [] then
      match j { case Leaf(v) => Scalar(v) case Map(_) => Branch }
    else if j.Map? && p[0] in j.entries then Look(j.entries[p[0]], p[1..])
    else Absent
  }

  /** What remains visible at one path when `y` is laid over `x`. */
  function Over(x: Slot, y: Slot): Slot {
    if x.Branch? || y.Branch? then Branch else if y.Scalar? then y else x
  }

  /** Merging acts on every path separately. */
  lemma {:induction false} LookMerge(a: Json, b: Json, p: Path)
    ensures Look(Merge(a, b), p) == Over(Look(a, p), Look(b, p))
    decreases p
  {
    if p != [] && a.Map? && b.Map? && p[0] in a.entries && p[0] in b.entries {
      LookMerge(a.entries[p[0]], b.entries[p[0]], p[1..]);
    }
  }

  lemma LookBelow(j: Json, k: string, p: Path)
    requires j.Map?
    ensures Look(j, [k] + p) == if k in j.entries then Look(j.entries[k], p) else Absent
  {
    assert ([k] + p)[1..] == p;
  }

  lemma SameKeys(a: Json, b: Json, k: string)
    requires forall p :: Look(a, p) == Look(b, p)
    requires a.Map? && b.Map?
    ensures k in a.entries <==> k in b.entries
  {
    LookBelow(a, k, []);
    LookBelow(b, k, []);
    assert Look(a, [k] + []) == Look(b, [k] + []);
  }

  lemma SameBelow(a: Json, b: Json, k: string)
    requires forall p :: Look(a, p) == Look(b, p)
    requires a.Map? && b.Map? && k in a.entries && k in b.entries
    ensures forall p :: Look(a.entries[k], p) == Look(b.entries[k], p)
  {
    forall p ensures Look(a.entries[k], p) == Look(b.entries[k], p) {
      LookBelow(a, k, p);
      LookBelow(b, k, p);
      assert Look(a, [k] + p) == Look(b, [k] + p);
    }
  }

  /** Two documents that agree at every path are equal. */
  lemma {:induction false} Extensional(a: Json, b: Json)
    requires forall p :: Look(a, p) == Look(b, p)
    ensures a == b
    decreases a
  {
    assert Look(a, []) == Look(b, []);
    if a.Map? {
      forall k ensures k in a.entries <==> k in b.entries {
        SameKeys(a, b, k);
      }
      forall k | k in a.entries ensures a.entries[k] == b.entries[k] {
        SameBelow(a, b, k);
        Extensional(a.entries[k], b.entries[k]);
      }
      assert a.entries == b.entries;
    }
  }

  // ----- The algebra of merge

  lemma {:induction false} MergeAssociative(a: Json, b: Json, c: Json)
    ensures Merge(Merge(a, b), c) == Merge(a, Merge(b, c))
  {
    var l, r := Merge(Merge(a, b), c), Merge(a, Merge(b, c));
    forall p ensures Look(l, p) == Look(r, p) { AssociativeAt(a, b, c, p); }
    Extensional(l, r);
  }

  lemma {:induction false} AssociativeAt(a: Json, b: Json, c: Json, p: Path)
    ensures Look(Merge(Merge(a, b), c), p) == Look(Merge(a, Merge(b, c)), p)
  {
    LookMerge(Merge(a, b), c, p);
    LookMerge(a, b, p);
    LookMerge(a, Merge(b, c), p);
    LookMerge(b, c, p);
  }

  lemma {:induction false} MergeIdempotent(a: Json)
    ensures Merge(a, a) == a
  {
    forall p ensures Look(Merge(a, a), p) == Look(a, p) { LookMerge(a, a, p); }
    Extensional(Merge(a, a), a);
  }

  /** A source that is merged again later contributes nothing the first time. */
  lemma MergeAbsorbsEarlierCopy(a: Json, b: Json)
    ensures Merge(Merge(a, b), a) == Merge(b, a)
  {
    var l, r := Merge(Merge(a, b), a), Merge(b, a);
    forall p ensures Look(l, p) == Look(r, p) { AbsorbedAt(a, b, p); }
    Extensional(l, r);
  }

  lemma AbsorbedAt(a: Json, b: Json, p: Path)
    ensures Look(Merge(Merge(a, b), a), p) == Look(Merge(b, a), p)
  {
    LookMerge(Merge(a, b), a, p);
    LookMerge(a, b, p);
    LookMerge(b, a, p);
  }

  // ----- Folding a sequence of documents

  function Fold(base: Json, docs: seq<Json>): Json
    decreases |docs|
  {
    if docs == [] then base else Fold(Merge(base, docs[0]), docs[1..])
  }

  /** All the documents of `docs` laid over one another at path `p`. */
  function Layered(docs: seq<Json>, p: Path): Slot {
    if docs == [] then Absent else Over(Look(docs[0], p), Layered(docs[1..], p))
  }

  lemma {:induction false} LookFold(base: Json, docs: seq<Json>, p: Path)
    ensures Look(Fold(base, docs), p) == Over(Look(base, p), Layered(docs, p))
    decreases |docs|
  {
    if docs == [] {
    } else {
      LookFold(Merge(base, docs[0]), docs[1..], p);
      LookMerge(base, docs[0], p);
    }
  }

  lemma {:induction false} LayeredConcat(s: seq<Json>, t: seq<Json>, p: Path)
    ensures Layered(s + t, p) == Over(Layered(s, p), Layered(t, p))
  {
    if s == [] {
      assert s + t == t;
    } else {
      assert (s + t)[1..] == s[1..] + t;
      LayeredConcat(s[1..], t, p);
    }
  }

  /**
   The independent reading of a fold at a path: an object if some document has an object
   there, nothing if no document has anything, and otherwise the leaf of the last document
   that has one.
   */
  ghost predicate Reads(docs: seq<Json>, p: Path, s: Slot) {
    if exists d :: d in docs && Look(d, p).Branch? then s == Branch
    else if forall d :: d in docs ==> Look(d, p).Absent? then s == Absent
    else exists i :: 0 <= i < |docs| && IsLast(docs, p, i) && s == Look(docs[i], p)
  }

  ghost predicate IsLast(docs: seq<Json>, p: Path, i: nat)
    requires i < |docs|
  {
    Look(docs[i], p).Scalar? && forall j :: i < j < |docs| ==> Look(docs[j], p).Absent?
  }

  lemma {:induction false} LayeredBranch(docs: seq<Json>, p: Path)
    ensures Layered(docs, p).Branch? <==> exists d :: d in docs && Look(d, p).Branch?
  {
    if docs == [] {
    } else {
      LayeredBranch(docs[1..], p);
      assert forall d :: d in docs <==> d == docs[0] || d in docs[1..];
      assert docs[0] in docs;
    }
  }

  lemma {:induction false} LayeredAbsent(docs: seq<Json>, p: Path)
    ensures Layered(docs, p).Absent? <==> forall d :: d in docs ==> Look(d, p).Absent?
  {
    if docs == [] {
    } else {
      LayeredAbsent(docs[1..], p);
      assert forall d :: d in docs <==> d == docs[0] || d in docs[1..];
      assert docs[0] in docs;
    }
  }

  /** With no object at `p`, the last document that has `p` decides. */
  lemma {:induction false} LayeredLast(docs: seq<Json>, p: Path, i: nat)
    requires i < |docs| && IsLast(docs, p, i)
    requires forall d :: d in docs ==> !Look(d, p).Branch?
    ensures Layered(docs, p) == Look(docs[i], p)
  {
    var pre, post := docs[..i], docs[i + 1..];
    assert docs == (pre + [docs[i]]) + post;
    LayeredConcat(pre + [docs[i]], post, p);
    LayeredConcat(pre, [docs[i]], p);
    LayeredAbsent(post, p);
    LayeredBranch(docs, p);
    assert Layered([docs[i]], p) == Over(Look(docs[i], p), Layered([], p));
  }

  lemma {:induction false} LastExists(docs: seq<Json>, p: Path) returns (i: nat)
    requires exists d :: d in docs && !Look(d, p).Absent?
    requires forall d :: d in docs ==> !Look(d, p).Branch?
    ensures i < |docs| && IsLast(docs, p, i)
    decreases |docs|
  {
    i := |docs| - 1;
    if Look(docs[i], p).Absent? {
      assert docs == docs[..i] + [docs[i]];
      i := LastExists(docs[..i], p);
    }
  }

  /** The meaning of folding `docs` into the empty document. */
  lemma FoldReads(docs: seq<Json>, p: Path)
    requires p != []
    ensures Reads(docs, p, Look(Fold(Map(map[]), docs), p))
  {
    LookFold(Map(map[]), docs, p);
    LayeredBranch(docs, p);
    LayeredAbsent(docs, p);
    if (forall d :: d in docs ==> !Look(d, p).Branch?) && exists d :: d in docs && !Look(d, p).Absent? {
      var i := LastExists(docs, p);
      LayeredLast(docs, p, i);
    }
  }

  /** `Reads` pins the value down: it is a definition, not merely a bound. */
  lemma ReadsUnique(docs: seq<Json>, p: Path, s: Slot, t: Slot)
    requires Reads(docs, p, s) && Reads(docs, p, t)
    ensures s == t
  {}

  // ----- Repeated documents

  lemma {:induction false} AbsorbOne(d: Json, t: seq<Json>, p: Path)
    requires d in t
    ensures Over(Look(d, p), Layered(t, p)) == Layered(t, p)
  {
    if d == t[0] {
    } else {
      AbsorbOne(d, t[1..], p);
    }
  }

  /** `docs` with only the last occurrence of every document left. */
  function KeepLast(docs: seq<Json>): seq<Json> {
    if docs == [] then []
    else if docs[0] in docs[1..] then KeepLast(docs[1..])
    else [docs[0]] + KeepLast(docs[1..])
  }

  lemma {:induction false} LayeredKeepLast(docs: seq<Json>, p: Path)
    ensures Layered(KeepLast(docs), p) == Layered(docs, p)
  {
    if docs == [] {
    } else {
      LayeredKeepLast(docs[1..], p);
      if docs[0] in docs[1..] {
        AbsorbOne(docs[0], docs[1..], p);
      } else {
        assert KeepLast(docs)[1..] == KeepLast(docs[1..]);
      }
    }
  }

  /** Any sequence of merges equals the one that keeps the last occurrence of each source. */
  lemma FoldKeepLast(base: Json, docs: seq<Json>)
    ensures Fold(base, docs) == Fold(base, KeepLast(docs))
  {
    forall p ensures Look(Fold(base, docs), p) == Look(Fold(base, KeepLast(docs)), p) {
      LookFold(base, docs, p);
      LookFold(base, KeepLast(docs), p);
      LayeredKeepLast(docs, p);
    }
    Extensional(Fold(base, docs), Fold(base, KeepLast(docs)));
  }

  /** What `KeepLast` keeps: the same documents, each exactly once. */
  lemma {:induction false} KeepLastDistinct(docs: seq<Json>)
    ensures forall d :: d in docs <==> d in KeepLast(docs)
    ensures forall i, j :: 0 <= i < j < |KeepLast(docs)| ==> KeepLast(docs)[i] != KeepLast(docs)[j]
  {
    if docs == [] {
    } else {
      KeepLastDistinct(docs[1..]);
      assert docs == [docs[0]] + docs[1..];
    }
  }

  /** Merging sources into an object always gives an object. */
  lemma {:induction false} FoldIsMap(base: Json, docs: seq<Json>)
    requires base.Map?
    ensures Fold(base, docs).Map?
    decreases |docs|
  {
    if docs == [] {
    } else {
      FoldIsMap(Merge(base, docs[0]), docs[1..]);
    }
  }
}
