/**
 The status entries of a route: one per parent reference and controller. The controller
 writes its own entries and shares the list with others.
 */
module RouteStatuses {
  import opened Common
  import opened WatchIndex

  const SELF := "github.com/tv2/bifrost-gateway-controller"

  datatype Condition = Condition(kind: string, status: string, reason: string, since: int)

  datatype ParentStatus = ParentStatus(parentRef: ParentRef, controller: string, conditions: seq<Condition>)

  // ----- Comparing references

  predicate DerefCmp<T(==)>(a: Option<T>, b: Option<T>) {
    if (a.Some? && b.None?) || (a.None? && b.Some?) then false
    else if a.Some? && b.Some? && a.value != b.value then false
    else true
  }

  predicate ParentRefCmp(a: ParentRef, b: ParentRef) {
    if !DerefCmp(a.group, b.group) || !DerefCmp(a.kind, b.kind) || !DerefCmp(a.namespace, b.namespace)
       || !DerefCmp(a.sectionName, b.sectionName) || !DerefCmp(a.port, b.port) then false
    else a.name == b.name
  }

  /** Two references compare equal exactly when they agree in every field, set or unset. */
  lemma ParentRefCmpIsEquality(a: ParentRef, b: ParentRef)
    ensures ParentRefCmp(a, b) <==> a == b
  {}

  // ----- Setting a condition, on values

  /** The condition of one kind is replaced where it stands, keeping its time if the status stays. */
  function SetCondition(cs: seq<Condition>, c: Condition): seq<Condition> {
    if cs == [] then [c]
    else if cs[0].kind == c.kind then [c.(since := if cs[0].status == c.status then cs[0].since else c.since)] + cs[1..]
    else [cs[0]] + SetCondition(cs[1..], c)
  }

  predicate IsOwn(p: ParentStatus, ref: ParentRef) {
    p.controller == SELF && p.parentRef == ref
  }

  function SetParent(ps: seq<ParentStatus>, ref: ParentRef, c: Condition): seq<ParentStatus> {
    if ps == [] then [ParentStatus(ref, SELF, [c])]
    else if IsOwn(ps[0], ref) then [ps[0].(conditions := SetCondition(ps[0].conditions, c))] + ps[1..]
    else [ps[0]] + SetParent(ps[1..], ref, c)
  }

  // ----- The list on the heap

  class RouteStatus {
    var parents: seq<ParentStatus>

    constructor (parents: seq<ParentStatus>)
      ensures this.parents == parents
    {
      this.parents := parents;
    }

    /** The index of the entry, or the length of the list. */
    method FindParent(parent: ParentRef) returns (at: nat)
      ensures at <= |parents|
      ensures forall i :: 0 <= i < at ==> !IsOwn(parents[i], parent)
      ensures at < |parents| ==> IsOwn(parents[at], parent)
    {
      at := 0;
      while at < |parents|
        invariant at <= |parents| && forall i :: 0 <= i < at ==> !IsOwn(parents[i], parent)
      {
        ParentRefCmpIsEquality(parents[at].parentRef, parent);
        if ParentRefCmp(parents[at].parentRef, parent) && parents[at].controller == SELF {
          return;
        }
        at := at + 1;
      }
    }

    /** `setRouteStatusCondition`; a condition without a time gets the present one. */
    method SetRouteStatusCondition(parent: ParentRef, condition: Condition, now: int)
      modifies this
      ensures parents
           == SetParent(old(parents), parent, if condition.since == 0 then condition.(since := now) else condition)
    {
      var c := if condition.since == 0 then condition.(since := now) else condition;
      var at := FindParent(parent);
      SetParentAt(parents, parent, c, at);
      if at == |parents| {
        parents := parents + [ParentStatus(parent, SELF, [c])];
      } else {
        parents := parents[at := parents[at].(conditions := SetCondition(parents[at].conditions, c))];
      }
    }
  }

  lemma {:induction false} SetParentAt(ps: seq<ParentStatus>, ref: ParentRef, c: Condition, at: nat)
    requires at <= |ps| && (forall i :: 0 <= i < at ==> !IsOwn(ps[i], ref)) && (at < |ps| ==> IsOwn(ps[at], ref))
    ensures SetParent(ps, ref, c)
         == if at == |ps| then ps + [ParentStatus(ref, SELF, [c])]
            else ps[at := ps[at].(conditions := SetCondition(ps[at].conditions, c))]
  {
    if at == 0 {
    } else {
      SetParentAt(ps[1..], ref, c, at - 1);
      assert ps == [ps[0]] + ps[1..];
    }
  }

  // ----- Over any number of calls

  /** The entries of the controller have different references. */
  ghost predicate OwnDistinct(ps: seq<ParentStatus>) {
    forall i, j :: 0 <= i < j < |ps| && ps[i].controller == SELF && ps[j].controller == SELF ==>
                     ps[i].parentRef != ps[j].parentRef
  }

  /** The entries of other controllers, in order. */
  function Foreign(ps: seq<ParentStatus>): seq<ParentStatus> {
    if ps == [] then [] else (if ps[0].controller == SELF then [] else [ps[0]]) + Foreign(ps[1..])
  }

  /** The conditions of the entry for `ref`, if there is one. */
  function OwnConditions(ps: seq<ParentStatus>, ref: ParentRef): Option<seq<Condition>> {
    if ps == [] then None else if IsOwn(ps[0], ref) then Some(ps[0].conditions) else OwnConditions(ps[1..], ref)
  }

  function OwnCount(ps: seq<ParentStatus>, ref: ParentRef): nat {
    if ps == [] then 0 else (if IsOwn(ps[0], ref) then 1 else 0) + OwnCount(ps[1..], ref)
  }

  datatype Call = Call(ref: ParentRef, condition: Condition)

  function SetAll(ps: seq<ParentStatus>, calls: seq<Call>): seq<ParentStatus> {
    if calls == [] then ps
    else SetParent(SetAll(ps, calls[..|calls| - 1]), calls[|calls| - 1].ref, calls[|calls| - 1].condition)
  }

  /** One call leaves other controllers and other references alone. */
  lemma {:induction false} SetParentLocal(ps: seq<ParentStatus>, ref: ParentRef, c: Condition, other: ParentRef)
    ensures Foreign(SetParent(ps, ref, c)) == Foreign(ps)
    ensures other != ref ==> OwnConditions(SetParent(ps, ref, c), other) == OwnConditions(ps, other)
    ensures other != ref ==> OwnCount(SetParent(ps, ref, c), other) == OwnCount(ps, other)
  {
    if ps == [] {
    } else {
      var r := SetParent(ps, ref, c);
      if IsOwn(ps[0], ref) {
        assert r[1..] == ps[1..];
      } else {
        SetParentLocal(ps[1..], ref, c, other);
        assert r[1..] == SetParent(ps[1..], ref, c);
      }
    }
  }

  /** One call leaves exactly one entry for its reference, with the condition set. */
  lemma {:induction false} SetParentOwn(ps: seq<ParentStatus>, ref: ParentRef, c: Condition)
    requires OwnCount(ps, ref) <= 1
    ensures OwnCount(SetParent(ps, ref, c), ref) == 1
    ensures OwnConditions(SetParent(ps, ref, c), ref)
         == Some(SetCondition(if OwnConditions(ps, ref).Some? then OwnConditions(ps, ref).value else [], c))
  {
    if ps == [] {
    } else {
      var r := SetParent(ps, ref, c);
      if IsOwn(ps[0], ref) {
        assert r[1..] == ps[1..];
      } else {
        SetParentOwn(ps[1..], ref, c);
        assert r[1..] == SetParent(ps[1..], ref, c);
      }
    }
  }

  lemma OwnDistinctIff(ps: seq<ParentStatus>)
    ensures OwnDistinct(ps) <==> forall ref :: OwnCount(ps, ref) <= 1
  {
    if OwnDistinct(ps) {
      forall ref ensures OwnCount(ps, ref) <= 1 { OwnOnce(ps, ref); }
    } else {
      var i, j :| 0 <= i < j < |ps| && ps[i].controller == SELF && ps[j].controller == SELF
                  && ps[i].parentRef == ps[j].parentRef;
      OwnTwice(ps, i, j);
    }
  }

  lemma {:induction false} OwnOnce(ps: seq<ParentStatus>, ref: ParentRef)
    requires OwnDistinct(ps)
    ensures OwnCount(ps, ref) <= 1
  {
    if ps == [] {
    } else {
      OwnOnce(ps[1..], ref);
      if IsOwn(ps[0], ref) {
        OwnCountZero(ps[1..], ref);
      }
    }
  }

  lemma {:induction false} OwnTwice(ps: seq<ParentStatus>, i: nat, j: nat)
    requires i < j < |ps| && IsOwn(ps[i], ps[i].parentRef) && IsOwn(ps[j], ps[i].parentRef)
    ensures OwnCount(ps, ps[i].parentRef) >= 2
  {
    if i > 0 {
      OwnTwice(ps[1..], i - 1, j - 1);
    } else {
      OwnCountZero(ps[1..], ps[0].parentRef);
      assert ps[1..][j - 1] == ps[j];
    }
  }

  lemma {:induction false} OwnCountZero(ps: seq<ParentStatus>, ref: ParentRef)
    ensures OwnCount(ps, ref) == 0 <==> forall i :: 0 <= i < |ps| ==> !IsOwn(ps[i], ref)
  {
    if ps == [] {
    } else {
      OwnCountZero(ps[1..], ref);
      assert forall i :: 1 <= i < |ps| ==> ps[i] == ps[1..][i - 1];
    }
  }

  /** Over any calls: own entries stay distinct, and those of others keep content and order. */
  lemma {:induction false} RunKeeps(ps: seq<ParentStatus>, calls: seq<Call>)
    requires OwnDistinct(ps)
    ensures OwnDistinct(SetAll(ps, calls)) && Foreign(SetAll(ps, calls)) == Foreign(ps)
  {
    if calls == [] {
    } else {
      var last := calls[|calls| - 1];
      var before := SetAll(ps, calls[..|calls| - 1]);
      RunKeeps(ps, calls[..|calls| - 1]);
      OwnDistinctIff(before);
      forall ref ensures OwnCount(SetAll(ps, calls), ref) <= 1 {
        if ref == last.ref {
          SetParentOwn(before, ref, last.condition);
        } else {
          SetParentLocal(before, last.ref, last.condition, ref);
        }
      }
      OwnDistinctIff(SetAll(ps, calls));
      SetParentLocal(before, last.ref, last.condition, last.ref);
    }
  }

  /** The conditions that a sequence of calls leaves for `ref`, starting from `cs`. */
  function Replay(cs: Option<seq<Condition>>, calls: seq<Call>, ref: ParentRef): Option<seq<Condition>> {
    if calls == [] then cs
    else
      var before, last := Replay(cs, calls[..|calls| - 1], ref), calls[|calls| - 1];
      if last.ref == ref then Some(SetCondition(if before.Some? then before.value else [], last.condition)) else before
  }

  predicate Called(calls: seq<Call>, ref: ParentRef) {
    exists i :: 0 <= i < |calls| && calls[i].ref == ref
  }

  lemma CalledLast(calls: seq<Call>, ref: ParentRef)
    requires calls != []
    ensures Called(calls, ref) <==> Called(calls[..|calls| - 1], ref) || calls[|calls| - 1].ref == ref
  {
    var init := calls[..|calls| - 1];
    assert forall i :: 0 <= i < |init| ==> init[i] == calls[i];
  }

  /**
   What a reference ends up with depends on its own calls only: exactly one entry if there was
   any call, with the conditions of those calls; otherwise the entry it had, if any.
   */
  lemma {:induction false} RunByReference(ps: seq<ParentStatus>, calls: seq<Call>, ref: ParentRef)
    requires OwnDistinct(ps)
    ensures OwnConditions(SetAll(ps, calls), ref) == Replay(OwnConditions(ps, ref), calls, ref)
    ensures Called(calls, ref) ==> OwnCount(SetAll(ps, calls), ref) == 1
    ensures !Called(calls, ref) ==>
              && OwnCount(SetAll(ps, calls), ref) == OwnCount(ps, ref)
              && OwnConditions(SetAll(ps, calls), ref) == OwnConditions(ps, ref)
  {
    if calls == [] {
    } else {
      var init, last := calls[..|calls| - 1], calls[|calls| - 1];
      RunByReference(ps, init, ref);
      CalledLast(calls, ref);
      RunKeeps(ps, init);
      OwnAtMostOnce(SetAll(ps, init), ref);
      if last.ref == ref {
        SetParentOwn(SetAll(ps, init), ref, last.condition);
      } else {
        SetParentLocal(SetAll(ps, init), last.ref, last.condition, ref);
      }
    }
  }

  lemma OwnAtMostOnce(ps: seq<ParentStatus>, ref: ParentRef)
    requires OwnDistinct(ps)
    ensures OwnCount(ps, ref) <= 1
  {
    OwnDistinctIff(ps);
  }

  /** The status last set for a kind is the one that stays. */
  lemma {:induction false} SetConditionLast(cs: seq<Condition>, c: Condition, kind: string)
    ensures exists i :: 0 <= i < |SetCondition(cs, c)| && SetCondition(cs, c)[i].kind == c.kind
                        && SetCondition(cs, c)[i].status == c.status && SetCondition(cs, c)[i].reason == c.reason
    ensures kind != c.kind ==> OfKind(SetCondition(cs, c), kind) == OfKind(cs, kind)
  {
    var r := SetCondition(cs, c);
    if cs == [] || cs[0].kind == c.kind {
      assert r[0].kind == c.kind && r[0].status == c.status && r[0].reason == c.reason;
      assert cs != [] ==> r[1..] == cs[1..];
      assert cs == [] ==> r[1..] == [];
    } else {
      SetConditionLast(cs[1..], c, kind);
      assert r[1..] == SetCondition(cs[1..], c);
      var i :| 0 <= i < |r[1..]| && r[1..][i].kind == c.kind
               && r[1..][i].status == c.status && r[1..][i].reason == c.reason;
      assert r[i + 1] == r[1..][i];
    }
  }

  /** A condition replaces the one of its kind, which keeps its time if the status is the same. */
  lemma {:induction false} SetConditionReplaces(cs: seq<Condition>, c: Condition)
    requires |OfKind(cs, c.kind)| <= 1
    ensures var was := OfKind(cs, c.kind);
            OfKind(SetCondition(cs, c), c.kind)
            == if was == [] then [c]
               else [c.(since := if was[0].status == c.status then was[0].since else c.since)]
    ensures |SetCondition(cs, c)| == if OfKind(cs, c.kind) == [] then |cs| + 1 else |cs|
  {
    var r := SetCondition(cs, c);
    if cs == [] {
      assert r[1..] == [];
    } else if cs[0].kind == c.kind {
      assert r[1..] == cs[1..];
      assert OfKind(cs, c.kind) == [cs[0]] + OfKind(cs[1..], c.kind);
      assert OfKind(cs[1..], c.kind) == [];
    } else {
      assert r[1..] == SetCondition(cs[1..], c);
      SetConditionReplaces(cs[1..], c);
    }
  }

  /** The same condition set again changes nothing, whenever it is set. */
  lemma {:induction false} SetTwice(cs: seq<Condition>, c: Condition, since: int)
    ensures SetCondition(SetCondition(cs, c), c.(since := since)) == SetCondition(cs, c)
  {
    var r := SetCondition(cs, c);
    if cs == [] || cs[0].kind == c.kind {
      assert r == [r[0]] + r[1..];
    } else {
      assert r[1..] == SetCondition(cs[1..], c);
      SetTwice(cs[1..], c, since);
    }
  }

  /** No entry of the controller has two conditions of one kind. */
  ghost predicate KindsDistinct(ps: seq<ParentStatus>) {
    forall i :: 0 <= i < |ps| && ps[i].controller == SELF ==> EachKindOnce(ps[i].conditions)
  }

  ghost predicate EachKindOnce(cs: seq<Condition>) {
    forall kind :: |OfKind(cs, kind)| <= 1
  }

  lemma EachKindStaysOnce(cs: seq<Condition>, c: Condition)
    requires EachKindOnce(cs)
    ensures EachKindOnce(SetCondition(cs, c))
  {
    forall kind ensures |OfKind(SetCondition(cs, c), kind)| <= 1 {
      if kind == c.kind {
        SetConditionReplaces(cs, c);
      } else {
        SetConditionLast(cs, c, kind);
      }
    }
  }

  lemma {:induction false} SetParentKeepsKinds(ps: seq<ParentStatus>, ref: ParentRef, c: Condition)
    requires KindsDistinct(ps)
    ensures KindsDistinct(SetParent(ps, ref, c))
  {
    if ps == [] {
      assert OfKind([c][1..], c.kind) == [];
      forall kind ensures |OfKind([c], kind)| <= 1 {
        assert [c][1..] == [];
      }
    } else if IsOwn(ps[0], ref) {
      EachKindStaysOnce(ps[0].conditions, c);
    } else {
      assert forall i :: 0 <= i < |ps[1..]| ==> ps[1..][i] == ps[i + 1];
      SetParentKeepsKinds(ps[1..], ref, c);
      var r := SetParent(ps, ref, c);
      assert r == [ps[0]] + SetParent(ps[1..], ref, c);
    }
  }

  /** Over any calls, own entries have each kind of condition at most once. */
  lemma {:induction false} RunKeepsKinds(ps: seq<ParentStatus>, calls: seq<Call>)
    requires KindsDistinct(ps)
    ensures KindsDistinct(SetAll(ps, calls))
  {
    if calls == [] {
    } else {
      var last := calls[|calls| - 1];
      RunKeepsKinds(ps, calls[..|calls| - 1]);
      SetParentKeepsKinds(SetAll(ps, calls[..|calls| - 1]), last.ref, last.condition);
    }
  }

  function OfKind(cs: seq<Condition>, kind: string): seq<Condition> {
    if cs == [] then [] else (if cs[0].kind == kind then [cs[0]] else []) + OfKind(cs[1..], kind)
  }
}
