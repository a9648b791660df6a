/** Wrapper datatypes and a few facts about sequences shared by the other modules. */
module Common {

  datatype Option<+T> = None | Some(value: T)

  function Reverse<T>(s: seq<T>): (r: seq<T>)
    ensures |r| == |s|
    ensures forall i :: 0 <= i < |s| ==> r[i] == s[|s| - 1 - i]
  {
    if s == [] then [] else Reverse(s[1..]) + [s[0]]
  }

  lemma ReverseConcat<T>(s: seq<T>, t: seq<T>)
    ensures Reverse(s + t) == Reverse(t) + Reverse(s)
  {}

  lemma ConcatTail<T>(s: seq<T>, t: seq<T>)
    ensures s == [] ==> s + t == t
    ensures s != [] ==> (s + t)[0] == s[0] && (s + t)[1..] == s[1..] + t
  {}

  function Flatten<T(!new)>(ss: seq<seq<T>>): (r: seq<T>)
    ensures forall x :: x in r <==> exists i :: 0 <= i < |ss| && x in ss[i]
  {
    if ss == [] then []
    else
      assert forall i :: 1 <= i < |ss| ==> ss[i] == ss[1..][i - 1];
      ss[0] + Flatten(ss[1..])
  }

  /** Splitting a flattened sequence at position `i` of group `l`. */
  lemma {:induction false} FlattenSplit<T(!new)>(ss: seq<seq<T>>, l: nat, i: nat)
    requires l < |ss| && i < |ss[l]|
    ensures Flatten(ss) == (Flatten(ss[..l]) + ss[l][..i]) + [ss[l][i]] + (ss[l][i + 1..] + Flatten(ss[l + 1..]))
  {
    if l == 0 {
      assert ss[0] == ss[0][..i] + [ss[0][i]] + ss[0][i + 1..];
    } else {
      FlattenSplit(ss[1..], l - 1, i);
      assert ss[1..][..l - 1] == ss[..l][1..];
      assert ss[1..][l..] == ss[l + 1..];
    }
  }
}
