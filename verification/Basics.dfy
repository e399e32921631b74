/** Vocabulary shared by the component models: optional values, searching a
    string, and the concatenation of a list of pieces. */
module Basics {

  datatype Option<+T> = None | Some(value: T)

  /** All pieces of a list, one after the other. */
  function Flatten<T>(pieces: seq<seq<T>>): seq<T> {
    if pieces == [] then [] else pieces[0] + Flatten(pieces[1..])
  }

  lemma {:induction false} FlattenAppend<T>(left: seq<seq<T>>, right: seq<seq<T>>)
    ensures Flatten(left + right) == Flatten(left) + Flatten(right)
  {
    if left == [] {
      assert left + right == right;
    } else {
      assert (left + right)[1..] == left[1..] + right;
      FlattenAppend(left[1..], right);
    }
  }

  lemma FlattenOne<T>(piece: seq<T>)
    ensures Flatten([piece]) == piece
  {
    assert [piece][1..] == [];
  }

  lemma FlattenSnoc<T>(pieces: seq<seq<T>>, last: seq<T>)
    ensures Flatten(pieces + [last]) == Flatten(pieces) + last
  {
    FlattenAppend(pieces, [last]);
    FlattenOne(last);
  }

  /** std::string::find of a single character from a position. */
  function IndexOf(s: string, c: char, from: nat): (r: Option<nat>)
    ensures r.Some? ==> from <= r.value < |s| && s[r.value] == c
    ensures r.Some? ==> forall k :: from <= k < r.value ==> s[k] != c
    ensures r.None? ==> forall k :: from <= k < |s| ==> s[k] != c
    decreases |s| - from
  {
    if from >= |s| then None
    else if s[from] == c then Some(from)
    else IndexOf(s, c, from + 1)
  }

  /** The position is determined by what comes before it. */
  lemma {:induction false} IndexOfIs(s: string, c: char, from: nat, at: nat)
    requires from <= at < |s| && s[at] == c
    requires forall k :: from <= k < at ==> s[k] != c
    ensures IndexOf(s, c, from) == Some(at)
    decreases at - from
  {
    if from == at {
    } else {
      IndexOfIs(s, c, from + 1, at);
    }
  }

  function Max(a: int, b: int): int { if a < b then b else a }

  function Min(a: int, b: int): int { if a < b then a else b }
}
