/** Regrouping and concatenating sequences, whatever the elements are. */
module Sequences {
  lemma Assoc<T>(a: seq<T>, b: seq<T>, c: seq<T>)
    ensures (a + b) + c == a + (b + c)
  {}

  lemma MoveAcross<T>(a: seq<T>, b: seq<T>, k: nat)
    requires k <= |b|
    ensures (a + b[..k]) + b[k..] == a + b
  {}

  lemma TakeMore<T>(a: seq<T>, b: seq<T>, i: nat, j: nat)
    requires i <= j <= |b|
    ensures (a + b[..i]) + b[i..j] == a + b[..j]
  {
    assert b[..i] + b[i..j] == b[..j];
  }

  lemma SameWindow<T>(a: seq<T>, b: seq<T>, i: nat, n: nat)
    requires |a| == |b| && i + n <= |a| && a[i..] == b[i..]
    ensures a[i..i + n] == b[i..i + n]
  {
    assert a[i..i + n] == a[i..][..n] && b[i..i + n] == b[i..][..n];
  }

  /** The concatenation of all parts, in order. */
  function Flatten<T>(parts: seq<seq<T>>): seq<T> {
    if parts == [] then [] else Flatten(parts[..|parts| - 1]) + parts[|parts| - 1]
  }

  lemma FlattenNext<T>(parts: seq<seq<T>>, i: nat)
    requires i < |parts|
    ensures Flatten(parts[..i + 1]) == Flatten(parts[..i]) + parts[i]
  {
    assert parts[..i + 1][..i] == parts[..i];
  }

  lemma {:induction false} FlattenFirst<T>(parts: seq<seq<T>>)
    requires parts != []
    ensures Flatten(parts) == parts[0] + Flatten(parts[1..])
  {
    var n := |parts| - 1;
    if n == 0 {
      assert parts[..0] == [] && parts[1..] == [];
    } else {
      FlattenFirst(parts[..n]);
      assert parts[..n][1..] == parts[1..][..n - 1] && parts[1..][n - 1] == parts[n];
      Assoc(parts[0], Flatten(parts[..n][1..]), parts[n]);
    }
  }
}
