/**
 * Extbase's ObjectStorage, as CalendarDay and CalendarMonth use it: a set of
 * objects that remembers the order of attachment. `attach` of an object that
 * is already stored leaves the storage as it is; `detach` removes the object
 * and keeps the others in their order.
 */
module ObjectStorage {

  /** No object occurs twice. */
  ghost predicate Distinct<T>(s: seq<T>) {
    forall i, j :: 0 <= i < j < |s| ==> s[i] != s[j]
  }

  /** The contents of an ObjectStorage, in attachment order. */
  type Storage<T(==)> = s: seq<T> | Distinct(s) witness []

  /** `ObjectStorage::attach`. */
  function Attach<T(==)>(s: Storage<T>, x: T): (r: Storage<T>)
    ensures x in r
    ensures forall y :: y in s ==> y in r
    ensures forall y :: y in r ==> y in s || y == x
    ensures |s| <= |r| && r[..|s|] == s
    ensures x in s ==> r == s
  {
    if x in s then s else s + [x]
  }

  /** `ObjectStorage::detach`. */
  function Detach<T(==)>(s: Storage<T>, x: T): (r: Storage<T>)
    ensures x !in r
    ensures forall y :: y in r ==> y in s && y != x
    ensures forall y :: y in s && y != x ==> y in r
    ensures |r| == if x in s then |s| - 1 else |s|
    ensures x !in s ==> r == s
  {
    if |s| == 0 then []
    else if s[0] == x then s[1..]
    else
      var rest := Detach(s[1..], x);
      assert s[0] !in s[1..];
      assert s[0] !in rest;
      var r := [s[0]] + rest;
      assert forall i :: 0 < i < |r| ==> r[i] == rest[i - 1];
      r
  }

  /** Attaching twice is attaching once. */
  lemma AttachIdempotent<T>(s: Storage<T>, x: T)
    ensures Attach(Attach(s, x), x) == Attach(s, x)
  {
  }

  /** Detaching a freshly attached object gives back the storage it was attached to. */
  lemma {:induction false} DetachUndoesAttach<T>(s: Storage<T>, x: T)
    requires x !in s
    ensures Detach(Attach(s, x), x) == s
  {
    if |s| > 0 {
      var t: Storage<T> := s[1..];
      assert Attach(s, x)[1..] == Attach(t, x);
      DetachUndoesAttach(t, x);
    }
  }

  /** Attaching an object that is not stored appends it. */
  lemma AttachNewAppends<T>(s: Storage<T>, x: T)
    requires x !in s
    ensures Attach(s, x) == s + [x]
  {
  }
}
