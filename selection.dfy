/** Order-preserving selection out of a sequence: the shape of every
    "append when it matches" loop in the loader, and of the first-occurrence
    de-duplication of time stamps. */
module Selection {

  function Last<T>(xs: seq<T>): T
    requires |xs| > 0
  {
    xs[|xs| - 1]
  }

  function DropLast<T>(xs: seq<T>): seq<T>
    requires |xs| > 0
  {
    xs[..|xs| - 1]
  }

  /** The elements of `xs` whose mark is set, in their original order. */
  function Select<T>(xs: seq<T>, marks: seq<bool>): (r: seq<T>)
    requires |marks| == |xs|
    ensures |r| <= |xs|
  {
    if xs == [] then []
    else Select(DropLast(xs), DropLast(marks)) + (if Last(marks) then [Last(xs)] else [])
  }

  /** Appending one element after a concatenation. */
  lemma SnocAssociates<T>(a: seq<T>, b: seq<T>, x: T)
    ensures (a + b) + [x] == a + (b + [x])
  {
  }

  /** One more element of a prefix: how a selecting loop advances. */
  lemma SelectStep<T>(xs: seq<T>, marks: seq<bool>, i: nat)
    requires |marks| == |xs| && i < |xs|
    ensures Select(xs[..i + 1], marks[..i + 1]) ==
            Select(xs[..i], marks[..i]) + (if marks[i] then [xs[i]] else [])
  {
    assert DropLast(xs[..i + 1]) == xs[..i];
    assert DropLast(marks[..i + 1]) == marks[..i];
  }

  /** The marked positions, ascending. */
  function MarkedIndices(marks: seq<bool>): (r: seq<nat>)
    ensures forall k :: 0 <= k < |r| ==> r[k] < |marks|
  {
    if marks == [] then []
    else MarkedIndices(DropLast(marks)) + (if Last(marks) then [|marks| - 1] else [])
  }

  predicate StrictlyIncreasing(idx: seq<nat>)
  {
    forall a, b :: 0 <= a < b < |idx| ==> idx[a] < idx[b]
  }

  /** The marked positions, in increasing order; a position is among them
      exactly when it is marked. */
  lemma {:induction false} MarkedIndicesSorted(marks: seq<bool>)
    ensures StrictlyIncreasing(MarkedIndices(marks))
    ensures forall i :: 0 <= i < |marks| ==> (marks[i] <==> i in MarkedIndices(marks))
  {
    if marks != [] {
      var fm := DropLast(marks);
      MarkedIndicesSorted(fm);
      assert forall i :: 0 <= i < |fm| ==> fm[i] == marks[i];
    }
  }

  /** `Select` picks exactly the marked positions, keeping their relative order:
      the result is the subsequence of `xs` at the strictly increasing positions
      `MarkedIndices(marks)`, and a position is among them exactly when it is marked. */
  lemma {:induction false} SelectIsSubsequence<T>(xs: seq<T>, marks: seq<bool>)
    requires |marks| == |xs|
    ensures |Select(xs, marks)| == |MarkedIndices(marks)|
    ensures forall k :: 0 <= k < |Select(xs, marks)| ==>
              Select(xs, marks)[k] == xs[MarkedIndices(marks)[k]]
    ensures StrictlyIncreasing(MarkedIndices(marks))
    ensures forall i :: 0 <= i < |xs| ==> (marks[i] <==> i in MarkedIndices(marks))
  {
    MarkedIndicesSorted(marks);
    if xs != [] {
      var front, fm := DropLast(xs), DropLast(marks);
      SelectIsSubsequence(front, fm);
      var idx := MarkedIndices(fm);
      assert forall i :: 0 <= i < |front| ==> front[i] == xs[i];
    }
  }

  /** Nothing marked, nothing selected. */
  lemma {:induction false} SelectNone<T>(xs: seq<T>, marks: seq<bool>)
    requires |marks| == |xs|
    requires forall i :: 0 <= i < |marks| ==> !marks[i]
    ensures Select(xs, marks) == []
  {
    if xs != [] {
      SelectNone(DropLast(xs), DropLast(marks));
    }
  }

  /** Everything marked, everything selected. */
  lemma {:induction false} SelectAll<T>(xs: seq<T>, marks: seq<bool>)
    requires |marks| == |xs|
    requires forall i :: 0 <= i < |marks| ==> marks[i]
    ensures Select(xs, marks) == xs
  {
    if xs != [] {
      SelectAll(DropLast(xs), DropLast(marks));
    }
  }

  /** Exactly one position marked: the selection is that one element. */
  lemma {:induction false} SelectSingle<T>(xs: seq<T>, marks: seq<bool>, o: nat)
    requires |marks| == |xs| && o < |xs|
    requires forall i :: 0 <= i < |marks| ==> (marks[i] <==> i == o)
    ensures Select(xs, marks) == [xs[o]]
  {
    if o == |xs| - 1 {
      SelectNone(DropLast(xs), DropLast(marks));
    } else {
      SelectSingle(DropLast(xs), DropLast(marks), o);
    }
  }

  /** An element is selected exactly when it stands at some marked position. */
  lemma {:induction false} SelectMembership<T>(xs: seq<T>, marks: seq<bool>, x: T)
    requires |marks| == |xs|
    ensures x in Select(xs, marks) <==> exists i :: 0 <= i < |xs| && marks[i] && xs[i] == x
  {
    if xs != [] {
      SelectMembership(DropLast(xs), DropLast(marks), x);
      if x in Select(DropLast(xs), DropLast(marks)) {
        var i :| 0 <= i < |xs| - 1 && DropLast(marks)[i] && DropLast(xs)[i] == x;
        assert marks[i] && xs[i] == x;
      }
      if exists i :: 0 <= i < |xs| && marks[i] && xs[i] == x {
        var i :| 0 <= i < |xs| && marks[i] && xs[i] == x;
        if i < |xs| - 1 {
          assert DropLast(marks)[i] && DropLast(xs)[i] == x;
        }
      }
    }
  }

  predicate NoDuplicates<T(==)>(xs: seq<T>)
  {
    forall a, b :: 0 <= a < b < |xs| ==> xs[a] != xs[b]
  }

  /** Position of the first occurrence of `x` in `xs`. */
  function FirstIndex<T(==)>(xs: seq<T>, x: T): (i: nat)
    requires x in xs
    ensures i < |xs| && xs[i] == x && x !in xs[..i]
  {
    if xs[0] == x then 0 else 1 + FirstIndex(xs[1..], x)
  }

  /** The distinct elements of `xs`, in order of first occurrence. */
  function Dedup<T(==)>(xs: seq<T>): seq<T>
  {
    if xs == [] then []
    else
      var d := Dedup(DropLast(xs));
      if Last(xs) in d then d else d + [Last(xs)]
  }

  /** `Dedup` lists each element of `xs`, and lists it exactly once. */
  lemma {:induction false} DedupMembers<T>(xs: seq<T>)
    ensures forall x :: x in Dedup(xs) <==> x in xs
    ensures NoDuplicates(Dedup(xs))
  {
    if xs != [] {
      var front := DropLast(xs);
      DedupMembers(front);
      assert xs == front + [Last(xs)];
    }
  }

  /** `Dedup` lists the elements in the order in which they first occur in `xs`. */
  lemma {:induction false} DedupFirstOccurrenceOrder<T>(xs: seq<T>)
    ensures forall x :: x in Dedup(xs) ==> x in xs
    ensures forall a, b :: 0 <= a < b < |Dedup(xs)| ==>
              FirstIndex(xs, Dedup(xs)[a]) < FirstIndex(xs, Dedup(xs)[b])
  {
    DedupMembers(xs);
    if xs != [] {
      var front := DropLast(xs);
      var d := Dedup(front);
      DedupFirstOccurrenceOrder(front);
      DedupMembers(front);
      assert xs == front + [Last(xs)];
      forall x | x in front ensures FirstIndex(xs, x) == FirstIndex(front, x) {
        FirstIndexPrefix(front, Last(xs), x);
      }
      if Last(xs) !in d {
        assert Last(xs) !in front;
        assert FirstIndex(xs, Last(xs)) == |xs| - 1 by {
          FirstIndexLast(front, Last(xs));
        }
        var r := d + [Last(xs)];
        forall a, b | 0 <= a < b < |r| ensures FirstIndex(xs, r[a]) < FirstIndex(xs, r[b]) {
          assert r[a] == d[a] && d[a] in d;
          if b < |d| {
            assert r[b] == d[b];
          } else {
            assert r[b] == Last(xs);
          }
        }
      }
    }
  }

  lemma {:induction false} FirstIndexPrefix<T>(front: seq<T>, y: T, x: T)
    requires x in front
    ensures x in front + [y] && FirstIndex(front + [y], x) == FirstIndex(front, x)
  {
    if front[0] != x {
      assert (front + [y])[1..] == front[1..] + [y];
      FirstIndexPrefix(front[1..], y, x);
    }
  }

  lemma {:induction false} FirstIndexLast<T>(front: seq<T>, y: T)
    requires y !in front
    ensures y in front + [y] && FirstIndex(front + [y], y) == |front|
  {
    if front != [] {
      assert (front + [y])[1..] == front[1..] + [y];
      FirstIndexLast(front[1..], y);
    }
  }
}
