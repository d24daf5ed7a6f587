/** Walks and cycles of a finite directed graph. */
module Graph {
  import opened Common

  ghost predicate StepAt<T>(edges: set<(T, T)>, w: seq<T>, i: nat) {
    i + 1 < |w| ==> (w[i], w[i + 1]) in edges
  }

  ghost predicate Walk<T>(edges: set<(T, T)>, w: seq<T>) {
    forall i: nat :: StepAt(edges, w, i)
  }

  /** A walk of at least one edge back to its start. */
  ghost predicate Cycle<T>(edges: set<(T, T)>, w: seq<T>) {
    |w| >= 2 && w[0] == w[|w| - 1] && Walk(edges, w)
  }

  lemma WalkExtends<T>(edges: set<(T, T)>, w: seq<T>, b: T)
    requires w != [] && Walk(edges, w) && (w[|w| - 1], b) in edges
    ensures Walk(edges, w + [b])
  {
    forall i: nat
      ensures StepAt(edges, w + [b], i)
    {
      assert StepAt(edges, w, i);
    }
  }

  lemma WalkSlice<T>(edges: set<(T, T)>, w: seq<T>, i: nat, j: nat)
    requires i <= j <= |w| && Walk(edges, w)
    ensures Walk(edges, w[i..j])
  {
    forall k: nat
      ensures StepAt(edges, w[i..j], k)
    {
      assert StepAt(edges, w, i + k);
    }
  }

  ghost predicate StepsInto<T>(edges: set<(T, T)>, open: set<T>, a: T) {
    exists b :: b in open && (a, b) in edges
  }

  ghost predicate NoSink<T>(edges: set<(T, T)>, open: set<T>) {
    forall a {:trigger StepsInto(edges, open, a)} :: a in open ==> StepsInto(edges, open, a)
  }

  /** When every member of a set has an edge to a member, edges can be followed for any number of steps. */
  lemma {:induction false} LongWalk<T>(edges: set<(T, T)>, open: set<T>, start: T, n: nat) returns (w: seq<T>)
    requires start in open && NoSink(edges, open)
    ensures |w| == n + 1 && Walk(edges, w) && forall a :: a in w ==> a in open
  {
    if n == 0 {
      w := [start];
    } else {
      var prefix := LongWalk(edges, open, start, n - 1);
      assert StepsInto(edges, open, prefix[n - 1]);
      var b :| b in open && (prefix[n - 1], b) in edges;
      WalkExtends(edges, prefix, b);
      w := prefix + [b];
    }
  }

  lemma NoSinkMeansCycle<T>(edges: set<(T, T)>, open: set<T>) returns (w: seq<T>)
    requires open != {} && NoSink(edges, open)
    ensures Cycle(edges, w)
  {
    var start :| start in open;
    var long := LongWalk(edges, open, start, |open|);
    var i, j := Pigeonhole(long, open);
    w := long[i..j + 1];
    WalkSlice(edges, long, i, j + 1);
  }

  /** Along a walk whose every edge strictly lowers a rank, the rank drops. */
  lemma {:induction false} WalkDescends<T(!new)>(edges: set<(T, T)>, rank: T -> int, w: seq<T>)
    requires forall a, b :: (a, b) in edges ==> rank(b) < rank(a)
    requires |w| >= 2 && Walk(edges, w)
    ensures rank(w[|w| - 1]) < rank(w[0])
  {
    var last := |w| - 1;
    assert StepAt(edges, w, last - 1);
    if last > 1 {
      WalkSlice(edges, w, 0, last);
      WalkDescends(edges, rank, w[..last]);
    }
  }
}
