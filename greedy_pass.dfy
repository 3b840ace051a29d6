/**
 * The greedy pass of alignment, for any join rule: walk a list once, keep an
 * open run, add each element to it when the rule accepts the element against
 * the run so far, and otherwise close the run and open a new one. The pass is
 * characterised as the unique greedy partition of the list.
 */
module GreedyPass {

  function Concat<T>(rs: seq<seq<T>>): seq<T>
  {
    if rs == [] then [] else rs[0] + Concat(rs[1..])
  }

  /** The pass from an open run `current` over the elements still to visit. */
  function Pass<T>(current: seq<T>, rest: seq<T>, joins: (seq<T>, T) -> bool): seq<seq<T>>
    decreases |rest|
  {
    if rest == [] then [current]
    else if joins(current, rest[0]) then Pass(current + [rest[0]], rest[1..], joins)
    else [current] + Pass([rest[0]], rest[1..], joins)
  }

  /** All runs the pass closes over a list, starting with its first element. */
  function Cut<T>(ps: seq<T>, joins: (seq<T>, T) -> bool): seq<seq<T>>
  {
    if ps == [] then [] else Pass([ps[0]], ps[1..], joins)
  }

  /** Every element after the first joined the run formed by the elements before it. */
  ghost predicate JoinedRun<T>(r: seq<T>, joins: (seq<T>, T) -> bool)
  {
    |r| > 0 && forall j :: 0 < j < |r| ==> joins(r[..j], r[j])
  }

  /**
   * `rs` cuts `ps` into contiguous runs, each built by the join rule, and the
   * first element of each run after the first failed to join the run before it.
   */
  ghost predicate GreedyPartition<T>(ps: seq<T>, rs: seq<seq<T>>, joins: (seq<T>, T) -> bool)
  {
    && Concat(rs) == ps
    && (forall k :: 0 <= k < |rs| ==> JoinedRun(rs[k], joins))
    && (forall k :: 0 < k < |rs| ==> |rs[k]| > 0 && !joins(rs[k - 1], rs[k][0]))
  }

  lemma JoinedRunExtend<T>(r: seq<T>, p: T, joins: (seq<T>, T) -> bool)
    requires JoinedRun(r, joins) && joins(r, p)
    ensures JoinedRun(r + [p], joins)
  {
    var r' := r + [p];
    forall j | 0 < j < |r'| ensures joins(r'[..j], r'[j]) {
      if j < |r| {
        assert r'[..j] == r[..j];
      } else {
        assert r'[..j] == r;
      }
    }
  }

  /** What the greedy pass from `current` over `rest` establishes. */
  ghost predicate PassFacts<T>(current: seq<T>, rest: seq<T>, joins: (seq<T>, T) -> bool)
  {
    var rs := Pass(current, rest, joins);
    && GreedyPartition(current + rest, rs, joins)
    && |rs| > 0 && |rs[0]| >= |current| && rs[0][..|current|] == current
  }

  lemma PassEnd<T>(current: seq<T>, joins: (seq<T>, T) -> bool)
    requires JoinedRun(current, joins)
    ensures PassFacts(current, [], joins)
  {
    var rs := Pass(current, [], joins);
    assert rs == [current];
    assert Concat(rs) == current + Concat(rs[1..]);
    assert current + [] == current;
  }

  lemma PassJoin<T>(current: seq<T>, rest: seq<T>, joins: (seq<T>, T) -> bool)
    requires rest != [] && joins(current, rest[0])
    requires PassFacts(current + [rest[0]], rest[1..], joins)
    ensures PassFacts(current, rest, joins)
  {
    var current' := current + [rest[0]];
    var rs := Pass(current, rest, joins);
    assert rs == Pass(current', rest[1..], joins);
    assert current' + rest[1..] == current + rest;
    assert rs[0][..|current'|][..|current|] == current;
  }

  /** The run boundaries after a cut: each later run starts with an element that failed to join its predecessor. */
  lemma CutBoundaries<T>(current: seq<T>, rest: seq<T>, tail: seq<seq<T>>, joins: (seq<T>, T) -> bool)
    requires rest != [] && !joins(current, rest[0])
    requires |tail| > 0 && |tail[0]| >= 1 && tail[0][..1] == [rest[0]]
    requires forall k :: 0 < k < |tail| ==> |tail[k]| > 0 && !joins(tail[k - 1], tail[k][0])
    ensures var rs := [current] + tail;
      forall k :: 0 < k < |rs| ==> |rs[k]| > 0 && !joins(rs[k - 1], rs[k][0])
  {
    var rs := [current] + tail;
    assert tail[0][0] == tail[0][..1][0] == rest[0];
    forall k | 0 < k < |rs| ensures |rs[k]| > 0 && !joins(rs[k - 1], rs[k][0]) {
      if k > 1 {
        assert rs[k - 1] == tail[k - 2] && rs[k] == tail[k - 1];
      }
    }
  }

  lemma RunsAfterCut<T>(current: seq<T>, tail: seq<seq<T>>, joins: (seq<T>, T) -> bool)
    requires JoinedRun(current, joins)
    requires forall k :: 0 <= k < |tail| ==> JoinedRun(tail[k], joins)
    ensures var rs := [current] + tail;
      forall k :: 0 <= k < |rs| ==> JoinedRun(rs[k], joins)
  {
    var rs := [current] + tail;
    forall k | 0 <= k < |rs| ensures JoinedRun(rs[k], joins) {
      if k > 0 {
        assert rs[k] == tail[k - 1];
      }
    }
  }

  lemma ConcatCons<T>(x: seq<T>, tail: seq<seq<T>>)
    ensures Concat([x] + tail) == x + Concat(tail)
  {
    assert ([x] + tail)[1..] == tail;
  }

  lemma PassCut<T>(current: seq<T>, rest: seq<T>, joins: (seq<T>, T) -> bool)
    requires JoinedRun(current, joins)
    requires rest != [] && !joins(current, rest[0])
    requires PassFacts([rest[0]], rest[1..], joins)
    ensures PassFacts(current, rest, joins)
  {
    var tail := Pass([rest[0]], rest[1..], joins);
    assert [rest[0]] + rest[1..] == rest;
    assert Pass(current, rest, joins) == [current] + tail;
    ConcatCons(current, tail);
    CutBoundaries(current, rest, tail, joins);
    RunsAfterCut(current, tail, joins);
  }

  /**
   * The greedy pass from a joined run is a greedy partition of the run and
   * the rest, and its first run extends the open one.
   */
  lemma {:induction false} PassPartition<T>(current: seq<T>, rest: seq<T>, joins: (seq<T>, T) -> bool)
    requires JoinedRun(current, joins)
    ensures var rs := Pass(current, rest, joins);
      && GreedyPartition(current + rest, rs, joins)
      && |rs| > 0 && |rs[0]| >= |current| && rs[0][..|current|] == current
    decreases |rest|
  {
    if rest == [] {
      PassEnd(current, joins);
    } else if joins(current, rest[0]) {
      JoinedRunExtend(current, rest[0], joins);
      PassPartition(current + [rest[0]], rest[1..], joins);
      PassJoin(current, rest, joins);
    } else {
      assert JoinedRun([rest[0]], joins);
      PassPartition([rest[0]], rest[1..], joins);
      PassCut(current, rest, joins);
    }
  }

  /** The greedy pass over a list is a greedy partition of it. */
  lemma CutIsPartition<T>(ps: seq<T>, joins: (seq<T>, T) -> bool)
    ensures GreedyPartition(ps, Cut(ps, joins), joins)
  {
    if ps != [] {
      assert JoinedRun([ps[0]], joins);
      PassPartition([ps[0]], ps[1..], joins);
      assert [ps[0]] + ps[1..] == ps;
    }
  }

  lemma {:induction false} ConcatLength<T>(rs: seq<seq<T>>)
    requires forall k :: 0 <= k < |rs| ==> |rs[k]| > 0
    ensures |Concat(rs)| >= |rs|
    ensures rs != [] ==> |Concat(rs)| >= |rs[0]|
  {
    if rs != [] {
      ConcatLength(rs[1..]);
    }
  }

  lemma GreedyPartitionTail<T>(ps: seq<T>, rs: seq<seq<T>>, joins: (seq<T>, T) -> bool)
    requires |rs| > 0 && GreedyPartition(ps, rs, joins)
    ensures GreedyPartition(Concat(rs[1..]), rs[1..], joins)
  {
    var tail := rs[1..];
    forall k | 0 < k < |tail| ensures |tail[k]| > 0 && !joins(tail[k - 1], tail[k][0]) {
      assert tail[k - 1] == rs[k] && tail[k] == rs[k + 1];
    }
  }

  lemma PartitionHead<T>(ps: seq<T>, rs: seq<seq<T>>, joins: (seq<T>, T) -> bool)
    requires |rs| > 0 && GreedyPartition(ps, rs, joins)
    ensures JoinedRun(rs[0], joins)
    ensures |rs[0]| <= |ps| && rs[0] == ps[..|rs[0]|] && Concat(rs[1..]) == ps[|rs[0]|..]
    ensures GreedyPartition(ps[|rs[0]|..], rs[1..], joins)
  {
    assert Concat(rs) == rs[0] + Concat(rs[1..]);
    assert JoinedRun(rs[0], joins);
    GreedyPartitionTail(ps, rs, joins);
  }

  lemma UniqueAtEnd<T>(current: seq<T>, rs: seq<seq<T>>, joins: (seq<T>, T) -> bool)
    requires GreedyPartition(current, rs, joins)
    requires |rs| > 0 && |rs[0]| >= |current| && rs[0][..|current|] == current
    ensures rs == [current]
  {
    PartitionHead(current, rs, joins);
    assert rs[0] == current;
    var tail := rs[1..];
    assert Concat(tail) == current[|current|..] == [];
    assert rs == [rs[0]] + tail;
  }

  lemma JoinStep<T>(current: seq<T>, rest: seq<T>, rs: seq<seq<T>>, joins: (seq<T>, T) -> bool)
    requires |current| > 0 && rest != []
    requires GreedyPartition(current + rest, rs, joins)
    requires |rs| > 0 && |rs[0]| > |current| && rs[0][..|current|] == current
    ensures joins(current, rest[0])
    ensures (current + [rest[0]]) + rest[1..] == current + rest
    ensures rs[0][..|current| + 1] == current + [rest[0]]
  {
    var all := current + rest;
    PartitionHead(all, rs, joins);
    assert rs[0][|current|] == all[|current|] == rest[0];
    assert rs[0][..|current|] == current;
    assert rs[0][..|current| + 1] == current + [rest[0]];
  }

  lemma CutStep<T>(current: seq<T>, rest: seq<T>, rs: seq<seq<T>>, joins: (seq<T>, T) -> bool)
    requires |current| > 0 && rest != []
    requires GreedyPartition(current + rest, rs, joins)
    requires |rs| > 0 && |rs[0]| == |current| && rs[0][..|current|] == current
    ensures |rs| > 1 && rs == [current] + rs[1..]
    ensures !joins(current, rest[0])
    ensures GreedyPartition([rest[0]] + rest[1..], rs[1..], joins)
    ensures |rs[1..][0]| >= 1 && rs[1..][0][..1] == [rest[0]]
  {
    var all := current + rest;
    PartitionHead(all, rs, joins);
    assert rs[0] == current;
    assert all[|current|..] == rest;
    var tail := rs[1..];
    assert Concat(tail) == rest;
    assert tail != [];
    PartitionHead(rest, tail, joins);
    assert tail[0][0] == rest[0];
    assert !joins(rs[0], rs[1][0]);
    assert [rest[0]] + rest[1..] == rest;
    assert rs == [current] + tail;
  }

  lemma {:induction false} PassUnique<T>(current: seq<T>, rest: seq<T>, rs: seq<seq<T>>, joins: (seq<T>, T) -> bool)
    requires |current| > 0
    requires GreedyPartition(current + rest, rs, joins)
    requires |rs| > 0 && |rs[0]| >= |current| && rs[0][..|current|] == current
    ensures Pass(current, rest, joins) == rs
    decreases |rest|
  {
    if rest == [] {
      assert current + rest == current;
      UniqueAtEnd(current, rs, joins);
    } else if |rs[0]| > |current| {
      JoinStep(current, rest, rs, joins);
      PassUnique(current + [rest[0]], rest[1..], rs, joins);
    } else {
      CutStep(current, rest, rs, joins);
      PassUnique([rest[0]], rest[1..], rs[1..], joins);
    }
  }

  /**
   * The greedy pass is the only greedy partition: any cut of the sorted list
   * into runs that obeys the join rule is exactly the one alignment computes.
   */
  lemma GreedyPartitionIsCut<T>(ps: seq<T>, rs: seq<seq<T>>, joins: (seq<T>, T) -> bool)
    requires GreedyPartition(ps, rs, joins)
    ensures rs == Cut(ps, joins)
  {
    ConcatLength(rs);
    if ps == [] {
      assert rs == [];
    } else {
      assert rs != [];
      assert Concat(rs) == rs[0] + Concat(rs[1..]);
      assert JoinedRun(rs[0], joins);
      assert rs[0][..1] == [ps[0]];
      assert [ps[0]] + ps[1..] == ps;
      PassUnique([ps[0]], ps[1..], rs, joins);
    }
  }

  lemma {:induction false} ConcatMembers<T>(rs: seq<seq<T>>)
    ensures forall k, x :: 0 <= k < |rs| && x in rs[k] ==> x in Concat(rs)
  {
    if rs != [] {
      ConcatMembers(rs[1..]);
      forall k, x | 0 < k < |rs| && x in rs[k] ensures x in Concat(rs) {
        assert rs[k] == rs[1..][k - 1];
      }
    }
  }
}
