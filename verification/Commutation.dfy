// What independence buys: steps that commute pairwise may be reordered wholesale.
// Generic in the state, so that it serves both the file tree the opcodes describe
// and the store the backend keeps.
module Commutation {
  // Running a trace gives the final state and, step by step, what each step answered.
  ghost function Run<S, O, R>(step: (S, O) -> (S, R), s: S, ops: seq<O>): (r: (S, seq<R>))
    ensures |r.1| == |ops|
    decreases |ops|
  {
    if ops == [] then (s, [])
    else
      var (s1, answer) := step(s, ops[0]);
      var (s2, answers) := Run(step, s1, ops[1..]);
      (s2, [answer] + answers)
  }

  // Two steps commute when either order leaves the same state and each of them
  // answers the same in both.
  ghost predicate CommuteAt<S, O, R>(step: (S, O) -> (S, R), s: S, a: O, b: O) {
    var (sa, ra) := step(s, a);
    var (sab, rab) := step(sa, b);
    var (sb, rb) := step(s, b);
    var (sba, rba) := step(sb, a);
    sab == sba && ra == rba && rab == rb
  }

  ghost predicate Commute<S(!new), O, R>(step: (S, O) -> (S, R), a: O, b: O) {
    forall s :: CommuteAt(step, s, a, b)
  }

  lemma {:induction false} RunSplits<S, O, R>(step: (S, O) -> (S, R), s: S, a: seq<O>, b: seq<O>)
    ensures var (sa, ra) := Run(step, s, a);
            var (sb, rb) := Run(step, sa, b);
            Run(step, s, a + b) == (sb, ra + rb)
    decreases |a|
  {
    if a == [] {
      assert a + b == b;
      assert [] + Run(step, s, b).1 == Run(step, s, b).1;
    } else {
      RunSplits(step, step(s, a[0]).0, a[1..], b);
      assert (a + b)[0] == a[0] && (a + b)[1..] == a[1..] + b;
      var (sa, ra) := Run(step, s, a);
      var (sb, rb) := Run(step, sa, b);
      var answer := step(s, a[0]).1;
      var ra' := Run(step, step(s, a[0]).0, a[1..]).1;
      assert ra == [answer] + ra';
      assert [answer] + (ra' + rb) == ra + rb;
    }
  }

  // A step that commutes with everything after it can go last.
  lemma {:induction false} MoveToEnd<S(!new), O, R>(step: (S, O) -> (S, R), s: S, x: O, rest: seq<O>)
    requires forall i | 0 <= i < |rest| :: Commute(step, x, rest[i])
    ensures var (s1, first) := Run(step, s, [x] + rest);
            var (s2, last) := Run(step, s, rest + [x]);
            s1 == s2 && last == first[1..] + [first[0]]
    decreases |rest|
  {
    assert ([x] + rest)[1..] == rest;
    if rest == [] {
      assert rest + [x] == [x] + rest;
    } else {
      var y, tail := rest[0], rest[1..];
      assert Commute(step, x, y);
      assert CommuteAt(step, s, x, y);
      var (sx, rx) := step(s, x);
      var (sy, ry) := step(s, y);
      forall i | 0 <= i < |tail| ensures Commute(step, x, tail[i]) {
        assert tail[i] == rest[i + 1];
      }
      MoveToEnd(step, sy, x, tail);
      assert ([x] + tail)[1..] == tail;
      assert (rest + [x])[0] == y && (rest + [x])[1..] == tail + [x];
      assert step(sx, y) == (step(sy, x).0, ry);
    }
  }

  ghost predicate IsPermutation(pi: seq<nat>, n: nat) {
    && |pi| == n
    && (forall i | 0 <= i < n :: pi[i] < n)
    && (forall v: nat | v < n :: v in pi)
    && (forall i, j | 0 <= i < j < n :: pi[i] != pi[j])
  }

  ghost function Permuted<O>(ops: seq<O>, pi: seq<nat>): (r: seq<O>)
    requires forall i | 0 <= i < |pi| :: pi[i] < |ops|
    ensures |r| == |pi|
  {
    seq(|pi|, i requires 0 <= i < |pi| => ops[pi[i]])
  }

  // Whatever pi brings forward past something later was independent of it.
  ghost predicate OnlySwaps<O>(indep: (O, O) -> bool, ops: seq<O>, pi: seq<nat>)
    requires IsPermutation(pi, |ops|)
  {
    forall i, j | 0 <= i < j < |pi| && pi[i] > pi[j] :: indep(ops[pi[i]], ops[pi[j]])
  }

  lemma DropLast(pi: seq<nat>, n: nat) returns (j: nat, rest: seq<nat>)
    requires n > 0 && IsPermutation(pi, n)
    ensures j < n && pi[j] == n - 1 && rest == pi[..j] + pi[j + 1..]
    ensures IsPermutation(rest, n - 1)
  {
    assert n - 1 in pi;
    j :| 0 <= j < n && pi[j] == n - 1;
    rest := pi[..j] + pi[j + 1..];
    forall i | 0 <= i < n - 1 ensures rest[i] < n - 1 {
      assert rest[i] == pi[if i < j then i else i + 1];
    }
    forall v: nat | v < n - 1 ensures v in rest {
      assert v in pi;
      var k :| 0 <= k < n && pi[k] == v;
      assert rest[if k < j then k else k - 1] == v;
    }
  }

  // A step in the middle of a trace, taken out and put at the end.
  lemma Postpone<S(!new), O, R>(step: (S, O) -> (S, R), s: S, a: seq<O>, x: O, b: seq<O>)
    returns (ra: seq<R>, rx: R, rb: seq<R>)
    requires forall i | 0 <= i < |b| :: Commute(step, x, b[i])
    ensures Run(step, s, a + ([x] + b)).0 == Run(step, s, a + b + [x]).0
    ensures Run(step, s, a + ([x] + b)).1 == ra + ([rx] + rb)
    ensures Run(step, s, a + b).1 == ra + rb
    ensures Run(step, s, a + b + [x]).1 == ra + rb + [rx]
    ensures |ra| == |a|
  {
    var sa := Run(step, s, a).0;
    ra := Run(step, s, a).1;
    var first, last := Run(step, sa, [x] + b), Run(step, sa, b + [x]);
    MoveToEnd(step, sa, x, b);
    rx, rb := first.1[0], first.1[1..];
    RunSplits(step, s, a, [x] + b);
    assert first.1 == [rx] + rb;
    RunSplits(step, sa, b, [x]);
    assert Run(step, sa, b).1 == last.1[..|b|] == rb;
    RunSplits(step, s, a, b);
    RunSplits(step, s, a, b + [x]);
    assert a + b + [x] == a + (b + [x]);
    assert ra + rb + [rx] == ra + (rb + [rx]);
  }

  lemma RemoveLast<O>(indep: (O, O) -> bool, ops: seq<O>, pi: seq<nat>, j: nat, rest: seq<nat>)
    requires |ops| > 0 && IsPermutation(pi, |ops|) && OnlySwaps(indep, ops, pi)
    requires j < |pi| && pi[j] == |ops| - 1 && rest == pi[..j] + pi[j + 1..]
    requires IsPermutation(rest, |ops| - 1)
    ensures OnlySwaps(indep, ops[..|ops| - 1], rest)
    ensures var all := Permuted(ops, pi);
            && all == all[..j] + ([ops[|ops| - 1]] + all[j + 1..])
            && Permuted(ops[..|ops| - 1], rest) == all[..j] + all[j + 1..]
            && forall k | j < k < |all| :: indep(ops[|ops| - 1], all[k])
  {
    var n := |ops|;
    var before, all := ops[..n - 1], Permuted(ops, pi);
    forall i, k | 0 <= i < k < |rest| && rest[i] > rest[k] ensures indep(before[rest[i]], before[rest[k]]) {
      var i', k' := if i < j then i else i + 1, if k < j then k else k + 1;
      assert pi[i'] == rest[i] && pi[k'] == rest[k];
    }
    assert Permuted(before, rest) == all[..j] + all[j + 1..];
    forall k | j < k < n ensures indep(ops[n - 1], all[k]) {
      assert pi[j] > pi[k];
    }
  }

  // Any order that swaps only independent steps reaches the same state, and every
  // step answers what it answered before.
  lemma {:induction false} Reorder<S(!new), O(!new), R>(
      step: (S, O) -> (S, R), indep: (O, O) -> bool, s: S, ops: seq<O>, pi: seq<nat>)
    requires forall a, b | indep(a, b) :: Commute(step, a, b)
    requires IsPermutation(pi, |ops|) && OnlySwaps(indep, ops, pi)
    ensures Run(step, s, Permuted(ops, pi)).0 == Run(step, s, ops).0
    ensures Run(step, s, Permuted(ops, pi)).1 == Permuted(Run(step, s, ops).1, pi)
    decreases |ops|
  {
    if |ops| > 0 {
      var n := |ops|;
      var x, before := ops[n - 1], ops[..n - 1];
      var j, rest := DropLast(pi, n);
      RemoveLast(indep, ops, pi, j, rest);
      var a, b := Permuted(ops, pi)[..j], Permuted(ops, pi)[j + 1..];
      forall i | 0 <= i < |b| ensures Commute(step, x, b[i]) {
        assert b[i] == Permuted(ops, pi)[j + 1 + i];
      }
      var ra, rx, rb := Postpone(step, s, a, x, b);
      Reorder(step, indep, s, before, rest);
      assert ops == before + [x];
      RunSplits(step, s, before, [x]);
      RunSplits(step, s, a + b, [x]);
      var sb := Run(step, s, before).0;
      assert Run(step, s, a + b + [x]).1 == (ra + rb) + Run(step, sb, [x]).1;
      assert Run(step, sb, [x]).1 == [rx] by {
        assert ((ra + rb) + [rx])[|ra + rb|..] == [rx];
        assert ((ra + rb) + Run(step, sb, [x]).1)[|ra + rb|..] == Run(step, sb, [x]).1;
      }
      assert Run(step, s, ops).1 == Run(step, s, before).1 + [rx];
      AnswersFollow(Run(step, s, ops).1, Run(step, s, before).1, pi, j, rest, ra, rx, rb);
    }
  }

  lemma AnswersFollow<R>(answers: seq<R>, before: seq<R>, pi: seq<nat>, j: nat, rest: seq<nat>,
                         ra: seq<R>, rx: R, rb: seq<R>)
    requires |answers| > 0 && IsPermutation(pi, |answers|)
    requires j < |pi| && pi[j] == |answers| - 1 && rest == pi[..j] + pi[j + 1..]
    requires IsPermutation(rest, |answers| - 1)
    requires answers == before + [rx]
    requires |ra| == j && ra + rb == Permuted(before, rest)
    ensures ra + ([rx] + rb) == Permuted(answers, pi)
  {
    var permuted := ra + ([rx] + rb);
    assert |permuted| == |ra + rb| + 1;
    forall i | 0 <= i < |pi| ensures permuted[i] == answers[pi[i]] {
      if i < j {
        assert permuted[i] == (ra + rb)[i] && rest[i] == pi[i];
      } else if i > j {
        assert permuted[i] == (ra + rb)[i - 1] && rest[i - 1] == pi[i];
      }
    }
  }
}
