/** Bounded selection: what a query with a filter, an order and a limit returns. */
module Selection {

  /** `taken` lists the first `limit` wanted elements of `visited`, each once and in the order of `visited`. */
  ghost predicate FirstOf<T>(visited: seq<T>, wanted: set<T>, taken: seq<T>, limit: nat) {
    exists at: seq<nat> :: FoundAt(visited, wanted, taken, limit, at)
  }

  /** Element `i` was taken at position `at[i]`, and nothing wanted was passed over before the limit was reached. */
  ghost predicate FoundAt<T>(visited: seq<T>, wanted: set<T>, taken: seq<T>, limit: nat, at: seq<nat>) {
    && |at| == |taken| <= limit
    && (forall i :: 0 <= i < |at| ==> at[i] < |visited| && visited[at[i]] == taken[i] && taken[i] in wanted)
    && (forall i, j :: 0 <= i < j < |at| ==> at[i] < at[j] && taken[i] != taken[j])
    && (forall q :: 0 <= q < |visited| && visited[q] in wanted ==>
          TakenBy(visited[q], taken, at, q) || FullBefore(taken, limit, at, q))
  }

  ghost predicate TakenBy<T>(x: T, taken: seq<T>, at: seq<nat>, q: nat)
    requires |at| == |taken|
  {
    exists i :: 0 <= i < |at| && taken[i] == x && at[i] <= q
  }

  ghost predicate FullBefore<T>(taken: seq<T>, limit: nat, at: seq<nat>, q: nat) {
    |taken| == limit && forall i :: 0 <= i < |at| ==> at[i] < q
  }

  lemma FirstOfNone<T>(visited: seq<T>, wanted: set<T>, limit: nat)
    ensures FirstOf(visited[..0], wanted, [], limit)
  {
    assert FoundAt(visited[..0], wanted, [], limit, []);
  }

  /** One more element is visited. */
  lemma FirstOfNext<T>(visited: seq<T>, wanted: set<T>, taken: seq<T>, limit: nat, n: nat)
    requires n < |visited| && FirstOf(visited[..n], wanted, taken, limit)
    ensures var x := visited[n];
      FirstOf(visited[..n + 1], wanted,
              if x in wanted && x !in taken && |taken| < limit then taken + [x] else taken, limit)
  {
    var x := visited[n];
    var at :| FoundAt(visited[..n], wanted, taken, limit, at);
    assert visited[..n + 1] == visited[..n] + [x];
    if x in wanted && x !in taken && |taken| < limit {
      Take(visited[..n], wanted, taken, limit, at, x);
      assert FoundAt(visited[..n + 1], wanted, taken + [x], limit, at + [n]);
    } else {
      Skip(visited[..n], wanted, taken, limit, at, x);
      assert FoundAt(visited[..n + 1], wanted, taken, limit, at);
    }
  }

  lemma Take<T>(visited: seq<T>, wanted: set<T>, taken: seq<T>, limit: nat, at: seq<nat>, x: T)
    requires FoundAt(visited, wanted, taken, limit, at) && x in wanted && x !in taken && |taken| < limit
    ensures FoundAt(visited + [x], wanted, taken + [x], limit, at + [|visited|])
  {
    var after, taken', at' := visited + [x], taken + [x], at + [|visited|];
    forall q | 0 <= q < |after| && after[q] in wanted ensures TakenBy(after[q], taken', at', q) {
      if q < |visited| {
        assert TakenBy(visited[q], taken, at, q);
        var i :| 0 <= i < |at| && taken[i] == visited[q] && at[i] <= q;
        assert taken'[i] == after[q] && at'[i] <= q;
      } else {
        assert taken'[|taken|] == x && at'[|at|] == q;
      }
    }
  }

  lemma Skip<T>(visited: seq<T>, wanted: set<T>, taken: seq<T>, limit: nat, at: seq<nat>, x: T)
    requires FoundAt(visited, wanted, taken, limit, at) && (x in wanted ==> x in taken || |taken| == limit)
    ensures FoundAt(visited + [x], wanted, taken, limit, at)
  {
    var after := visited + [x];
    forall q | 0 <= q < |after| && after[q] in wanted
      ensures TakenBy(after[q], taken, at, q) || FullBefore(taken, limit, at, q)
    {
      if q < |visited| {
        assert after[q] == visited[q];
      } else if x in taken {
        var i :| 0 <= i < |taken| && taken[i] == x;
        assert at[i] <= q;
      }
    }
  }

  /** The selection is determined by the order, the filter and the limit. */
  lemma {:induction false} FirstOfUnique<T>(visited: seq<T>, wanted: set<T>, taken: seq<T>, other: seq<T>, limit: nat)
    requires FirstOf(visited, wanted, taken, limit) && FirstOf(visited, wanted, other, limit)
    ensures taken == other
  {
    var at :| FoundAt(visited, wanted, taken, limit, at);
    var bt :| FoundAt(visited, wanted, other, limit, bt);
    AgreeUpTo(visited, wanted, taken, other, limit, at, bt, |taken|);
    AgreeUpTo(visited, wanted, other, taken, limit, bt, at, |other|);
  }

  ghost predicate Agree<T>(taken: seq<T>, other: seq<T>, at: seq<nat>, bt: seq<nat>, n: nat) {
    && |at| == |taken| && |bt| == |other| && n <= |taken| && n <= |other|
    && forall i :: 0 <= i < n ==> taken[i] == other[i] && at[i] == bt[i]
  }

  lemma {:induction false} AgreeUpTo<T>(visited: seq<T>, wanted: set<T>, taken: seq<T>, other: seq<T>, limit: nat,
                                        at: seq<nat>, bt: seq<nat>, n: nat)
    requires FoundAt(visited, wanted, taken, limit, at) && FoundAt(visited, wanted, other, limit, bt) && n <= |taken|
    ensures Agree(taken, other, at, bt, n)
  {
    if n > 0 {
      AgreeUpTo(visited, wanted, taken, other, limit, at, bt, n - 1);
      AgreeNext(visited, wanted, taken, other, limit, at, bt, n - 1);
    }
  }

  lemma {:induction false} AgreeNext<T>(visited: seq<T>, wanted: set<T>, taken: seq<T>, other: seq<T>, limit: nat,
                                        at: seq<nat>, bt: seq<nat>, k: nat)
    requires FoundAt(visited, wanted, taken, limit, at) && FoundAt(visited, wanted, other, limit, bt) && k < |taken|
    requires Agree(taken, other, at, bt, k)
    ensures Agree(taken, other, at, bt, k + 1)
  {
    NextAgrees(visited, wanted, taken, other, limit, at, bt, k);
    NextAgrees(visited, wanted, other, taken, limit, bt, at, k);
    assert visited[at[k]] == taken[k] && visited[bt[k]] == other[k];
  }

  /** The next element taken from one list is taken from the other, no later. */
  lemma {:induction false} NextAgrees<T>(visited: seq<T>, wanted: set<T>, taken: seq<T>, other: seq<T>, limit: nat,
                                         at: seq<nat>, bt: seq<nat>, k: nat)
    requires FoundAt(visited, wanted, taken, limit, at) && FoundAt(visited, wanted, other, limit, bt)
    requires k < |taken| && Agree(taken, other, at, bt, k)
    ensures k < |other| && bt[k] <= at[k]
  {
    var q := at[k];
    assert visited[q] in wanted;
    if TakenBy(visited[q], other, bt, q) {
      var i :| 0 <= i < |bt| && other[i] == visited[q] && bt[i] <= q;
      assert taken[k] == visited[q];
    } else {
      assert FullBefore(other, limit, bt, q);
      assert |other| == limit;
    }
  }

  lemma FirstOfMembers<T>(visited: seq<T>, wanted: set<T>, taken: seq<T>, limit: nat)
    requires FirstOf(visited, wanted, taken, limit)
    ensures |taken| <= limit && |taken| <= |visited|
    ensures forall i :: 0 <= i < |taken| ==> taken[i] in wanted
    ensures forall i, j :: 0 <= i < j < |taken| ==> taken[i] != taken[j]
    ensures forall x :: x in wanted && x in visited ==> x in taken || |taken| == limit
  {
    var at :| FoundAt(visited, wanted, taken, limit, at);
    Spread(at, |visited|);
    forall x | x in wanted && x in visited ensures x in taken || |taken| == limit {
      var q :| 0 <= q < |visited| && visited[q] == x;
      assert TakenBy(visited[q], taken, at, q) || FullBefore(taken, limit, at, q);
    }
  }

  /** Increasing positions below `n` are at most `n`. */
  lemma {:induction false} Spread(at: seq<nat>, n: nat)
    requires forall i :: 0 <= i < |at| ==> at[i] < n
    requires forall i, j :: 0 <= i < j < |at| ==> at[i] < at[j]
    ensures |at| <= n
  {
    if at != [] {
      var k := |at| - 1;
      Spread(at[..k], at[k]);
    }
  }
}
