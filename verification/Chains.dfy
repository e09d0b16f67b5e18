// Singly linked chains through an array of links.
module Chains {
  import opened Listings

  function At(c: seq<nat>, k: nat, tail: nat): nat {
    if k < |c| then c[k] else tail
  }

  // Following next from head gives the elements of c and then tail.
  predicate LinkedTo(next: seq<nat>, head: nat, c: seq<nat>, tail: nat) {
    && head == At(c, 0, tail)
    && forall k :: 0 <= k < |c| ==> c[k] < |next| && next[c[k]] == At(c, k + 1, tail)
  }

  lemma LinkedStore(next: seq<nat>, head: nat, c: seq<nat>, tail: nat, v: nat, x: nat)
    requires LinkedTo(next, head, c, tail) && v < |next| && v !in c
    ensures LinkedTo(next[v := x], head, c, tail)
  {
  }

  lemma LinkedMore(next: seq<nat>, head: nat, c: seq<nat>, tail: nat, more: seq<nat>)
    requires LinkedTo(next, head, c, tail)
    ensures LinkedTo(next + more, head, c, tail)
  {
  }

  lemma LinkedPush(next: seq<nat>, head: nat, c: seq<nat>, tail: nat, v: nat)
    requires LinkedTo(next, head, c, tail) && v < |next| && next[v] == head
    ensures LinkedTo(next, v, [v] + c, tail)
  {
    var d := [v] + c;
    forall k | 0 <= k < |d| ensures d[k] < |next| && next[d[k]] == At(d, k + 1, tail) {
      if k > 0 {
        assert d[k] == c[k - 1];
      }
    }
  }

  lemma LinkedPop(next: seq<nat>, head: nat, c: seq<nat>, tail: nat)
    requires LinkedTo(next, head, c, tail) && c != []
    ensures head == c[0] < |next| && next[head] == At(c, 1, tail) && LinkedTo(next, next[head], c[1..], tail)
  {
    var d := c[1..];
    forall k | 0 <= k < |d| ensures d[k] < |next| && next[d[k]] == At(d, k + 1, tail) {
      assert d[k] == c[k + 1];
    }
  }

  lemma LinkedJoin(next: seq<nat>, head: nat, c: seq<nat>, middle: nat, d: seq<nat>, tail: nat)
    requires LinkedTo(next, head, c, middle) && LinkedTo(next, middle, d, tail)
    ensures LinkedTo(next, head, c + d, tail)
  {
    var e := c + d;
    forall k | 0 <= k < |e| ensures e[k] < |next| && next[e[k]] == At(e, k + 1, tail) {
      if k < |c| {
        assert e[k] == c[k];
      } else {
        assert e[k] == d[k - |c|];
      }
    }
  }

  // Storing into the last element of a chain changes what comes after it.
  lemma LinkedLast(next: seq<nat>, head: nat, c: seq<nat>, tail: nat, x: nat)
    requires LinkedTo(next, head, c, tail) && c != [] && Distinct(c)
    ensures LinkedTo(next[c[|c| - 1] := x], head, c, x)
  {
  }

  // Leaving out the element at place j: what pointed to it points past it.
  lemma LinkedRemove(next: seq<nat>, head: nat, c: seq<nat>, tail: nat, j: nat)
    requires LinkedTo(next, head, c, tail) && Distinct(c) && 0 < j < |c|
    ensures c[j - 1] < |next| && c[j] < |next|
    ensures LinkedTo(next[c[j - 1] := next[c[j]]], head, c[..j] + c[j + 1..], tail)
  {
    hide At, Distinct;
    var d := c[..j] + c[j + 1..];
    var next' := next[c[j - 1] := next[c[j]]];
    forall k | 0 <= k < |d| ensures d[k] < |next'| && next'[d[k]] == At(d, k + 1, tail) {
      StaysLinked(next, head, c, tail, j, k, d);
    }
    RemovedAt(c, j, 0, tail);
  }

  lemma StaysLinked(next: seq<nat>, head: nat, c: seq<nat>, tail: nat, j: nat, k: nat, d: seq<nat>)
    requires LinkedTo(next, head, c, tail) && Distinct(c) && 0 < j < |c| && d == c[..j] + c[j + 1..] && k < |d|
    ensures c[j - 1] < |next| && c[j] < |next| && d[k] < |next|
    ensures next[c[j - 1] := next[c[j]]][d[k]] == At(d, k + 1, tail)
  {
    hide At;
    var m := if k < j then k else k + 1;
    RemovedAt(c, j, k, tail);
    RemovedAt(c, j, k + 1, tail);
    assert d[k] == c[m] && next[c[m]] == At(c, m + 1, tail);
    assert m != j - 1 ==> c[m] != c[j - 1];
  }

  lemma RemovedAt(c: seq<nat>, j: nat, k: nat, tail: nat)
    requires j < |c|
    ensures At(c[..j] + c[j + 1..], k, tail) == (if k < j then At(c, k, tail) else At(c, k + 1, tail))
  {
  }
}
