// Lists without repetition, and books that say on which list every number is.
module Listings {

  predicate Distinct<T(==)>(c: seq<T>) {
    forall j, k :: 0 <= j < k < |c| ==> c[j] != c[k]
  }

  // c lists exactly the numbers that are at p.
  predicate Listed<T(==)>(place: seq<T>, c: seq<nat>, p: T) {
    && Distinct(c)
    && (forall v :: v in c ==> v < |place| && place[v] == p)
    && (forall v :: 0 <= v < |place| && place[v] == p ==> v in c)
  }

  lemma ListedPush<T>(place: seq<T>, c: seq<nat>, p: T, v: nat)
    requires Listed(place, c, p) && v < |place| && place[v] != p
    ensures Listed(place[v := p], [v] + c, p)
  {
  }

  lemma ListedPop<T>(place: seq<T>, c: seq<nat>, p: T, q: T)
    requires Listed(place, c, p) && c != [] && q != p
    ensures c[0] < |place| && Listed(place[c[0] := q], c[1..], p)
  {
    var d := c[1..];
    assert c == [c[0]] + d && c[0] in c;
    forall v | v in d ensures v in c && v != c[0] {
      var k :| 0 <= k < |d| && d[k] == v;
      assert c[k + 1] == v;
    }
  }

  lemma ListedOther<T>(place: seq<T>, c: seq<nat>, p: T, v: nat, q: T)
    requires Listed(place, c, p) && v < |place| && place[v] != p && q != p
    ensures Listed(place[v := q], c, p)
  {
  }

  // The same elements in another order.
  lemma ListedReordered<T>(place: seq<T>, c: seq<nat>, d: seq<nat>, p: T)
    requires Listed(place, c, p) && Distinct(d) && (forall v :: v in c <==> v in d)
    ensures Listed(place, d, p)
  {
  }

  lemma ListedMore<T>(place: seq<T>, c: seq<nat>, p: T, more: seq<T>)
    requires Listed(place, c, p) && p !in more
    ensures Listed(place + more, c, p)
  {
  }

  // Taking a number out of the middle of its list.
  lemma ListedRemove<T>(place: seq<T>, c: seq<nat>, p: T, j: nat, q: T)
    requires Listed(place, c, p) && j < |c| && q != p
    ensures c[j] < |place| && Listed(place[c[j] := q], c[..j] + c[j + 1..], p)
  {
    var d := c[..j] + c[j + 1..];
    assert c[j] in c;
    forall v | v in d ensures v in c && v != c[j] {
      var k :| 0 <= k < |d| && d[k] == v;
      assert v == c[if k < j then k else k + 1];
    }
    forall v | v in c && v != c[j] ensures v in d {
      var k :| 0 <= k < |c| && c[k] == v;
      assert v == d[if k < j then k else k - 1];
    }
  }
}
