// The hashtable: chained buckets over one entry array with a list of free entries.
module Hashtable {
  import opened Chains
  import opened Listings
  import opened HashChains
  import opened PowersOfTwo

  const UNUSED := 0xFFFF_FFFF
  const MAXIMUM_HASH := 0x8000_0000

  // The Next fields of the entries are kept in a sequence of their own.
  datatype Option<T> = None | Some(value: T)

  datatype Entry<T> = Entry(hashCode: nat, body: T)

  // The bodies of the entries in use.
  ghost function Bodies<T>(entries: seq<Entry<T>>): set<T> {
    set v | 0 <= v < |entries| && entries[v].hashCode != UNUSED :: entries[v].body
  }

  // How many entries are not free.
  ghost function InUse(place: seq<Place>): nat {
    if place == [] then 0 else InUse(place[..|place| - 1]) + (if place[|place| - 1] == Free then 0 else 1)
  }

  lemma {:induction false} InUseUpdate(place: seq<Place>, v: nat, p: Place)
    requires v < |place|
    ensures InUse(place[v := p]) == InUse(place) + (if p == Free then 0 else 1) - (if place[v] == Free then 0 else 1)
  {
    var n := |place| - 1;
    if v < n {
      assert place[v := p][..n] == place[..n][v := p];
      InUseUpdate(place[..n], v, p);
    } else {
      assert place[v := p][..n] == place[..n];
    }
  }

  lemma InUseMore(place: seq<Place>, p: Place)
    ensures InUse(place + [p]) == InUse(place) + (if p == Free then 0 else 1)
  {
    assert (place + [p])[..|place|] == place;
  }

  lemma {:induction false} InUseSame(a: seq<Place>, b: seq<Place>)
    requires |a| == |b| && forall v :: 0 <= v < |a| ==> (a[v] == Free <==> b[v] == Free)
    ensures InUse(a) == InUse(b)
  {
    if a != [] {
      InUseSame(a[..|a| - 1], b[..|b| - 1]);
    }
  }

  // Hash & MAXLONG
  function ValidateHash(hash: nat): nat { hash % MAXIMUM_HASH }

  // The highest of the 32 bits is dropped and the others are kept, so that no hash code is
  // that of an unused entry.
  lemma HashValidated(hash: nat)
    requires hash < 0x8000_0000
    ensures ValidateHash(hash) == ValidateHash(hash + 0x8000_0000) == hash != UNUSED
  {}

  // The compare function is an equivalence that the hash function respects.
  ghost predicate Lawful<T(!new)>(hash: T -> nat, same: (T, T) -> bool) {
    && (forall x :: same(x, x))
    && (forall x, y :: same(x, y) ==> same(y, x) && hash(x) == hash(y))
    && (forall x, y, z :: same(x, y) && same(y, z) ==> same(x, z))
  }

  // Every entry up to n is on the chain that its hash code calls for, among m buckets;
  // those from n on that are not free are loose.
  ghost predicate PlacedUpto<T>(entries: seq<Entry<T>>, hash: T -> nat, m: nat, place: seq<Place>, n: nat)
    requires 0 < m
  {
    && |place| == |entries|
    && forall v :: 0 <= v < |entries| ==> PlacedAt(entries[v], hash, m, place[v], v < n)
  }

  ghost predicate PlacedAt<T>(e: Entry<T>, hash: T -> nat, m: nat, p: Place, done: bool)
    requires 0 < m
  {
    match p
    case Free => e.hashCode == UNUSED
    case Loose => !done && e.hashCode == ValidateHash(hash(e.body))
    case Bucket(k) => done && e.hashCode == ValidateHash(hash(e.body)) && k == e.hashCode % m
  }

  // No two entries in use are the same to the compare function.
  ghost predicate Unique<T>(entries: seq<Entry<T>>, same: (T, T) -> bool) {
    forall u, v :: 0 <= u < |entries| && 0 <= v < |entries| && u != v && entries[u].hashCode != UNUSED && entries[v].hashCode != UNUSED ==>
      !same(entries[u].body, entries[v].body)
  }

  // What is true of the entries, whatever the buckets are.
  ghost predicate Filled<T>(entries: seq<Entry<T>>, hash: T -> nat, same: (T, T) -> bool, m: nat, place: seq<Place>, count: nat)
    requires 0 < m
  {
    PlacedUpto(entries, hash, m, place, |entries|) && Unique(entries, same) && count == InUse(place)
  }

  class Hashtable<T(!new, ==)> {
    const hash: T -> nat
    const same: (T, T) -> bool
    var buckets: seq<nat>
    // the entries below NextEntry; there is room for allocatedEntries
    var entries: seq<Entry<T>>
    var next: seq<nat>
    var allocatedEntries: nat
    var count: nat
    var freeEntry: nat
    ghost var books: Books

    ghost predicate Valid()
      reads this
    {
      && 0 < |buckets| == allocatedEntries && |entries| <= allocatedEntries && Lawful(hash, same)
      && IsPowerOfTwo(|buckets|) && |buckets| <= MOST_BUCKETS
      && Kept(next, buckets, freeEntry, books)
      && Filled(entries, hash, same, |buckets|, books.place, count)
    }

    // There is neither a free nor an unused entry.
    ghost predicate MustGrow()
      reads this
    {
      freeEntry == NONE && |entries| == allocatedEntries
    }

    // What the table holds.
    ghost function Contents(): set<T>
      reads this
    {
      Bodies(entries)
    }

    constructor (hash: T -> nat, same: (T, T) -> bool, initialCapacity: nat)
      requires Lawful(hash, same) && initialCapacity <= MOST_BUCKETS
      ensures Valid() && IsPowerOfTwo(|buckets|) && Contents() == {} && count == 0 && this.hash == hash && this.same == same
      ensures initialCapacity <= |buckets| && (|buckets| == 1 || |buckets| < 2 * initialCapacity)
    {
      var capacity := if initialCapacity == 0 then 1 else initialCapacity;
      var n := RoundUpToPowerOfTwo(capacity, 1);
      NoBuckets(capacity);
      FewBuckets(n);
      this.hash, this.same := hash, same;
      buckets := seq(n, _ => NONE);
      entries, next, allocatedEntries, count, freeEntry := [], [], n, 0, NONE;
      books := Books(seq(n, _ => []), [], []);
    }

    // Walks one bucket; found is the entry that is the same as x, NONE if there is none.
    // before is the entry that links to it, NONE if the bucket does.
    method Locate(x: T, hashCode: nat, index: nat) returns (found: nat, before: nat, ghost j: nat)
      requires Valid() && hashCode == ValidateHash(hash(x)) && index == hashCode % |buckets|
      ensures found == NONE ==> Fresh(entries, same, x)
      ensures found != NONE ==>
        && found < |entries| && entries[found].hashCode != UNUSED && same(entries[found].body, x)
        && index < |books.chains| && j < |books.chains[index]| && books.chains[index][j] == found
        && before == (if j == 0 then NONE else books.chains[index][j - 1])
    {
      hide Fresh, Kept, PlacedUpto, Listed, Unique, InUse, Lawful, IsPowerOfTwo, ValidateHash;
      ChainKept(next, buckets, freeEntry, books, index);
      found, before, j := buckets[index], NONE, 0;
      ghost var c := books.chains[index];
      while found != NONE
        invariant j <= |c| && found == At(c, j, NONE) && before == (if j == 0 then NONE else c[j - 1])
        invariant forall m :: 0 <= m < j ==> c[m] < |entries| && !same(entries[c[m]].body, x)
        decreases |c| - j
      {
        ChainStep(next, buckets, freeEntry, books, index, j);
        InUseOnChain(entries, hash, same, |buckets|, books.place, c, x, index, j);
        if entries[found].hashCode == hashCode && same(entries[found].body, x) {
          return;
        }
        before := found;
        found := next[found];
        j := j + 1;
      }
      assert j == |c| by {
        if j < |c| { ChainStep(next, buckets, freeEntry, books, index, j); }
      }
      NotInBucket(entries, hash, same, |buckets|, books.place, c, x, index);
    }

    // PhFindEntryHashtable
    method Find(x: T) returns (found: bool, body: T)
      requires Valid()
      ensures found <==> exists y :: y in Contents() && same(y, x)
      ensures found ==> body in Contents() && same(body, x)
    {
      var hashCode := ValidateHash(hash(x));
      var i, before, j := Locate(x, hashCode, hashCode % |buckets|);
      found := i != NONE;
      body := if found then entries[i].body else x;
    }

    // PhpResizeHashtable: distributes the entries over new buckets.
    method Resize(newCapacity: nat)
      requires Valid() && 2 * |buckets| <= newCapacity <= MOST_BUCKETS
      modifies `buckets, `next, `allocatedEntries, `books
      ensures Valid() && allocatedEntries >= newCapacity && |entries| < allocatedEntries
      ensures |buckets| < 2 * newCapacity && (IsPowerOfTwo(newCapacity) ==> |buckets| == newCapacity)
    {
      var n := RoundUpToPowerOfTwo(newCapacity, 1);
      NoBuckets(newCapacity);
      FewBuckets(n);
      if IsPowerOfTwo(newCapacity) {
        PowersApart(n, newCapacity);
      }
      Emptied(next, buckets, freeEntry, books.chains, books.free, books.place, n);
      LoosenedPlaced(entries, hash, |buckets|, books.place, n);
      buckets, allocatedEntries, books := seq(n, _ => NONE), n, Books(seq(n, _ => []), books.free, Loosened(books.place));
      Distribute(n);
    }

    method Distribute(n: nat)
      requires 0 < n == |buckets| && Kept(next, buckets, freeEntry, books)
      requires PlacedUpto(entries, hash, n, books.place, 0) && InUse(books.place) == count
      modifies `buckets, `next, `books
      ensures |buckets| == n && Kept(next, buckets, freeEntry, books)
      ensures PlacedUpto(entries, hash, n, books.place, |entries|) && InUse(books.place) == count
    {
      var i := 0;
      while i < |entries|
        invariant i <= |entries| && |buckets| == n && Kept(next, buckets, freeEntry, books)
        invariant PlacedUpto(entries, hash, n, books.place, i) && InUse(books.place) == count
      {
        DistributeOne(i, n);
        i := i + 1;
      }
    }

    method DistributeOne(i: nat, n: nat)
      requires i < |entries| && 0 < n == |buckets| && Kept(next, buckets, freeEntry, books)
      requires PlacedUpto(entries, hash, n, books.place, i) && InUse(books.place) == count
      modifies `buckets, `next, `books
      ensures |buckets| == n && Kept(next, buckets, freeEntry, books)
      ensures PlacedUpto(entries, hash, n, books.place, i + 1) && InUse(books.place) == count
    {
      if entries[i].hashCode != UNUSED {
        var index := entries[i].hashCode % n;
        PushBucket(next, buckets, freeEntry, books.chains, books.free, books.place, i, index);
        InUseUpdate(books.place, i, Bucket(index));
        next, buckets, books := next[i := buckets[index]], buckets[index := i], InBucket(books, i, index);
      }
    }

    // Takes the first free entry for x.
    method UseFree(x: T, hashCode: nat, index: nat)
      requires Valid() && freeEntry != NONE && hashCode == ValidateHash(hash(x)) && index == hashCode % |buckets| && Fresh(entries, same, x)
      modifies `buckets, `entries, `next, `freeEntry, `count, `books
      ensures Valid() && Contents() == old(Contents()) + {x} && count == old(count) + 1
    {
      var v := freeEntry;
      hide Kept, Filled, Lawful, IsPowerOfTwo, Bodies, Fresh;
      KeptSizes(next, buckets, freeEntry, books);
      FilledSize(entries, hash, same, |buckets|, books.place, count);
      FreeTaken(next, buckets, freeEntry, books, index);
      FilledStored(entries, hash, same, |buckets|, books.place, count, v, Entry(hashCode, x), index);
      entries, freeEntry, next, buckets, count, books :=
        entries[v := Entry(hashCode, x)], next[v], next[v := buckets[index]], buckets[index := v], count + 1, FreeInBucket(books, v, index);
    }

    // Takes the entry behind the last one for x.
    method UseNext(x: T, hashCode: nat, index: nat)
      requires Valid() && |entries| < allocatedEntries && |entries| + 1 < NONE
      requires hashCode == ValidateHash(hash(x)) && index == hashCode % |buckets| && Fresh(entries, same, x)
      modifies `buckets, `entries, `next, `count, `books
      ensures Valid() && Contents() == old(Contents()) + {x} && count == old(count) + 1 && |buckets| == old(|buckets|)
    {
      hide Kept, Filled, Lawful, IsPowerOfTwo, Bodies, Fresh;
      KeptSizes(next, buckets, freeEntry, books);
      FilledSize(entries, hash, same, |buckets|, books.place, count);
      NextTaken(next, buckets, freeEntry, books, index);
      FilledAppended(entries, hash, same, |buckets|, books.place, count, Entry(hashCode, x), index);
      entries, next, buckets, count, books :=
        entries + [Entry(hashCode, x)], next + [buckets[index]], buckets[index := |entries|], count + 1, NextInBucket(books, index);
    }

    // PhpAddEntryHashtable; the entry that is the same as x is returned if there is one.
    method Add(x: T) returns (added: bool, body: T)
      requires Valid() && (MustGrow() ==> |buckets| < MOST_BUCKETS)
      modifies this
      ensures Valid()
      ensures added <==> forall y :: y in old(Contents()) ==> !same(y, x)
      ensures added ==> body == x && Contents() == old(Contents()) + {x} && count == old(count) + 1
      ensures !added ==> body in old(Contents()) && same(body, x) && Contents() == old(Contents()) && count == old(count)
      ensures |buckets| == (if added && old(MustGrow()) then 2 else 1) * old(|buckets|)
    {
      var hashCode := ValidateHash(hash(x));
      var index := hashCode % |buckets|;
      var i, before, j := Locate(x, hashCode, index);
      if i != NONE {
        return false, entries[i].body;
      }
      if freeEntry != NONE {
        UseFree(x, hashCode, index);
      } else {
        if |entries| == allocatedEntries {
          BelowMost(|buckets|);
          Twice(|buckets|);
          Resize(|buckets| * 2);
          index := hashCode % |buckets|;
        }
        UseNext(x, hashCode, index);
      }
      added, body := true, x;
    }

    // PhRemoveEntryHashtable
    method Remove(x: T) returns (removed: bool, ghost body: T)
      requires Valid()
      modifies `buckets, `entries, `next, `freeEntry, `count, `books
      ensures Valid()
      ensures removed <==> exists y :: y in old(Contents()) && same(y, x)
      ensures removed ==> body in old(Contents()) && same(body, x) && Contents() == old(Contents()) - {body} && count == old(count) - 1
      ensures !removed ==> Contents() == old(Contents()) && count == old(count)
    {
      var hashCode := ValidateHash(hash(x));
      var index := hashCode % |buckets|;
      var i, before, j := Locate(x, hashCode, index);
      removed, body := i != NONE, x;
      if removed {
        body := entries[i].body;
        assert body in Contents();
        Unlink(i, before, index, j);
      }
    }

    // Takes entry i out of its bucket and puts it on the free list.
    method Unlink(i: nat, before: nat, index: nat, ghost j: nat)
      requires Valid() && i < |entries| && entries[i].hashCode != UNUSED
      requires index < |books.chains| && j < |books.chains[index]| && books.chains[index][j] == i
      requires before == (if j == 0 then NONE else books.chains[index][j - 1])
      modifies `buckets, `entries, `next, `freeEntry, `count, `books
      ensures Valid() && Contents() == old(Contents()) - {old(entries)[i].body} && count == old(count) - 1
    {
      hide Kept, Filled, Lawful, IsPowerOfTwo, Bodies;
      KeptSizes(next, buckets, freeEntry, books);
      FilledSize(entries, hash, same, |buckets|, books.place, count);
      ghost var b := books;
      UnlinkFromBucket(i, before, index, j);
      Returned(next, buckets, freeEntry, books, i);
      FilledWithout(entries, hash, same, |buckets|, b.place, count, i, entries[i].(hashCode := UNUSED));
      assert b.place[i := Loose][i := Free] == b.place[i := Free];
      entries, next, freeEntry, count, books :=
        entries[i := entries[i].(hashCode := UNUSED)], next[i := freeEntry], i, count - 1, Freed(books, i);
    }

    method UnlinkFromBucket(i: nat, before: nat, index: nat, ghost j: nat)
      requires Kept(next, buckets, freeEntry, books) && index < |buckets| && j < |books.chains[index]| && books.chains[index][j] == i
      requires before == (if j == 0 then NONE else books.chains[index][j - 1])
      modifies `buckets, `next, `books
      ensures i < |next| == |old(next)| && |buckets| == old(|buckets|)
      ensures books.place == old(books).place[i := Loose] && Kept(next, buckets, freeEntry, books)
    {
      Dropped(next, buckets, freeEntry, books, index, j);
      books := OutOfBucket(books, index, j);
      if before == NONE {
        buckets := buckets[index := next[i]];
      } else {
        next := next[before := next[i]];
      }
    }

    // PhClearHashtable
    method Clear()
      requires Valid()
      modifies `buckets, `entries, `next, `count, `freeEntry, `books
      ensures Valid() && Contents() == {} && count == 0
    {
      if count > 0 {
        var n := |buckets|;
        buckets, books := seq(n, _ => NONE), Books(seq(n, _ => []), [], []);
        entries, next, count, freeEntry := [], [], 0, NONE;
      } else {
        NothingInUse(entries, hash, |buckets|, books.place);
      }
    }

    // PhEnumHashtable
    method Next(key: nat) returns (r: Option<T>, key': nat)
      requires Valid()
      ensures key <= key' && (forall v :: key <= v < (if r.Some? then key' - 1 else |entries|) && v < |entries| ==> entries[v].hashCode == UNUSED)
      ensures r.Some? ==> key < key' <= |entries| && entries[key' - 1].hashCode != UNUSED && r == Some(entries[key' - 1].body)
    {
      hide Kept, Filled;
      key' := key;
      while key' < |entries|
        invariant key <= key' && forall v :: key <= v < key' && v < |entries| ==> entries[v].hashCode == UNUSED
      {
        key' := key' + 1;
        if entries[key' - 1].hashCode != UNUSED {
          return Some(entries[key' - 1].body), key';
        }
      }
      r := None;
    }

    // Calling PhEnumHashtable until it has no more entries.
    method Enumerate() returns (bodies: seq<T>)
      requires Valid()
      ensures bodies == Listing(entries) && |bodies| == count
    {
      ListingSize(entries, hash, |buckets|, books.place);
      bodies := [];
      var key, more := 0, true;
      while more
        invariant key <= |entries| && Listing(entries) == bodies + (if more then Listing(entries[key..]) else [])
        decreases |entries| - key, more
      {
        var r;
        r, key := NextBody(key);
        if r.Some? {
          bodies := bodies + [r.value];
        }
        more := r.Some?;
      }
    }

    method NextBody(key: nat) returns (r: Option<T>, key': nat)
      requires Valid() && key <= |entries|
      ensures r.Some? ==> key < key' <= |entries| && Listing(entries[key..]) == [r.value] + Listing(entries[key'..])
      ensures r.None? ==> key' == |entries| && Listing(entries[key..]) == []
    {
      r, key' := Next(key);
      if r.Some? {
        NextListed(entries, key, key' - 1, key');
      } else {
        key' := |entries|;
        NextListed(entries, key, key', key' + 1);
        assert entries[key'..] == [];
      }
    }
  }

  // ---------- what happens to the entries ----------

  // No entry in use is the same as x.
  ghost predicate Fresh<T>(entries: seq<Entry<T>>, same: (T, T) -> bool, x: T) {
    forall v :: 0 <= v < |entries| && entries[v].hashCode != UNUSED ==> !same(entries[v].body, x) && !same(x, entries[v].body)
  }

  // An entry on a chain is in use; it is the same as x exactly if the hash codes agree and the compare function says so.
  lemma InUseOnChain<T(!new)>(entries: seq<Entry<T>>, hash: T -> nat, same: (T, T) -> bool, m: nat, place: seq<Place>, c: seq<nat>, x: T,
      index: nat, j: nat)
    requires 0 < m && Lawful(hash, same) && PlacedUpto(entries, hash, m, place, |entries|) && Listed(place, c, Bucket(index)) && j < |c|
    ensures c[j] < |entries| && entries[c[j]].hashCode != UNUSED
    ensures same(entries[c[j]].body, x) ==> entries[c[j]].hashCode == ValidateHash(hash(x))
  {
    assert c[j] in c;
    assert PlacedAt(entries[c[j]], hash, m, place[c[j]], true);
  }

  // An entry that is the same as x would be in the bucket that was searched.
  lemma NotInBucket<T(!new)>(entries: seq<Entry<T>>, hash: T -> nat, same: (T, T) -> bool, m: nat, place: seq<Place>, c: seq<nat>, x: T, index: nat)
    requires 0 < m && Lawful(hash, same) && PlacedUpto(entries, hash, m, place, |entries|) && Listed(place, c, Bucket(index))
    requires index == ValidateHash(hash(x)) % m
    requires forall k :: 0 <= k < |c| ==> c[k] < |entries| && !same(entries[c[k]].body, x)
    ensures Fresh(entries, same, x)
  {
    forall v | 0 <= v < |entries| && entries[v].hashCode != UNUSED ensures !same(entries[v].body, x) {
      if hash(entries[v].body) == hash(x) {
        assert PlacedAt(entries[v], hash, m, place[v], true);
        assert place[v] == Bucket(index);
        assert v in c;
      }
    }
  }

  lemma LoosenedPlaced<T>(entries: seq<Entry<T>>, hash: T -> nat, m: nat, place: seq<Place>, n: nat)
    requires 0 < m && 0 < n && PlacedUpto(entries, hash, m, place, |entries|)
    ensures PlacedUpto(entries, hash, n, Loosened(place), 0) && InUse(Loosened(place)) == InUse(place)
  {
    InUseSame(place, Loosened(place));
    forall v | 0 <= v < |entries| ensures PlacedAt(entries[v], hash, n, Loosened(place)[v], false) {
      assert PlacedAt(entries[v], hash, m, place[v], true);
    }
  }

  // A free entry takes a body that is not the same as any other.
  lemma FilledStored<T>(entries: seq<Entry<T>>, hash: T -> nat, same: (T, T) -> bool, m: nat, place: seq<Place>, count: nat,
      v: nat, e: Entry<T>, index: nat)
    requires 0 < m && Filled(entries, hash, same, m, place, count) && v < |entries| && place[v] == Free && Fresh(entries, same, e.body)
    requires e.hashCode == ValidateHash(hash(e.body)) && index == e.hashCode % m
    ensures Filled(entries[v := e], hash, same, m, place[v := Bucket(index)], count + 1)
    ensures Bodies(entries[v := e]) == Bodies(entries) + {e.body}
  {
    InUseUpdate(place, v, Bucket(index));
    assert PlacedAt(entries[v], hash, m, place[v], true);
    var more := entries[v := e];
    assert more[v].body == e.body;
    forall x | x in Bodies(entries) ensures x in Bodies(more) {
      var u :| 0 <= u < |entries| && entries[u].hashCode != UNUSED && entries[u].body == x;
      assert more[u] == entries[u];
    }
  }

  // So does an entry behind the last one.
  lemma FilledAppended<T>(entries: seq<Entry<T>>, hash: T -> nat, same: (T, T) -> bool, m: nat, place: seq<Place>, count: nat,
      e: Entry<T>, index: nat)
    requires 0 < m && Filled(entries, hash, same, m, place, count) && Fresh(entries, same, e.body)
    requires e.hashCode == ValidateHash(hash(e.body)) && index == e.hashCode % m
    ensures Filled(entries + [e], hash, same, m, place + [Bucket(index)], count + 1)
    ensures Bodies(entries + [e]) == Bodies(entries) + {e.body}
  {
    InUseMore(place, Bucket(index));
    var more := entries + [e];
    assert more[|entries|].body == e.body;
    forall v | 0 <= v < |more| ensures PlacedAt(more[v], hash, m, (place + [Bucket(index)])[v], true) {
      assert v < |entries| ==> PlacedAt(entries[v], hash, m, place[v], true);
    }
    forall x | x in Bodies(entries) ensures x in Bodies(more) {
      var u :| 0 <= u < |entries| && entries[u].hashCode != UNUSED && entries[u].body == x;
      assert more[u] == entries[u];
    }
  }

  lemma FilledSize<T>(entries: seq<Entry<T>>, hash: T -> nat, same: (T, T) -> bool, m: nat, place: seq<Place>, count: nat)
    requires 0 < m && Filled(entries, hash, same, m, place, count)
    ensures |place| == |entries|
  {
  }

  // An entry goes out of use: its body is gone, since no other entry is the same.
  lemma FilledWithout<T(!new)>(entries: seq<Entry<T>>, hash: T -> nat, same: (T, T) -> bool, m: nat, place: seq<Place>, count: nat,
      v: nat, e: Entry<T>)
    requires 0 < m && Lawful(hash, same) && Filled(entries, hash, same, m, place, count)
    requires v < |entries| && entries[v].hashCode != UNUSED && e.hashCode == UNUSED
    ensures 0 < count && Filled(entries[v := e], hash, same, m, place[v := Free], count - 1)
    ensures Bodies(entries[v := e]) == Bodies(entries) - {entries[v].body}
  {
    assert PlacedAt(entries[v], hash, m, place[v], true);
    InUseUpdate(place, v, Free);
    var less := entries[v := e];
    forall x | x in Bodies(entries) - {entries[v].body} ensures x in Bodies(less) {
      var u :| 0 <= u < |entries| && entries[u].hashCode != UNUSED && entries[u].body == x;
      assert less[u] == entries[u];
    }
    forall x | x in Bodies(less) ensures x in Bodies(entries) && x != entries[v].body {
      var u :| 0 <= u < |less| && less[u].hashCode != UNUSED && less[u].body == x;
      assert u != v && less[u] == entries[u];
    }
  }

  lemma {:induction false} NothingInUse<T>(entries: seq<Entry<T>>, hash: T -> nat, m: nat, place: seq<Place>)
    requires 0 < m && PlacedUpto(entries, hash, m, place, |entries|) && InUse(place) == 0
    ensures forall v :: 0 <= v < |entries| ==> entries[v].hashCode == UNUSED
  {
    if entries != [] {
      var n := |entries| - 1;
      assert PlacedAt(entries[n], hash, m, place[n], true);
      NothingInUse(entries[..n], hash, m, place[..n]);
      assert forall v :: 0 <= v < n ==> entries[..n][v] == entries[v];
    }
  }

  // ---------- enumeration ----------

  // The bodies of the entries in use, in the order of the entries.
  ghost function Listing<T>(entries: seq<Entry<T>>): seq<T> {
    if entries == [] then [] else (if entries[0].hashCode == UNUSED then [] else [entries[0].body]) + Listing(entries[1..])
  }

  // Entry j is the first from i on that is in use.
  lemma {:induction false} NextListed<T>(entries: seq<Entry<T>>, i: nat, j: nat, n: nat)
    requires i <= j <= |entries| && n == j + 1 && forall v :: i <= v < j ==> entries[v].hashCode == UNUSED
    ensures Listing(entries[i..]) == Listing(entries[j..])
    ensures j < |entries| && entries[j].hashCode != UNUSED ==> Listing(entries[i..]) == [entries[j].body] + Listing(entries[n..])
    decreases j - i
  {
    if i < j {
      assert entries[i..][1..] == entries[i + 1..];
      NextListed(entries, i + 1, j, n);
    } else if j < |entries| {
      assert entries[j..][1..] == entries[n..];
    }
  }

  lemma {:induction false} ListingMore<T>(entries: seq<Entry<T>>, e: Entry<T>)
    ensures Listing(entries + [e]) == Listing(entries) + (if e.hashCode == UNUSED then [] else [e.body])
  {
    if entries == [] {
      assert entries + [e] == [e];
    } else {
      assert (entries + [e])[1..] == entries[1..] + [e];
      ListingMore(entries[1..], e);
    }
  }

  lemma {:induction false} ListingSize<T>(entries: seq<Entry<T>>, hash: T -> nat, m: nat, place: seq<Place>)
    requires 0 < m && PlacedUpto(entries, hash, m, place, |entries|)
    ensures |Listing(entries)| == InUse(place)
  {
    if entries != [] {
      var n := |entries| - 1;
      assert PlacedAt(entries[n], hash, m, place[n], true);
      ListingSize(entries[..n], hash, m, place[..n]);
      ListingMore(entries[..n], entries[n]);
      assert entries == entries[..n] + [entries[n]];
    }
  }

  // The listing has every body in use, and no two that are the same.
  lemma {:induction false} ListingIsContents<T>(entries: seq<Entry<T>>, same: (T, T) -> bool)
    requires Unique(entries, same)
    ensures var l := Listing(entries);
      && (forall i :: 0 <= i < |l| ==> l[i] in Bodies(entries)) && (forall x :: x in Bodies(entries) ==> x in l)
      && (forall i, j :: 0 <= i < j < |l| ==> !same(l[i], l[j]))
  {
    if entries != [] {
      var e, rest := entries[0], entries[1..];
      assert forall v :: 0 <= v < |rest| ==> rest[v] == entries[v + 1];
      ListingIsContents(rest, same);
      FirstBody(entries);
      if e.hashCode != UNUSED {
        FirstUnique(entries, same, Listing(rest));
        assert Listing(entries) == [e.body] + Listing(rest);
      }
    }
  }

  lemma FirstUnique<T>(entries: seq<Entry<T>>, same: (T, T) -> bool, l: seq<T>)
    requires entries != [] && entries[0].hashCode != UNUSED && Unique(entries, same)
    requires forall i :: 0 <= i < |l| ==> l[i] in Bodies(entries[1..])
    ensures forall i :: 0 <= i < |l| ==> !same(entries[0].body, l[i])
  {
    var rest := entries[1..];
    forall i | 0 <= i < |l| ensures !same(entries[0].body, l[i]) {
      var v :| 0 <= v < |rest| && rest[v].hashCode != UNUSED && rest[v].body == l[i];
      assert entries[v + 1] == rest[v];
    }
  }

  lemma FirstBody<T>(entries: seq<Entry<T>>)
    requires entries != []
    ensures Bodies(entries) == Bodies(entries[1..]) + (if entries[0].hashCode != UNUSED then {entries[0].body} else {})
  {
    var rest := entries[1..];
    forall x | x in Bodies(entries) ensures x in Bodies(rest) || (entries[0].hashCode != UNUSED && x == entries[0].body) {
      var v :| 0 <= v < |entries| && entries[v].hashCode != UNUSED && entries[v].body == x;
      assert v > 0 ==> rest[v - 1] == entries[v];
    }
    forall x | x in Bodies(rest) ensures x in Bodies(entries) {
      var v :| 0 <= v < |rest| && rest[v].hashCode != UNUSED && rest[v].body == x;
      assert entries[v + 1] == rest[v];
    }
  }
}
