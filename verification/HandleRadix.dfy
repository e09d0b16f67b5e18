// How a handle value finds its entry: a radix table of one, two or three levels that
// grows by one level 0 table at a time.
module HandleRadix {
  import opened Listings

  const ENTRIES := 256
  const INVALID := 0xFFFF_FFFF
  const FREE := 1

  datatype Entry = Entry(value: nat, nextFree: nat)

  type Page = array<Entry>
  type Middle = array<Page?>

  type Page? = array?<Entry>
  type Middle? = array?<Page?>

  // The table value: a pointer whose two lowest bits are the level.
  datatype Root =
    | Level0(table0: Page)
    | Level1(table1: Middle)
    | Level2(table2: array<Middle?>)

  datatype Slot = None | Slot(page: Page, index: nat)

  // t holds s followed by nulls.
  ghost predicate Filled(t: Middle, s: seq<Page>)
    reads t
  {
    && t.Length == ENTRIES && |s| <= ENTRIES
    && (forall j :: 0 <= j < |s| ==> t[j] == s[j])
    && (forall j :: |s| <= j < ENTRIES ==> t[j] == null)
  }

  // The pages that the level 1 table number i of a level 2 table holds.
  ghost function Group(pages: seq<Page>, i: nat): seq<Page>
    requires i * ENTRIES <= |pages|
  {
    pages[i * ENTRIES..if (i + 1) * ENTRIES <= |pages| then (i + 1) * ENTRIES else |pages|]
  }

  // The tables above level 0.
  ghost function Upper(root: Root, middles: seq<Middle>): set<object> {
    (set i | 0 <= i < |middles| :: middles[i] as object) + (if root.Level2? then {root.table2 as object} else {})
  }

  ghost predicate Arranged(root: Root, pages: seq<Page>, middles: seq<Middle>)
    reads Upper(root, middles)
  {
    match root
    case Level0(t0) => pages == [t0] && middles == []
    case Level1(t1) => 1 < |pages| <= ENTRIES && middles == [t1] && Filled(middles[0], pages)
    case Level2(t2) =>
      && ENTRIES < |pages| <= ENTRIES * ENTRIES && t2.Length == ENTRIES
      && |middles| == (|pages| + ENTRIES - 1) / ENTRIES && Distinct(middles)
      && (forall i :: 0 <= i < |middles| ==> t2[i] == middles[i] && Filled(middles[i], Group(pages, i)))
      && (forall i :: |middles| <= i < ENTRIES ==> t2[i] == null)
  }

  // A batch of free entries, each linked to the one after it.
  ghost predicate InitialBatch(s: seq<Entry>, base: nat) {
    && |s| == ENTRIES
    && (forall j :: 0 <= j < ENTRIES ==> s[j] == Entry(FREE, if j + 1 < ENTRIES then base + j + 1 else INVALID))
  }

  method CreateLevel0(nextValue: nat) returns (table: Page)
    ensures fresh(table) && table.Length == ENTRIES
    ensures InitialBatch(table[..], nextValue)
  {
    table := new Entry[ENTRIES](_ => Entry(0, 0));
    var i, entry := nextValue + 1, 0;
    while i < nextValue + ENTRIES
      invariant i == nextValue + 1 + entry && entry < ENTRIES
      invariant forall j :: 0 <= j < entry ==> table[j] == Entry(FREE, nextValue + j + 1)
    {
      table[entry] := Entry(FREE, i);
      entry := entry + 1;
      i := i + 1;
    }
    table[entry] := Entry(FREE, INVALID);
  }

  method CreateLevel1() returns (table: Middle)
    ensures fresh(table) && Filled(table, [])
  {
    table := new Page?[ENTRIES](_ => null);
  }

  method StoreChild(table1: Middle, j: nat, table0: Page, ghost s: seq<Page>)
    requires Filled(table1, s) && j == |s| < ENTRIES
    modifies table1
    ensures Filled(table1, s + [table0])
  {
    table1[j] := table0;
  }

  class HandleTable {
    var root: Root
    var nextValue: nat
    ghost var pages: seq<Page>
    ghost var middles: seq<Middle>

    ghost function Repr(): set<object>
      reads this
    {
      {this as object} + Upper(root, middles)
    }

    ghost predicate Valid()
      reads this, Repr()
    {
      && nextValue == |pages| * ENTRIES && 0 < |pages|
      && Distinct(pages) && (forall p :: p in pages ==> p.Length == ENTRIES)
      && Arranged(root, pages, middles)
    }

    // The entry that a handle value below NextValue stands for.
    ghost function Resolve(value: nat): Slot
      reads this
      requires nextValue == |pages| * ENTRIES
    {
      if value < nextValue then Slot(pages[value / ENTRIES], value % ENTRIES) else None
    }

    // Different values name different entries.
    lemma DifferentEntries(v: nat, w: nat)
      requires Valid() && v < nextValue && w < nextValue && v != w
      ensures Resolve(v) != Resolve(w)
    {
      if v / ENTRIES == w / ENTRIES && v % ENTRIES == w % ENTRIES {
        SamePlace(v, w);
      } else if v / ENTRIES != w / ENTRIES {
        assert pages[v / ENTRIES] != pages[w / ENTRIES];
      }
    }

    // Every entry of every page has its value.
    lemma EntryNamed(k: nat, j: nat)
      requires Valid() && k < |pages| && j < pages[k].Length
      ensures k * ENTRIES + j < nextValue && Resolve(k * ENTRIES + j) == Slot(pages[k], j)
    {
      assert pages[k] in pages;
      Quotient(k, j);
    }

    // The entries from base on are free, each linked to the next one.
    ghost predicate FreeFrom(base: nat)
      reads this, set i | 0 <= i < |pages| :: pages[i]
      requires nextValue == |pages| * ENTRIES
    {
      forall v: nat :: base <= v < nextValue ==>
        var slot := Resolve(v);
        slot.index < slot.page.Length && slot.page[slot.index] == Entry(FREE, if v + 1 < nextValue then v + 1 else INVALID)
    }

    lemma BatchFree()
      requires Valid() && InitialBatch(pages[|pages| - 1][..], nextValue - ENTRIES)
      ensures FreeFrom(nextValue - ENTRIES)
      ensures forall v: nat :: nextValue - ENTRIES <= v < nextValue ==> Resolve(v).page == pages[|pages| - 1]
    {
      var k, page := |pages| - 1, pages[|pages| - 1];
      assert page in pages;
      forall v: nat | nextValue - ENTRIES <= v < nextValue
        ensures Resolve(v) == Slot(page, v - k * ENTRIES)
        ensures page[v - k * ENTRIES] == Entry(FREE, if v + 1 < nextValue then v + 1 else INVALID)
      {
        var j := v - k * ENTRIES;
        Quotient(k, j);
        assert page[..][j] == page[j];
      }
    }

    constructor ()
      ensures Valid() && nextValue == ENTRIES && fresh(Repr()) && fresh(pages[0]) && FreeFrom(0)
    {
      var table := CreateLevel0(0);
      root := Level0(table);
      nextValue := ENTRIES;
      pages := [table];
      middles := [];
      new;
      BatchFree();
    }

    method Lookup(value: nat) returns (slot: Slot)
      requires Valid()
      ensures slot == Resolve(value) && (slot.None? <==> value >= nextValue)
      ensures slot.Slot? ==> slot.page in pages && slot.index < slot.page.Length
    {
      if value >= nextValue {
        return None;
      }
      match root
      case Level0(table0) => slot := Slot(table0, value);
      case Level1(table1) =>
        var table0 := table1[value / ENTRIES];
        slot := Slot(table0, value % ENTRIES);
      case Level2(table2) =>
        GroupOf(pages, value / ENTRIES);
        var table1 := table2[value / (ENTRIES * ENTRIES)];
        var table0 := table1[value / ENTRIES % ENTRIES];
        slot := Slot(table0, value % ENTRIES);
    }

    ghost predicate Takes(table0: Page)
      reads this
    {
      table0 !in pages && table0.Length == ENTRIES
    }

    // Level 0 becomes level 1.
    method AddLevel1(t0: Page, table0: Page)
      requires Valid() && Takes(table0) && root == Level0(t0)
      modifies this
      ensures Valid() && pages == old(pages) + [table0] && fresh(Repr() - old(Repr()))
    {
      var table1 := CreateLevel1();
      table1[0], table1[1] := t0, table0;
      root := Level1(table1);
      nextValue := nextValue + ENTRIES;
      pages, middles := pages + [table0], [table1];
    }

    method FillLevel1(t1: Middle, table0: Page)
      requires Valid() && Takes(table0) && root == Level1(t1) && |pages| < ENTRIES
      modifies this, t1
      ensures Valid() && pages == old(pages) + [table0] && Repr() == old(Repr())
    {
      t1[nextValue / ENTRIES] := table0;
      nextValue := nextValue + ENTRIES;
      pages := pages + [table0];
    }

    // Level 1 becomes level 2.
    method AddLevel2(t1: Middle, table0: Page)
      requires Valid() && Takes(table0) && root == Level1(t1) && |pages| == ENTRIES
      modifies this
      ensures Valid() && pages == old(pages) + [table0] && fresh(Repr() - old(Repr()))
    {
      var table2 := new Middle?[ENTRIES](_ => null);
      var table1 := CreateLevel1();
      table1[0] := table0;
      table2[0], table2[1] := t1, table1;
      root := Level2(table2);
      nextValue := nextValue + ENTRIES;
      pages, middles := pages + [table0], [t1, table1];
      assert Group(pages, 0) == old(pages) && Group(pages, 1) == [table0];
    }

    method FillLevel2(table2: array<Middle?>, i: nat, table0: Page)
      requires Valid() && Takes(table0) && root == Level2(table2) && i == nextValue / (ENTRIES * ENTRIES) && i < |middles|
      modifies this, middles[i]
      ensures Valid() && pages == old(pages) + [table0] && Repr() == old(Repr())
    {
      hide Group, Filled;
      GroupsGrown(pages, table0, i);
      var j := (nextValue - i * (ENTRIES * ENTRIES)) / ENTRIES;
      var table1 := table2[i];
      assert j == |Group(pages, i)| && table1 == middles[i];
      StoreChild(table1, j, table0, Group(pages, i));
      nextValue := nextValue + ENTRIES;
      ghost var pages0 := pages;
      pages := pages + [table0];
      forall k | 0 <= k < |middles| ensures Filled(middles[k], Group(pages, k)) {
        assert k != i ==> middles[k] != table1 && Group(pages, k) == Group(pages0, k);
      }
    }

    method ExtendLevel2(table2: array<Middle?>, i: nat, table0: Page)
      requires Valid() && Takes(table0) && root == Level2(table2) && i == nextValue / (ENTRIES * ENTRIES) && |middles| <= i < ENTRIES
      modifies this, table2
      ensures Valid() && pages == old(pages) + [table0] && fresh(Repr() - old(Repr()))
    {
      hide Group;
      GroupsFull(|pages|, |middles|, i);
      GroupsGrown(pages, table0, i);
      var table1 := CreateLevel1();
      table1[0] := table0;
      table2[i] := table1;
      nextValue := nextValue + ENTRIES;
      pages, middles := pages + [table0], middles + [table1];
      assert Group(pages, i) == [table0];
    }

    // There is one more page, with entries numbered from base on.
    ghost predicate Grown(before: seq<Page>, base: nat)
      reads this, set i | 0 <= i < |pages| :: pages[i]
    {
      |pages| == |before| + 1 && pages[..|before|] == before && InitialBatch(pages[|before|][..], base)
    }

    method GrowLevel1(t1: Middle)
      requires Valid() && root == Level1(t1)
      modifies Repr()
      ensures Valid() && fresh(Repr() - old(Repr()))
      ensures Grown(old(pages), old(nextValue)) && fresh(pages[old(|pages|)])
    {
      var table0 := CreateLevel0(nextValue);
      if nextValue / ENTRIES < ENTRIES {
        FillLevel1(t1, table0);
      } else {
        AddLevel2(t1, table0);
      }
    }

    method GrowLevel2(table2: array<Middle?>, i: nat)
      requires Valid() && root == Level2(table2) && i == nextValue / (ENTRIES * ENTRIES) && i < ENTRIES
      modifies Repr()
      ensures Valid() && fresh(Repr() - old(Repr()))
      ensures Grown(old(pages), old(nextValue)) && fresh(pages[old(|pages|)])
    {
      var table0 := CreateLevel0(nextValue);
      if table2[i] != null {
        FillLevel2(table2, i, table0);
      } else {
        ExtendLevel2(table2, i, table0);
      }
    }

    // One more level 0 table, unless there are 2^24 handles already.
    method AddTable() returns (ok: bool)
      requires Valid()
      modifies Repr()
      ensures Valid() && fresh(Repr() - old(Repr()))
      ensures ok <==> old(|pages|) < ENTRIES * ENTRIES
      ensures if ok then Grown(old(pages), old(nextValue)) && fresh(pages[old(|pages|)]) else pages == old(pages)
    {
      ok := true;
      match root
      case Level0(t0) =>
        var table0 := CreateLevel0(nextValue);
        AddLevel1(t0, table0);
      case Level1(t1) => GrowLevel1(t1);
      case Level2(table2) =>
        var i := nextValue / (ENTRIES * ENTRIES);
        if i >= ENTRIES {
          return false;
        }
        GrowLevel2(table2, i);
    }

    // PhpAllocateMoreHandleTableEntries up to the push onto the free list: each of the new
    // values names an entry of the new table, free and linked to the next one.
    method AllocateMore() returns (ok: bool)
      requires Valid()
      modifies Repr()
      ensures Valid() && fresh(Repr() - old(Repr()))
      ensures ok <==> old(nextValue) < 0x100_0000
      ensures if ok then Grown(old(pages), old(nextValue)) && fresh(pages[old(|pages|)]) else pages == old(pages)
      ensures forall v: nat :: v < old(nextValue) ==> Resolve(v) == old(Resolve(v))
      ensures ok ==> nextValue == old(nextValue) + 256 && FreeFrom(old(nextValue))
      ensures ok ==> forall v: nat :: old(nextValue) <= v < nextValue ==> fresh(Resolve(v).page)
    {
      hide Arranged, Distinct, Upper;
      ok := AddTable();
      if ok {
        BatchFree();
      }
    }

    // PhDestroyHandleTable: gives back every table, stopping at the first null of each level.
    // It returns what was given back at each level, in order.
    method Destroy() returns (freed0: seq<Page>, freed1: seq<Middle>, freed2: seq<array<Middle?>>)
      requires Valid()
      ensures freed0 == pages && Distinct(freed0)
      ensures freed1 == middles && Distinct(freed1)
      ensures freed2 == if root.Level2? then [root.table2] else []
    {
      freed0, freed1, freed2 := [], [], [];
      match root
      case Level0(table0) => freed0 := [table0];
      case Level1(table1) =>
        freed0 := FreePages(table1, pages);
        freed1 := [table1];
      case Level2(table2) =>
        var i := 0;
        while i < ENTRIES && table2[i] != null
          invariant i <= |middles| && freed1 == middles[..i] && freed0 == pages[..if i * ENTRIES <= |pages| then i * ENTRIES else |pages|]
        {
          var some := FreePages(table2[i], Group(pages, i));
          freed0 := freed0 + some;
          freed1 := freed1 + [table2[i]];
          i := i + 1;
        }
        freed2 := [table2];
    }
  }

  method FreePages(table1: Middle, ghost s: seq<Page>) returns (freed: seq<Page>)
    requires Filled(table1, s)
    ensures freed == s
  {
    freed := [];
    var j := 0;
    while j < ENTRIES && table1[j] != null
      invariant j <= |s| && freed == s[..j]
    {
      freed := freed + [table1[j]];
      j := j + 1;
    }
  }

  // Only the last group changes when a page is added.
  lemma SamePlace(v: nat, w: nat)
    requires v / ENTRIES == w / ENTRIES && v % ENTRIES == w % ENTRIES
    ensures v == w
  {}

  lemma Quotient(k: nat, j: nat)
    requires j < ENTRIES
    ensures (k * ENTRIES + j) / ENTRIES == k && (k * ENTRIES + j) % ENTRIES == j
  {}

  // No group is begun but not full when the next value belongs to a group behind the last.
  lemma GroupsFull(n: nat, groups: nat, i: nat)
    requires groups == (n + ENTRIES - 1) / ENTRIES <= i == n * ENTRIES / (ENTRIES * ENTRIES)
    ensures groups == i == n / ENTRIES && n == i * ENTRIES
  {
  }

  lemma GroupsGrown(pages: seq<Page>, table0: Page, i: nat)
    requires i == |pages| / ENTRIES
    ensures forall k :: 0 <= k < i ==> Group(pages + [table0], k) == Group(pages, k)
    ensures Group(pages + [table0], i) == Group(pages, i) + [table0] && |Group(pages, i)| == |pages| - i * ENTRIES < ENTRIES
    ensures (|pages + [table0]| + ENTRIES - 1) / ENTRIES == i + 1
  {
  }

  lemma GroupOf(pages: seq<Page>, k: nat)
    requires k < |pages|
    ensures k / ENTRIES * ENTRIES <= |pages| && k / ENTRIES < (|pages| + ENTRIES - 1) / ENTRIES
    ensures k % ENTRIES < |Group(pages, k / ENTRIES)| && Group(pages, k / ENTRIES)[k % ENTRIES] == pages[k]
  {
  }
}
