/** The bounded pair counter of src/data_olympus/cooccurrence.py. */
module PairCounter {

  /** Sum of the flushed rows of one key: `SELECT SUM(n) ... WHERE key = k`. */
  function RowSum(rows: seq<(nat, nat)>, key: nat): nat
    decreases |rows|
  {
    if rows == [] then 0
    else RowSum(rows[..|rows| - 1], key) + (if rows[|rows| - 1].0 == key then rows[|rows| - 1].1 else 0)
  }

  lemma {:induction false} RowSumConcat(a: seq<(nat, nat)>, b: seq<(nat, nat)>, key: nat)
    ensures RowSum(a + b, key) == RowSum(a, key) + RowSum(b, key)
  {
    if b == [] {
      assert a + b == a;
    } else {
      assert (a + b)[..|a + b| - 1] == a + b[..|b| - 1];
      RowSumConcat(a, b[..|b| - 1], key);
    }
  }

  function InMemory(counts: map<nat, nat>, key: nat): nat {
    if key in counts then counts[key] else 0
  }

  ghost predicate DistinctKeys(entries: seq<(nat, nat)>) {
    forall i, j :: 0 <= i < j < |entries| ==> entries[i].0 != entries[j].0
  }

  lemma {:induction false} RowSumDistinct(entries: seq<(nat, nat)>, key: nat)
    requires DistinctKeys(entries)
    ensures (forall i :: 0 <= i < |entries| ==> entries[i].0 != key) ==> RowSum(entries, key) == 0
    ensures forall i :: 0 <= i < |entries| && entries[i].0 == key ==> RowSum(entries, key) == entries[i].1
    decreases |entries|
  {
    if entries != [] {
      var init := entries[..|entries| - 1];
      assert forall i :: 0 <= i < |init| ==> init[i] == entries[i];
      RowSumDistinct(init, key);
    }
  }

  /** `entries` lists exactly the entries of a dictionary that reach `minCount`. */
  ghost predicate Lists(entries: seq<(nat, nat)>, m: map<nat, nat>, minCount: int) {
    && DistinctKeys(entries)
    && (forall i :: 0 <= i < |entries| ==>
          entries[i].0 in m && m[entries[i].0] == entries[i].1 && entries[i].1 >= minCount)
    && (forall key :: key in m && m[key] >= minCount ==> exists i :: 0 <= i < |entries| && entries[i].0 == key)
  }

  /** The entries of a dictionary, in some order. */
  method EntriesOf(m: map<nat, nat>, minCount: int) returns (entries: seq<(nat, nat)>)
    ensures Lists(entries, m, minCount)
    ensures forall key :: RowSum(entries, key) == if key in m && m[key] >= minCount then m[key] else 0
  {
    entries := [];
    var todo := m.Keys;
    ghost var done: map<nat, nat> := map[];
    while todo != {}
      invariant todo <= m.Keys && done == map key | key in m && key !in todo :: m[key]
      invariant Lists(entries, done, minCount)
    {
      var key :| key in todo;
      ghost var before := entries;
      if m[key] >= minCount {
        entries := entries + [(key, m[key])];
      }
      todo := todo - {key};
      assert key !in done;
      done := done[key := m[key]];
      ListsOneMore(before, entries, done, key, minCount);
    }
    assert done == m;
    forall key ensures RowSum(entries, key) == if key in m && m[key] >= minCount then m[key] else 0 {
      RowSumDistinct(entries, key);
    }
  }

  lemma ListsOneMore(before: seq<(nat, nat)>, entries: seq<(nat, nat)>, m: map<nat, nat>, key: nat, minCount: int)
    requires key in m && Lists(before, m - {key}, minCount)
    requires entries == if m[key] >= minCount then before + [(key, m[key])] else before
    ensures Lists(entries, m, minCount)
  {
    if m[key] >= minCount {
      assert entries[|before|].0 == key;
    }
    forall k | k in m && m[k] >= minCount ensures exists i :: 0 <= i < |entries| && entries[i].0 == k {
      if k != key {
        assert k in m - {key};
        var i :| 0 <= i < |before| && before[i].0 == k;
        assert entries[i].0 == k;
      }
    }
  }

  function Larger(m: nat, n: nat): nat {
    if n > m then n else m
  }

  /**
  Counts pairs with a bounded resident footprint: when the counter reaches its ceiling at a document
  boundary it is flushed to a table of partial counts. `flushes` records the size of every flush.
  */
  class Counter {
    const maxEntries: int
    var counts: map<nat, nat>
    var rows: seq<(nat, nat)>
    var onDisk: bool
    var spills: nat
    var maxResident: nat
    ghost var flushes: seq<nat>
    /** The largest number of pairs ever in memory. */
    ghost var peak: nat

    ghost predicate Valid()
      reads this
    {
      && (!onDisk ==> rows == [])
      && spills == |flushes| && |counts| <= peak
      && (forall key :: key in counts ==> counts[key] > 0)
    }

    /** How often a pair has been added, wherever its counts now are. */
    ghost function Total(key: nat): nat
      reads this
    {
      InMemory(counts, key) + RowSum(rows, key)
    }

    constructor (maxEntries: int)
      ensures Valid() && this.maxEntries == maxEntries && counts == map[] && flushes == [] && maxResident == 0 &&
              peak == 0 && !onDisk
      ensures forall key :: Total(key) == 0
    {
      this.maxEntries := maxEntries;
      counts, rows, onDisk, spills, maxResident, flushes, peak := map[], [], false, 0, 0, [], 0;
    }

    method Add(key: nat)
      requires Valid()
      modifies this`counts, this`peak
      ensures Valid() && peak == Larger(old(peak), |counts|)
      ensures forall k :: InMemory(counts, k) == old(InMemory(counts, k)) + (if k == key then 1 else 0)
      ensures old(|counts|) <= |counts| <= old(|counts|) + 1
    {
      counts := counts[key := InMemory(counts, key) + 1];
      assert counts.Keys == old(counts).Keys + {key};
      peak := Larger(peak, |counts|);
    }

    method Flush()
      requires Valid()
      modifies this
      ensures Valid() && onDisk && counts == map[] && maxResident == old(maxResident) && peak == old(peak)
      ensures forall k :: Total(k) == old(Total(k))
      ensures flushes == old(flushes) + [old(|counts|)]
    {
      onDisk := true;
      var entries := EntriesOf(counts, 1);
      forall k ensures RowSum(rows + entries, k) == RowSum(rows, k) + InMemory(counts, k) {
        RowSumConcat(rows, entries, k);
      }
      flushes := flushes + [|counts|];
      rows := rows + entries;
      counts := map[];
      spills := spills + 1;
    }

    /** Between documents: note the high-water mark and flush once the ceiling is reached. */
    method Checkpoint()
      requires Valid()
      modifies this
      ensures Valid()
      ensures forall k :: Total(k) == old(Total(k))
      ensures maxResident == Larger(old(maxResident), old(|counts|)) && peak == old(peak)
      ensures maxEntries > 0 ==> |counts| < maxEntries
      ensures if maxEntries > 0 && old(|counts|) >= maxEntries then flushes == old(flushes) + [old(|counts|)]
              else flushes == old(flushes) && counts == old(counts)
    {
      var resident := |counts|;
      if resident > maxResident {
        maxResident := resident;
      }
      if maxEntries > 0 && resident >= maxEntries {
        Flush();
      }
    }

    /** The pairs reaching `minCount`, each once with its whole count, in no particular order. */
    method Items(minCount: int) returns (items: seq<(nat, nat)>)
      requires Valid()
      modifies this
      ensures Valid() && maxResident == old(maxResident) && peak == old(peak)
      ensures forall k :: Total(k) == old(Total(k))
      ensures forall i :: 0 <= i < |items| ==>
                items[i].1 == Total(items[i].0) && items[i].1 > 0 && items[i].1 >= minCount
      ensures forall i, j :: 0 <= i < j < |items| ==> items[i].0 != items[j].0
      ensures forall k :: Total(k) > 0 && Total(k) >= minCount ==> exists i :: 0 <= i < |items| && items[i].0 == k
      ensures flushes == old(flushes) || flushes == old(flushes) + [old(|counts|)]
    {
      if !onDisk {
        items := EntriesOf(counts, minCount);
        return;
      }
      if counts != map[] {
        Flush();
      }
      var sums: map<nat, nat> := map[];
      for i := 0 to |rows|
        invariant forall k :: InMemory(sums, k) == RowSum(rows[..i], k)
      {
        assert rows[..i + 1][..i] == rows[..i];
        sums := sums[rows[i].0 := InMemory(sums, rows[i].0) + rows[i].1];
      }
      assert rows[..|rows|] == rows;
      items := EntriesOf(sums, if minCount > 1 then minCount else 1);
      forall k | Total(k) > 0 && Total(k) >= minCount ensures exists i :: 0 <= i < |items| && items[i].0 == k {
        assert k in sums && sums[k] == Total(k);
      }
    }

    method Close()
      modifies this
      ensures counts == map[] && !onDisk && rows == []
    {
      counts, rows, onDisk := map[], [], false;
    }
  }
}
