/** The ledger object: what is in memory, what is on disk, and every consultation ever recorded. */
module LedgerStore {
  import opened Common
  import opened Ranking
  import opened Ledger

  /** One row per entry of `entries`. */
  ghost predicate Describes(rows: seq<Row>, entries: Entries) {
    FromRows(rows) == Some(entries)
  }

  /** What `__init__` makes of a file, before the cap. */
  method LoadRows(rows: seq<Row>) returns (entries: Entries)
    ensures entries == FromFile(Rows(rows))
  {
    entries := map[];
    for i := 0 to |rows|
      invariant FromRows(rows[..i]) == Some(entries)
    {
      assert rows[..i + 1][..i] == rows[..i];
      if rows[i].Malformed? {
        assert rows[..i + 1] + rows[i + 1..] == rows;
        MalformedSpoilsAll(rows[..i + 1], rows[i + 1..]);
        return map[];
      }
      entries := entries[rows[i].key := FromRow(rows[i])];
    }
    assert rows[..|rows|] == rows;
  }

  function Restricted(entries: Entries, keys: set<Pair>): Entries {
    map key | key in entries && key in keys :: entries[key]
  }

  lemma OneRowMore(rows: seq<Row>, entries: Entries, keys: set<Pair>, key: Pair)
    requires Describes(rows, Restricted(entries, keys)) && key in entries
    ensures Describes(rows + [ToRow(key, entries[key])], Restricted(entries, keys + {key}))
  {
    assert (rows + [ToRow(key, entries[key])])[..|rows|] == rows;
    assert Restricted(entries, keys + {key}) == Restricted(entries, keys)[key := entries[key]];
  }

  method SaveRows(entries: Entries) returns (rows: seq<Row>)
    ensures Describes(rows, entries)
  {
    rows := [];
    var todo := entries.Keys;
    while todo != {}
      invariant todo <= entries.Keys && Describes(rows, Restricted(entries, entries.Keys - todo))
    {
      var key :| key in todo;
      OneRowMore(rows, entries, entries.Keys - todo, key);
      assert entries.Keys - (todo - {key}) == (entries.Keys - todo) + {key};
      rows := rows + [ToRow(key, entries[key])];
      todo := todo - {key};
    }
    assert Restricted(entries, entries.Keys - todo) == entries;
  }

  /** The entry after a record, given the one before. */
  method Touched(prior: Entry, r: Record) returns (entry: Entry)
    ensures forall entries: Entries :: Prior(entries, r.key) == prior ==> entry == NewEntry(entries, r)
  {
    var explicitSignals, explicitAt := prior.signals, prior.explicitAt;
    if r.explicit {
      explicitAt := Some(r.now);
      explicitSignals := explicitSignals + map sig | sig in r.signals :: r.now;
    }
    entry := Entry(r.now, r.ruleIds, explicitAt, explicitSignals);
  }

  class ConsultationLedger {
    const retention: real
    const maxEntries: nat
    var entries: Entries
    var disk: File
    ghost var history: seq<Record>
    ghost var dropped: set<Pair>

    /** What the file holds is what memory holds, and that is within the cap. */
    ghost predicate Saved()
      reads this
    {
      |entries| <= maxEntries && FromFile(disk) == entries
    }

    /** Everything in the ledger was recorded. */
    ghost predicate Sound()
      reads this
    {
      Justified(history, entries)
    }

    /** Nothing within the retention time is missing, except what the cap dropped. */
    ghost predicate Exact()
      reads this
    {
      Sound() && Complete(history, entries, dropped, retention)
    }

    /** `__init__` over an existing file. */
    constructor (retention: real, maxEntries: nat, disk: File)
      ensures this.retention == retention && this.maxEntries == maxEntries && this.disk == disk
      ensures Newest(entries, FromFile(disk), maxEntries) && history == [] && dropped == {}
      ensures !disk.Rows? ==> entries == map[] && Saved() && Exact()
    {
      this.retention, this.maxEntries, this.disk := retention, maxEntries, disk;
      entries, history, dropped := map[], [], {};
      new;
      Load();
    }

    /** `_load` and the cap that follows it. */
    method Load()
      modifies this`entries
      ensures Newest(entries, FromFile(disk), maxEntries)
    {
      entries := map[];
      if disk.Rows? {
        entries := LoadRows(disk.rows);
      }
      entries := EnforceCap(entries, maxEntries);
    }

    /** `_evict`. */
    method Evict(now: real)
      modifies this`entries
      ensures Newest(entries, Pruned(old(entries), now - retention), maxEntries)
    {
      var cutoff := now - retention;
      var pruned := Pruned(entries, cutoff);
      entries := EnforceCap(pruned, maxEntries);
    }

    /**
    `record`. The ledger stays sound at any clock; it stays exact when the clock has not run backwards; and
    a prompt-hook record never turns an answer of the gate from no to yes.
    */
    method Note(r: Record)
      modifies this
      ensures Newest(entries, Noted(old(entries), r, retention), maxEntries) && Saved()
      ensures history == old(history) + [r]
      ensures dropped == old(dropped) + (Noted(old(entries), r, retention).Keys - entries.Keys)
      ensures old(Sound()) ==> Sound()
      ensures old(Exact()) && Nondecreasing(history) ==> Exact()
      ensures !r.explicit ==> NoMorePermissive(old(entries), entries)
      ensures old(Sound()) && UnderCap(history, |old(history)|, retention, maxEntries) ==> dropped == old(dropped)
    {
      ghost var before := entries;
      Put(r);
      Consequences(history, before, dropped, r, retention, entries, maxEntries);
      WithinCap(entries, Noted(before, r, retention), maxEntries);
      RoomForAll(history, before, r, retention, entries, maxEntries);
      dropped := dropped + (Noted(before, r, retention).Keys - entries.Keys);
      history := history + [r];
      Save();
    }

    /** `_save`. */
    method Save()
      modifies this`disk
      ensures FromFile(disk) == entries
    {
      var rows := SaveRows(entries);
      disk := Rows(rows);
    }

    /** The part of `record` that changes the entries. */
    method Put(r: Record)
      modifies this`entries
      ensures Newest(entries, Noted(old(entries), r, retention), maxEntries)
    {
      var entry := Touched(Prior(entries, r.key), r);
      entries := entries[r.key := entry];
      Evict(r.now);
    }

    /** A new process over the same file. */
    method Restart()
      modifies this`entries
      ensures old(Saved()) ==> entries == old(entries)
    {
      Load();
      if old(Saved()) {
        AllKept(entries, old(entries), maxEntries);
      }
    }

    method IsFresh(key: Pair, now: real, ttl: real, requireExplicit: bool) returns (yes: bool)
      ensures yes == Fresh(entries, key, now, ttl, requireExplicit)
      ensures Sound() && yes ==> EverFresh(history, key, now, ttl, requireExplicit)
      ensures Exact() && key !in dropped && ttl <= retention &&
              (history != [] ==> now >= history[|history| - 1].now) ==>
                (yes <==> EverFresh(history, key, now, ttl, requireExplicit))
    {
      if Sound() {
        AnswersAreSound(history, entries, key, now, ttl, requireExplicit);
      }
      if Exact() && key !in dropped && ttl <= retention && (history != [] ==> now >= history[|history| - 1].now) {
        AnswersAreExact(history, entries, dropped, retention, key, now, ttl, requireExplicit);
      }
      if key !in entries {
        return false;
      }
      if requireExplicit {
        if entries[key].explicitAt.None? {
          return false;
        }
        return now - entries[key].explicitAt.value <= ttl;
      }
      return now - entries[key].consultedAt <= ttl;
    }

    method FreshSignals(key: Pair, now: real, ttl: real) returns (signals: set<string>)
      ensures signals == Signals(entries, key, now, ttl)
      ensures Sound() ==> forall sig :: sig in signals ==> Covered(history, key, now, ttl, sig)
      ensures Exact() && key !in dropped && ttl <= retention &&
              (history != [] ==> now >= history[|history| - 1].now) ==>
                forall sig :: sig in signals <==> Covered(history, key, now, ttl, sig)
    {
      if Sound() {
        AnswersAreSound(history, entries, key, now, ttl, true);
      }
      if Exact() && key !in dropped && ttl <= retention && (history != [] ==> now >= history[|history| - 1].now) {
        AnswersAreExact(history, entries, dropped, retention, key, now, ttl, true);
      }
      if key !in entries {
        return {};
      }
      return set sig | sig in entries[key].signals && now - entries[key].signals[sig] <= ttl;
    }
  }

  lemma WithinCap(kept: Entries, all: Entries, cap: nat)
    requires Newest(kept, all, cap)
    ensures |kept| <= cap
  {
    assert |kept| == |kept.Keys|;
  }

  lemma AllKept(kept: Entries, all: Entries, cap: nat)
    requires Newest(kept, all, cap) && |all| <= cap
    ensures kept == all
  {
    assert all.Keys == kept.Keys + (all.Keys - kept.Keys);
    assert |all.Keys - kept.Keys| == 0;
  }

  /** What one `record` does to the two relations with the history, and to the gate's answers. */
  lemma Consequences(history: seq<Record>, before: Entries, dropped: set<Pair>, r: Record, retention: real,
                     after: Entries, cap: nat)
    requires Newest(after, Noted(before, r, retention), cap)
    ensures Justified(history, before) ==> Justified(history + [r], after)
    ensures Complete(history, before, dropped, retention) && Nondecreasing(history + [r]) ==>
              Complete(history + [r], after, dropped + (Noted(before, r, retention).Keys - after.Keys), retention)
    ensures !r.explicit ==> NoMorePermissive(before, after)
  {
    if Justified(history, before) {
      NotedIsJustified(history, before, r, retention);
      KeptIsJustified(history + [r], after, Noted(before, r, retention), cap);
    }
    if Complete(history, before, dropped, retention) && Nondecreasing(history + [r]) {
      NotedIsComplete(history, before, dropped, r, retention, after, cap);
    }
    if !r.explicit {
      forall key, now, ttl
        ensures (Fresh(after, key, now, ttl, true) ==> Fresh(before, key, now, ttl, true))
                && Signals(after, key, now, ttl) <= Signals(before, key, now, ttl)
      {
        HookNeverClears(before, r, retention, after, cap, key, now, ttl);
      }
    }
  }

  /** The pairs that consulted within the retention time before the `n`-th record, that one included. */
  ghost function ActivePairs(history: seq<Record>, n: nat, retention: real): set<Pair>
    requires n < |history|
  {
    set i | 0 <= i <= n && Retained(history[i], history[n].now, retention) :: history[i].key
  }

  /** From the `from`-th record on, no more pairs than the cap are active at a time. */
  ghost predicate UnderCap(history: seq<Record>, from: nat, retention: real, cap: nat) {
    forall n :: from <= n < |history| ==> |ActivePairs(history, n, retention)| <= cap
  }

  /** While no more pairs than the cap consulted within the retention time, the cap drops nothing. */
  lemma NothingDropped(history: seq<Record>, before: Entries, r: Record, retention: real, after: Entries, cap: nat)
    requires Justified(history, before) && Newest(after, Noted(before, r, retention), cap)
    requires |ActivePairs(history + [r], |history|, retention)| <= cap
    ensures after == Noted(before, r, retention)
  {
    var all, noted := history + [r], Noted(before, r, retention);
    assert all[|history|] == r;
    NotedIsJustified(history, before, r, retention);
    forall key | key in noted ensures key in ActivePairs(all, |history|, retention) {
      assert EntryRecorded(all, key, noted[key]);
      var i :| 0 <= i < |all| && all[i].key == key && all[i].now == noted[key].consultedAt;
      assert Retained(all[i], r.now, retention);
    }
    SmallerSet(noted.Keys, ActivePairs(all, |history|, retention));
    AllKept(after, noted, cap);
  }

  lemma RoomForAll(history: seq<Record>, before: Entries, r: Record, retention: real, after: Entries, cap: nat)
    requires Newest(after, Noted(before, r, retention), cap)
    ensures Justified(history, before) && UnderCap(history + [r], |history|, retention, cap) ==>
              Noted(before, r, retention).Keys - after.Keys == {}
  {
    if Justified(history, before) && UnderCap(history + [r], |history|, retention, cap) {
      assert |ActivePairs(history + [r], |history|, retention)| <= cap;
      NothingDropped(history, before, r, retention, after, cap);
    }
  }

  // ---- Whole runs ------------------------------------------------------------------------------------

  datatype Event = Recording(r: Record) | Restarting

  /** The consultations of a run, in order. */
  function Recorded(run: seq<Event>): seq<Record>
    decreases |run|
  {
    if run == [] then [] else Recorded(run[..|run| - 1]) + RecordedBy(run[|run| - 1])
  }

  function RecordedBy(event: Event): seq<Record> {
    if event.Recording? then [event.r] else []
  }

  /**
  Any run of records and restarts: the ledger is always sound against the unbounded history, exact when
  the clock did not run backwards, and drops nothing while no more pairs than the cap are active at a time.
  */
  method Play(ledger: ConsultationLedger, run: seq<Event>)
    requires ledger.Saved() && ledger.Sound()
    modifies ledger
    ensures ledger.history == old(ledger.history) + Recorded(run) && ledger.Saved() && ledger.Sound()
    ensures old(ledger.Exact()) && Nondecreasing(ledger.history) ==> ledger.Exact()
    ensures old(ledger.dropped) <= ledger.dropped
    ensures UnderCap(ledger.history, |old(ledger.history)|, ledger.retention, ledger.maxEntries) ==>
              ledger.dropped == old(ledger.dropped)
  {
    ghost var start := ledger.history;
    ghost var exact := ledger.Exact();
    assert start + [] == start;
    for i := 0 to |run|
      invariant ledger.history == start + Recorded(run[..i]) && ledger.Saved() && ledger.Sound()
      invariant exact && Nondecreasing(ledger.history) ==> ledger.Exact()
      invariant old(ledger.dropped) <= ledger.dropped
      invariant UnderCap(ledger.history, |start|, ledger.retention, ledger.maxEntries) ==>
                  ledger.dropped == old(ledger.dropped)
    {
      assert run[..i + 1][..i] == run[..i];
      ghost var before := ledger.history;
      PlayOne(ledger, run[i]);
      HistoryGrows(before, RecordedBy(run[i]));
      if UnderCap(ledger.history, |start|, ledger.retention, ledger.maxEntries) {
        UnderCapBefore(before, RecordedBy(run[i]), |start|, ledger.retention, ledger.maxEntries);
      }
      Regroup(start, Recorded(run[..i]), RecordedBy(run[i]));
    }
    assert run[..|run|] == run;
  }

  method PlayOne(ledger: ConsultationLedger, event: Event)
    requires ledger.Saved() && ledger.Sound()
    modifies ledger
    ensures ledger.history == old(ledger.history) + RecordedBy(event) && ledger.Saved() && ledger.Sound()
    ensures old(ledger.Exact()) && Nondecreasing(ledger.history) ==> ledger.Exact()
    ensures old(ledger.dropped) <= ledger.dropped
    ensures UnderCap(ledger.history, |old(ledger.history)|, ledger.retention, ledger.maxEntries) ==>
              ledger.dropped == old(ledger.dropped)
  {
    match event {
      case Recording(r) =>
        ledger.Note(r);
      case Restarting => ledger.Restart();
    }
  }

  lemma HistoryGrows(history: seq<Record>, more: seq<Record>)
    ensures Nondecreasing(history + more) ==> Nondecreasing(history)
  {
    var all := history + more;
    assert forall i :: 0 <= i < |history| ==> all[i] == history[i];
    if Nondecreasing(all) {
      forall i, j | 0 <= i < j < |history| ensures history[i].now <= history[j].now {
        assert all[i] == history[i] && all[j] == history[j];
      }
    }
  }

  lemma UnderCapBefore(history: seq<Record>, more: seq<Record>, from: nat, retention: real, cap: nat)
    requires from <= |history| && UnderCap(history + more, from, retention, cap)
    ensures UnderCap(history, from, retention, cap) && UnderCap(history + more, |history|, retention, cap)
  {
    var all := history + more;
    forall n | from <= n < |history| ensures |ActivePairs(history, n, retention)| <= cap {
      assert forall i :: 0 <= i <= n ==> all[i] == history[i];
      assert ActivePairs(all, n, retention) == ActivePairs(history, n, retention);
    }
  }
}
