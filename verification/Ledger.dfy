/** The consultation ledger (src/data_olympus/enforce_policy.py:244-442): evicting, capped and persisted. */
module Ledger {
  import opened Common
  import opened Ranking
  import opened Lexical

  datatype Pair = Pair(session: string, workspace: string)

  datatype Entry = Entry(consultedAt: real, ruleIds: seq<string>, explicitAt: Option<real>, signals: map<string, real>)

  type Entries = map<Pair, Entry>

  /** One call of `record`; a prompt-hook consult is not explicit. */
  datatype Record = Record(key: Pair, ruleIds: seq<string>, now: real, explicit: bool, signals: seq<string>)

  // ---- What the gate asks ------------------------------------------------------------------------

  /** `is_fresh`, answered from the entries. */
  predicate Fresh(entries: Entries, key: Pair, now: real, ttl: real, requireExplicit: bool) {
    key in entries &&
    if requireExplicit then entries[key].explicitAt.Some? && now - entries[key].explicitAt.value <= ttl
    else now - entries[key].consultedAt <= ttl
  }

  /** `fresh_signals`, answered from the entries. */
  function Signals(entries: Entries, key: Pair, now: real, ttl: real): set<string> {
    if key !in entries then {}
    else set sig | sig in entries[key].signals && now - entries[key].signals[sig] <= ttl
  }

  /** The same question put to the list of all consultations ever recorded. */
  ghost predicate EverFresh(history: seq<Record>, key: Pair, now: real, ttl: real, requireExplicit: bool) {
    exists i :: 0 <= i < |history| && history[i].key == key && (requireExplicit ==> history[i].explicit)
      && now - history[i].now <= ttl
  }

  ghost predicate Covered(history: seq<Record>, key: Pair, now: real, ttl: real, sig: string) {
    exists i :: 0 <= i < |history| && history[i].key == key && history[i].explicit && sig in history[i].signals
      && now - history[i].now <= ttl
  }

  // ---- Recording and eviction ------------------------------------------------------------------

  function Prior(entries: Entries, key: Pair): Entry {
    if key in entries then entries[key] else Entry(0.0, [], None, map[])
  }

  /** The entry `record` stores: a prompt hook carries the explicit part forward. */
  function NewEntry(entries: Entries, r: Record): Entry {
    var prior := Prior(entries, r.key);
    if r.explicit then Entry(r.now, r.ruleIds, Some(r.now), prior.signals + map sig | sig in r.signals :: r.now)
    else Entry(r.now, r.ruleIds, prior.explicitAt, prior.signals)
  }

  function Trimmed(entry: Entry, cutoff: real): Entry {
    entry.(signals := map sig | sig in entry.signals && entry.signals[sig] >= cutoff :: entry.signals[sig])
  }

  /** `_evict` before the cap: rows and signals older than the cutoff are gone. */
  function Pruned(entries: Entries, cutoff: real): Entries {
    map key | key in entries && entries[key].consultedAt >= cutoff :: Trimmed(entries[key], cutoff)
  }

  function Noted(entries: Entries, r: Record, retention: real): Entries {
    Pruned(entries[r.key := NewEntry(entries, r)], r.now - retention)
  }

  /** The newest `cap` of the entries. */
  ghost predicate Newest(kept: Entries, all: Entries, cap: nat) {
    && kept.Keys <= all.Keys && |kept.Keys| == (if |all.Keys| > cap then cap else |all.Keys|)
    && (forall key :: key in kept ==> kept[key] == all[key])
    && (forall key, other :: key in kept && other in all && other !in kept ==>
          all[other].consultedAt <= all[key].consultedAt)
  }

  // ---- The ledger against the history ------------------------------------------------------------

  ghost predicate WasRecorded(history: seq<Record>, key: Pair, at: real, explicit: bool, sig: Option<string>) {
    exists i :: 0 <= i < |history| && history[i].key == key && history[i].now == at
      && (explicit ==> history[i].explicit) && (sig.Some? ==> sig.value in history[i].signals)
  }

  ghost predicate EntryRecorded(history: seq<Record>, key: Pair, e: Entry) {
    && WasRecorded(history, key, e.consultedAt, false, None)
    && (e.explicitAt.Some? ==> WasRecorded(history, key, e.explicitAt.value, true, None))
    && (forall sig :: sig in e.signals ==> WasRecorded(history, key, e.signals[sig], true, Some(sig)))
  }

  /** Everything the ledger holds was recorded. */
  ghost predicate Justified(history: seq<Record>, entries: Entries) {
    forall key :: key in entries ==> EntryRecorded(history, key, entries[key])
  }

  /** The entry holds everything the record said, or something later. */
  ghost predicate Holds(entries: Entries, r: Record) {
    && r.key in entries && entries[r.key].consultedAt >= r.now
    && (r.explicit ==>
          && entries[r.key].explicitAt.Some? && entries[r.key].explicitAt.value >= r.now
          && forall sig :: sig in r.signals ==> sig in entries[r.key].signals && entries[r.key].signals[sig] >= r.now)
  }

  predicate Retained(r: Record, now: real, retention: real) {
    r.now >= now - retention
  }

  /** Nothing from within the retention time is missing, except for keys the cap has dropped. */
  ghost predicate Complete(history: seq<Record>, entries: Entries, dropped: set<Pair>, retention: real) {
    forall i :: (0 <= i < |history| && history[i].key !in dropped &&
                 Retained(history[i], history[|history| - 1].now, retention)) ==>
      Holds(entries, history[i])
  }

  ghost predicate Nondecreasing(history: seq<Record>) {
    forall i, j :: 0 <= i < j < |history| ==> history[i].now <= history[j].now
  }

  lemma StillRecorded(history: seq<Record>, r: Record, key: Pair, at: real, explicit: bool, sig: Option<string>)
    requires WasRecorded(history, key, at, explicit, sig)
    ensures WasRecorded(history + [r], key, at, explicit, sig)
  {
    var i :| 0 <= i < |history| && history[i].key == key && history[i].now == at
      && (explicit ==> history[i].explicit) && (sig.Some? ==> sig.value in history[i].signals);
    assert (history + [r])[i] == history[i];
  }

  lemma EntryStays(history: seq<Record>, r: Record, key: Pair, e: Entry)
    requires EntryRecorded(history, key, e)
    ensures EntryRecorded(history + [r], key, e)
  {
    StillRecorded(history, r, key, e.consultedAt, false, None);
    if e.explicitAt.Some? {
      StillRecorded(history, r, key, e.explicitAt.value, true, None);
    }
    forall sig | sig in e.signals ensures WasRecorded(history + [r], key, e.signals[sig], true, Some(sig)) {
      StillRecorded(history, r, key, e.signals[sig], true, Some(sig));
    }
  }

  lemma NewEntryRecorded(history: seq<Record>, entries: Entries, r: Record)
    requires Justified(history, entries)
    ensures EntryRecorded(history + [r], r.key, NewEntry(entries, r))
  {
    var all, e, prior := history + [r], NewEntry(entries, r), Prior(entries, r.key);
    assert all[|history|] == r;
    if r.key in entries {
      EntryStays(history, r, r.key, prior);
    }
  }

  /** Recording keeps the ledger justified, at any clock, whatever is then evicted or dropped. */
  lemma NotedIsJustified(history: seq<Record>, entries: Entries, r: Record, retention: real)
    requires Justified(history, entries)
    ensures Justified(history + [r], Noted(entries, r, retention))
  {
    var noted := Noted(entries, r, retention);
    forall key | key in noted ensures EntryRecorded(history + [r], key, noted[key]) {
      if key == r.key {
        NewEntryRecorded(history, entries, r);
      } else {
        EntryStays(history, r, key, entries[key]);
      }
    }
  }

  lemma KeptIsJustified(history: seq<Record>, kept: Entries, all: Entries, cap: nat)
    requires Justified(history, all) && Newest(kept, all, cap)
    ensures Justified(history, kept)
  {
  }

  /** One more record keeps what an earlier, still retained record said. */
  lemma NotedHolds(entries: Entries, r: Record, retention: real, earlier: Record)
    requires Holds(entries, earlier) && earlier.now <= r.now && earlier.now >= r.now - retention
    ensures Holds(Noted(entries, r, retention), earlier)
  {
  }

  lemma NewHolds(entries: Entries, r: Record, retention: real)
    requires retention >= 0.0
    ensures Holds(Noted(entries, r, retention), r)
  {
  }

  /** With a clock that does not run backwards, recording keeps the ledger complete. */
  lemma NotedIsComplete(history: seq<Record>, entries: Entries, dropped: set<Pair>, r: Record, retention: real,
                        kept: Entries, cap: nat)
    requires Complete(history, entries, dropped, retention) && Nondecreasing(history + [r])
    requires Newest(kept, Noted(entries, r, retention), cap)
    ensures Complete(history + [r], kept, dropped + (Noted(entries, r, retention).Keys - kept.Keys), retention)
  {
    var all, noted := history + [r], Noted(entries, r, retention);
    forall i | 0 <= i < |all| && all[i].key !in dropped + (noted.Keys - kept.Keys) && Retained(all[i], r.now, retention)
      ensures Holds(kept, all[i])
    {
      if i < |history| {
        assert all[i] == history[i] && all[|history|] == r;
        assert all[|history| - 1] == history[|history| - 1];
        NotedHolds(entries, r, retention, history[i]);
      } else {
        NewHolds(entries, r, retention);
      }
    }
  }

  // ---- What follows for the answers ----------------------------------------------------------------

  /** The ledger never says more than the history does. */
  lemma AnswersAreSound(history: seq<Record>, entries: Entries, key: Pair, now: real, ttl: real, requireExplicit: bool)
    requires Justified(history, entries)
    ensures Fresh(entries, key, now, ttl, requireExplicit) ==> EverFresh(history, key, now, ttl, requireExplicit)
    ensures forall sig :: sig in Signals(entries, key, now, ttl) ==> Covered(history, key, now, ttl, sig)
  {
  }

  /** And for a key the cap has not dropped it says exactly as much. */
  lemma AnswersAreExact(history: seq<Record>, entries: Entries, dropped: set<Pair>, retention: real,
                        key: Pair, now: real, ttl: real, requireExplicit: bool)
    requires Justified(history, entries) && Complete(history, entries, dropped, retention)
    requires key !in dropped && ttl <= retention && (history != [] ==> now >= history[|history| - 1].now)
    ensures Fresh(entries, key, now, ttl, requireExplicit) <==> EverFresh(history, key, now, ttl, requireExplicit)
    ensures forall sig :: sig in Signals(entries, key, now, ttl) <==> Covered(history, key, now, ttl, sig)
  {
  }

  /** No question of the gate is answered yes after that was answered no before. */
  ghost predicate NoMorePermissive(before: Entries, after: Entries) {
    forall key, now, ttl ::
      (Fresh(after, key, now, ttl, true) ==> Fresh(before, key, now, ttl, true))
      && Signals(after, key, now, ttl) <= Signals(before, key, now, ttl)
  }

  /** A prompt-hook record never makes either answer of the gate more permissive, for any pair, time and ttl. */
  lemma HookNeverClears(entries: Entries, r: Record, retention: real, kept: Entries, cap: nat, key: Pair, now: real,
                        ttl: real)
    requires !r.explicit && Newest(kept, Noted(entries, r, retention), cap)
    ensures Fresh(kept, key, now, ttl, true) ==> Fresh(entries, key, now, ttl, true)
    ensures Signals(kept, key, now, ttl) <= Signals(entries, key, now, ttl)
  {
  }

  // ---- The file ------------------------------------------------------------------------------------

  /** The `explicit_at` of a stored row: rows from before the trigger split have none. */
  datatype Stored = Absent | Null | At(seconds: real)

  datatype Row =
    | Malformed
    | Row(key: Pair, consultedAt: real, ruleIds: Option<seq<string>>, explicitAt: Stored,
          signals: Option<map<string, real>>)

  datatype File = NoFile | Unreadable | Rows(rows: seq<Row>)

  function FromRow(row: Row): Entry
    requires row.Row?
  {
    Entry(row.consultedAt, if row.ruleIds.Some? then row.ruleIds.value else [],
          match row.explicitAt
          case Absent => Some(row.consultedAt)
          case Null => None
          case At(seconds) => Some(seconds),
          if row.signals.Some? then row.signals.value else map[])
  }

  /** A row from before the trigger split counts as explicit at the time it consulted; one from after says itself. */
  lemma LegacyRow(row: Row)
    requires row.Row?
    ensures FromRow(row).consultedAt == row.consultedAt
    ensures row.explicitAt == Absent ==> FromRow(row).explicitAt == Some(row.consultedAt)
    ensures row.explicitAt == Null ==> FromRow(row).explicitAt == None
    ensures forall seconds :: row.explicitAt == At(seconds) ==> FromRow(row).explicitAt == Some(seconds)
    ensures FromRow(row).ruleIds == (if row.ruleIds == None then [] else row.ruleIds.value)
    ensures FromRow(row).signals == (if row.signals == None then map[] else row.signals.value)
  {
  }

  function ToRow(key: Pair, e: Entry): Row {
    Row(key, e.consultedAt, Some(e.ruleIds), if e.explicitAt.Some? then At(e.explicitAt.value) else Null,
        Some(e.signals))
  }

  /** The rows in order, later ones winning; none at all when one cannot be read. */
  function FromRows(rows: seq<Row>): Option<Entries>
    decreases |rows|
  {
    if rows == [] then Some(map[])
    else
      var row := rows[|rows| - 1];
      if row.Malformed? then None
      else match FromRows(rows[..|rows| - 1])
        case None => None
        case Some(entries) => Some(entries[row.key := FromRow(row)])
  }

  function FromFile(file: File): Entries {
    if file.Rows? && FromRows(file.rows).Some? then FromRows(file.rows).value else map[]
  }

  lemma {:induction false} MalformedSpoilsAll(rows: seq<Row>, more: seq<Row>)
    requires FromRows(rows).None?
    ensures FromRows(rows + more).None?
    decreases |more|
  {
    if more == [] {
      assert rows + more == rows;
    } else {
      assert (rows + more)[..|rows + more| - 1] == rows + more[..|more| - 1];
      MalformedSpoilsAll(rows, more[..|more| - 1]);
    }
  }

  // ---- Reading, writing and capping, as loops -----------------------------------------------------

  /** The order `_enforce_cap` sorts by: newest first. Ties may fall either way. */
  predicate Newer(x: (real, Pair), y: (real, Pair)) {
    x.0 > y.0 || (x.0 == y.0 && PairBefore(x.1, y.1))
  }

  predicate PairBefore(x: Pair, y: Pair) {
    Before(x.session, y.session) || (x.session == y.session && Before(x.workspace, y.workspace))
  }

  lemma NewerIsTotal()
    ensures StrictTotal(Newer)
  {
    BeforeIsTotal();
  }

  function Stamped(entries: Entries, key: Pair): (real, Pair)
    requires key in entries
  {
    (entries[key].consultedAt, key)
  }

  /** `_enforce_cap`. */
  method EnforceCap(all: Entries, cap: nat) returns (kept: Entries)
    ensures Newest(kept, all, cap)
  {
    if |all| <= cap {
      return all;
    }
    var items := ListOf(set key | key in all :: Stamped(all, key));
    NewerIsTotal();
    SortAscends(Newer, items);
    var sorted := Sort(Newer, items);
    StampedCount(all, Elements(items));
    kept := Chosen(all, sorted[..cap]);
    FirstAreNewest(all, sorted, cap, kept);
  }

  function Chosen(all: Entries, items: seq<(real, Pair)>): Entries {
    map key | key in all && Stamped(all, key) in items :: all[key]
  }

  lemma StampedCount(all: Entries, stamped: set<(real, Pair)>)
    requires stamped == set key | key in all :: Stamped(all, key)
    ensures |stamped| == |all.Keys|
  {
    SameSize(all, all.Keys, stamped);
  }

  lemma {:induction false} SameSize(all: Entries, keys: set<Pair>, stamped: set<(real, Pair)>)
    requires keys <= all.Keys && stamped == set key | key in keys :: Stamped(all, key)
    ensures |stamped| == |keys|
    decreases |keys|
  {
    if keys != {} {
      var key :| key in keys;
      SameSize(all, keys - {key}, stamped - {Stamped(all, key)});
    }
  }

  lemma KeptAreNewer(all: Entries, sorted: seq<(real, Pair)>, cap: nat, key: Pair, other: Pair)
    requires Ascending(Newer, sorted) && cap < |sorted| && key in all && other in all
    requires Stamped(all, key) in sorted[..cap] && Stamped(all, other) in sorted &&
             Stamped(all, other) !in sorted[..cap]
    ensures all[other].consultedAt <= all[key].consultedAt
  {
  }

  lemma FirstAreNewest(all: Entries, sorted: seq<(real, Pair)>, cap: nat, kept: Entries)
    requires Ascending(Newer, sorted) && cap < |sorted| == |all.Keys|
    requires Elements(sorted) == set key | key in all :: Stamped(all, key)
    requires kept == Chosen(all, sorted[..cap])
    ensures Newest(kept, all, cap)
  {
    NewerIsTotal();
    AscendingPrefixCard(Newer, sorted, cap);
    assert forall x :: x in sorted[..cap] ==> x in Elements(sorted);
    KeptCount(all, kept, sorted[..cap]);
    forall key, other | key in kept && other in all && other !in kept
      ensures all[other].consultedAt <= all[key].consultedAt
    {
      assert Stamped(all, other) in Elements(sorted);
      KeptAreNewer(all, sorted, cap, key, other);
    }
  }

  lemma KeptCount(all: Entries, kept: Entries, items: seq<(real, Pair)>)
    requires kept == Chosen(all, items) && forall x :: x in items ==> exists key :: key in all && Stamped(all, key) == x
    ensures |kept.Keys| == |Elements(items)|
  {
    SameSize(all, kept.Keys, Elements(items));
  }
}
