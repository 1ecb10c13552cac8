/** `complete_release` (scripts/release_record.py:1009-1086) against a release that others may change meanwhile. */
module ReleaseCompletion {
  import opened Common
  import opened ReleaseRecord

  /** The number of delays in `LISTING_DELAYS`. */
  const LISTING_DELAYS := 6

  predicate Listed(found: Release, names: set<string>) {
    found.Release? && names <= found.assets.Keys
  }

  ghost predicate CalmFrom(env: nat -> Turn, from: nat) {
    forall k :: k >= from ==> Calm(env(k))
  }

  ghost predicate NobodyElse(env: nat -> Turn) {
    forall k :: env(k).rival.None?
  }

  /** From turn `from` on nobody else acts and nothing fails. */
  ghost predicate SteadyFrom(env: nat -> Turn, from: nat) {
    forall k :: k >= from ==> Steady(env(k))
  }

  ghost predicate ListedAt(env: nat -> Turn, history: seq<Release>, names: set<string>, m: nat)
    requires history != []
  {
    Listed(ViewOf(env(m), history), names)
  }

  /** None of the reads from `n` to before `m` lists the names. */
  ghost predicate NoneListed(env: nat -> Turn, history: seq<Release>, names: set<string>, n: nat, m: nat)
    requires history != []
  {
    forall k: nat :: n <= k < m ==> !ListedAt(env, history, names, k)
  }

  /** Read `m` is the first of the seven from `n` on to list the names. */
  ghost predicate FirstListed(env: nat -> Turn, history: seq<Release>, names: set<string>, n: nat, m: nat)
    requires history != []
  {
    n <= m < n + 7 && ListedAt(env, history, names, m) && NoneListed(env, history, names, n, m)
  }

  /** The poll from `n` on has ended with read `m`: the first that lists the names, or the seventh. */
  ghost predicate PollEnds(env: nat -> Turn, history: seq<Release>, names: set<string>, n: nat, m: nat)
    requires history != []
  {
    FirstListed(env, history, names, n, m) || (m == n + 6 && NoneListed(env, history, names, n, m + 1))
  }

  function Found(seen: Release): Result<Release, Problem> {
    if seen.Absent? then Err(NotCreated) else Ok(seen)
  }

  /** `_poll` and `_read_release`: the first state that lists the names, or the last one read. */
  method ReadRelease(server: Server, names: set<string>) returns (found: Result<Release, Problem>)
    requires server.Sane()
    modifies server`turn, server`history, server`added
    ensures server.Sane() && server.Later({}) && Grown(old(server.Actual()), server.Actual())
    ensures found.Ok? ==> found.value.Release? && found.value in server.history
    ensures found.Err? ==> found.error in {ReadFailed, NotCreated, UploadFailed, PublishFailed}
    ensures Calm(server.env(old(server.turn))) && Listed(old(server.Actual()), names) ==>
              found == Ok(old(server.Actual())) && server.history == old(server.history) &&
                server.turn == old(server.turn) + 1
    ensures NobodyElse(server.env) || CalmFrom(server.env, old(server.turn)) ==> server.history == old(server.history)
    ensures server.turn > old(server.turn)
    ensures SteadyFrom(server.env, old(server.turn)) ==>
              && server.history == old(server.history)
              && PollEnds(server.env, server.history, names, old(server.turn), server.turn - 1)
              && found == Found(ViewOf(server.env(server.turn - 1), server.history))
  {
    ghost var env, n, start := server.env, server.turn, server.history;
    var value := server.View();
    PollFirst(env, start, server.history, names, n, value);
    if value.Ok? && !Listed(value.value, names) {
      value := PollOn(server, names, value.value, n, start);
    }
    if value.Ok? && value.value.Absent? {
      return Err(NotCreated);
    }
    return value;
  }

  /** A poll that started at `n` and has not seen the names yet. */
  ghost predicate Polling(env: nat -> Turn, start: seq<Release>, history: seq<Release>, names: set<string>, n: nat,
                          turn: nat, value: Result<Release, Problem>)
    requires start != []
  {
    SteadyFrom(env, n) ==>
      history == start && turn > n && value == Ok(ViewOf(env(turn - 1), start)) &&
        NoneListed(env, start, names, n, turn)
  }

  /** A poll that started at `n` and has ended. */
  ghost predicate Polled(env: nat -> Turn, start: seq<Release>, history: seq<Release>, names: set<string>, n: nat,
                         turn: nat, value: Result<Release, Problem>)
    requires start != []
  {
    SteadyFrom(env, n) ==>
      history == start && turn > n && value == Ok(ViewOf(env(turn - 1), start)) &&
        PollEnds(env, start, names, n, turn - 1)
  }

  lemma PollFirst(env: nat -> Turn, start: seq<Release>, history: seq<Release>, names: set<string>, n: nat,
                  value: Result<Release, Problem>)
    requires start != [] && history != [] && (env(n).rival.None? ==> history == start)
    requires value == if env(n).fails then Err(ReadFailed) else Ok(ViewOf(env(n), history))
    ensures if value.Ok? && !Listed(value.value, names) then Polling(env, start, history, names, n, n + 1, value)
            else Polled(env, start, history, names, n, n + 1, value)
  {
    if SteadyFrom(env, n) {
      assert Steady(env(n));
    }
  }

  lemma PollStep(env: nat -> Turn, start: seq<Release>, before: seq<Release>, after: seq<Release>, names: set<string>,
                 n: nat, turn: nat, value: Result<Release, Problem>, next: Result<Release, Problem>)
    requires start != [] && before != [] && after != [] && Polling(env, start, before, names, n, turn, value)
    requires next == if env(turn).fails then Err(ReadFailed) else Ok(ViewOf(env(turn), after))
    requires n < turn < n + 7 && (env(turn).rival.None? ==> after == before)
    ensures if next.Ok? && !Listed(next.value, names) then Polling(env, start, after, names, n, turn + 1, next)
            else Polled(env, start, after, names, n, turn + 1, next)
  {
    if SteadyFrom(env, n) {
      assert Steady(env(turn));
    }
  }

  lemma PollLast(env: nat -> Turn, start: seq<Release>, history: seq<Release>, names: set<string>, n: nat,
                 value: Result<Release, Problem>)
    requires start != [] && Polling(env, start, history, names, n, n + 7, value)
    ensures Polled(env, start, history, names, n, n + 7, value)
  {
  }

  /** One more read of a poll. */
  method Reread(server: Server, names: set<string>, last: Result<Release, Problem>, ghost n: nat,
                ghost start: seq<Release>)
    returns (value: Result<Release, Problem>)
    requires server.Sane() && n < server.turn < n + 7 && start != []
    requires Polling(server.env, start, server.history, names, n, server.turn, last)
    modifies server`turn, server`history, server`added
    ensures server.Sane() && server.Later({}) && Grown(old(server.Actual()), server.Actual())
    ensures server.turn == old(server.turn) + 1
    ensures if value.Ok? then value.value in server.history else value.error == ReadFailed
    ensures server.env(old(server.turn)).rival.None? ==> server.history == old(server.history)
    ensures if value.Ok? && !Listed(value.value, names)
            then Polling(server.env, start, server.history, names, n, server.turn, value)
            else Polled(server.env, start, server.history, names, n, server.turn, value)
  {
    ghost var turn, before := server.turn, server.history;
    value := server.View();
    PollStep(server.env, start, before, server.history, names, n, turn, last, value);
  }

  /** After a first read at `n` that does not list the names, up to six more. */
  method PollOn(server: Server, names: set<string>, first: Release, ghost n: nat, ghost start: seq<Release>)
    returns (value: Result<Release, Problem>)
    requires server.Sane() && server.turn == n + 1 && first in server.history && start != []
    requires Polling(server.env, start, server.history, names, n, n + 1, Ok(first))
    modifies server`turn, server`history, server`added
    ensures server.Sane() && server.Later({}) && Grown(old(server.Actual()), server.Actual())
    ensures if value.Ok? then value.value in server.history else value.error == ReadFailed
    ensures NobodyElse(server.env) || CalmFrom(server.env, n) ==> server.history == old(server.history)
    ensures server.turn > n && Polled(server.env, start, server.history, names, n, server.turn, value)
  {
    value := Ok(first);
    for i := 0 to LISTING_DELAYS
      invariant server.Sane() && server.Later({}) && Grown(old(server.Actual()), server.Actual())
      invariant value.Ok? && value.value in server.history && server.turn == n + i + 1
      invariant NobodyElse(server.env) || CalmFrom(server.env, n) ==> server.history == old(server.history)
      invariant Polling(server.env, start, server.history, names, n, server.turn, value)
    {
      value := Reread(server, names, value, n, start);
      if value.Err? || Listed(value.value, names) {
        return;
      }
    }
    PollLast(server.env, start, server.history, names, n, value);
  }

  // ---- What the run relies on ------------------------------------------------------------------------

  /** The release, if there is one, is a draft of ours with only wanted bytes, or complete. */
  predicate Ours(r: Release, w: Wanted) {
    r.Release? ==> Acceptable(r, w, false, true)
  }

  /** The release is public, is no prerelease and holds exactly the expected bytes. */
  predicate Completed(r: Release, w: Wanted) {
    r == Release(w.tag, w.notes, false, false, w.expected)
  }

  predicate HoldsAll(r: Release, w: Wanted) {
    r.Release? && r.tag == w.tag && r.notes == w.notes && !r.prerelease && Submap(w.expected, r.assets)
  }

  lemma AcceptableIsWhole(r: Release, w: Wanted)
    requires r.Release? && Acceptable(r, w, true, true)
    ensures r.assets == w.expected && HoldsAll(r, w)
  {
    forall name | name in w.expected ensures name in r.assets {
      assert name !in Lacking(r, w);
    }
    assert r.assets.Keys == w.expected.Keys;
  }

  /** What has been seen complete stays complete under others' moves, though others may have added to a draft. */
  lemma SeenHolds(history: seq<Release>, seen: Release, w: Wanted)
    requires IsHistory(history) && seen in history && seen.Release? && Acceptable(seen, w, true, true)
    ensures HoldsAll(history[|history| - 1], w)
    ensures !seen.draft ==> Completed(history[|history| - 1], w)
  {
    AcceptableIsWhole(seen, w);
    var i :| 0 <= i < |history| && history[i] == seen;
    assert Grown(history[i], history[|history| - 1]);
  }

  lemma HoldsAllGrows(r: Release, s: Release, w: Wanted)
    requires HoldsAll(r, w) && Grown(r, s)
    ensures HoldsAll(s, w)
  {
  }

  lemma UploadedIsOurs(r: Release, some: set<string>, w: Wanted)
    requires r.Release? && r.draft && Ours(r, w) && some <= w.expected.Keys
    ensures Ours(WithAssets(r, some, w), w)
    ensures Lacking(r, w) <= some ==> Acceptable(WithAssets(r, some, w), w, true, true)
  {
  }

  /** The release is public and incomplete, and so it will stay. */
  predicate BurnedFor(r: Release, w: Wanted) {
    r.Release? && IncompletePublished(r, w)
  }

  lemma BurnedStays(history: seq<Release>, seen: Release, w: Wanted)
    requires IsHistory(history) && seen in history && BurnedFor(seen, w)
    ensures BurnedFor(history[|history| - 1], w)
  {
    var i :| 0 <= i < |history| && history[i] == seen;
    assert Grown(history[i], history[|history| - 1]);
  }

  /** The release with exactly the expected bytes. */
  function Whole(w: Wanted, draft: bool): Release {
    Release(w.tag, w.notes, draft, false, w.expected)
  }

  lemma UploadedIsWhole(r: Release, w: Wanted, missing: set<string>)
    requires DraftOf(r, w, missing)
    ensures missing <= w.expected.Keys && WithAssets(r, missing, w) == Whole(w, true)
  {
    UploadedIsOurs(r, missing, w);
    AcceptableIsWhole(WithAssets(r, missing, w), w);
  }

  /** Published at turn `n`, the first read that finds the release shows it public. */
  ghost predicate PublicationShown(env: nat -> Turn, history: seq<Release>, w: Wanted, n: nat) {
    var after := history + [Whole(w, false)];
    exists m: nat :: FirstListed(env, after, {}, n + 1, m) && ViewOf(env(m), after) == Whole(w, false)
  }

  /** Uploaded at turn `n`, one of seven reads lists all names, and then the publication shows. */
  ghost predicate CompletionShown(env: nat -> Turn, history: seq<Release>, w: Wanted, n: nat) {
    var after := history + [Whole(w, true)];
    exists m: nat :: ListedThen(env, after, w, n, m)
  }

  ghost predicate ListedThen(env: nat -> Turn, after: seq<Release>, w: Wanted, n: nat, m: nat)
    requires after != []
  {
    FirstListed(env, after, w.expected.Keys, n + 1, m) && PublicationShown(env, after, w, m + 1)
  }

  lemma OneFirst(env: nat -> Turn, history: seq<Release>, names: set<string>, n: nat, m: nat, k: nat)
    requires history != [] && PollEnds(env, history, names, n, m) && FirstListed(env, history, names, n, k)
    ensures m == k
  {
    assert ListedAt(env, history, names, k);
    assert FirstListed(env, history, names, n, m) ==> ListedAt(env, history, names, m);
  }

  lemma SteadyLater(env: nat -> Turn, n: nat, m: nat)
    requires SteadyFrom(env, n) && n <= m
    ensures SteadyFrom(env, m)
  {
  }

  lemma WholeIsAcceptable(w: Wanted)
    ensures Acceptable(Whole(w, true), w, true, true)
  {
  }

  /** What the read after the publication decides. */
  lemma LastReadDecides(env: nat -> Turn, history: seq<Release>, w: Wanted, n: nat, m: nat)
    requires PollEnds(env, history + [Whole(w, false)], {}, n + 1, m)
    ensures PublicationShown(env, history, w, n) <==> ViewOf(env(m), history + [Whole(w, false)]) == Whole(w, false)
  {
    var after := history + [Whole(w, false)];
    if PublicationShown(env, history, w, n) {
      var k: nat :| FirstListed(env, after, {}, n + 1, k) && ViewOf(env(k), after) == Whole(w, false);
      OneFirst(env, after, {}, n + 1, m, k);
    }
    if ViewOf(env(m), after) == Whole(w, false) {
      assert ListedAt(env, after, {}, m);
      assert FirstListed(env, after, {}, n + 1, m);
    }
  }

  /** What the poll after an upload at turn `n` has decided by turn `m`: the rest is up to the publication, or over. */
  ghost predicate Decided(env: nat -> Turn, history: seq<Release>, w: Wanted, n: nat, found: Result<Release, Problem>,
                          m: nat) {
    if found == Ok(Whole(w, true))
    then CompletionShown(env, history, w, n) <==> PublicationShown(env, history + [Whole(w, true)], w, m)
    else !CompletionShown(env, history, w, n) &&
         (found.Ok? && found.value.Release? ==> !Acceptable(found.value, w, true, true))
  }

  lemma ListingDecides(env: nat -> Turn, history: seq<Release>, w: Wanted, n: nat, m: nat,
                       found: Result<Release, Problem>)
    requires IsHistory(history + [Whole(w, true)]) &&
             PollEnds(env, history + [Whole(w, true)], w.expected.Keys, n + 1, m)
    requires found == Found(ViewOf(env(m), history + [Whole(w, true)]))
    ensures Decided(env, history, w, n, found, m + 1)
  {
    var after, seen := history + [Whole(w, true)], ViewOf(env(m), history + [Whole(w, true)]);
    assert seen in after;
    if ListedAt(env, after, w.expected.Keys, m) {
      SeenIsWhole(after, seen, w);
      assert FirstListed(env, after, w.expected.Keys, n + 1, m);
      assert ListedThen(env, after, w, n, m) <==> PublicationShown(env, after, w, m + 1);
    } else if seen.Release? && Acceptable(seen, w, true, true) {
      AcceptableIsWhole(seen, w);
    }
    if CompletionShown(env, history, w, n) {
      var k: nat :| ListedThen(env, after, w, n, k);
      OneFirst(env, after, w.expected.Keys, n + 1, m, k);
    }
  }

  lemma SeenIsWhole(history: seq<Release>, seen: Release, w: Wanted)
    requires IsHistory(history) && seen in history && history[|history| - 1] == Whole(w, true)
    requires Listed(seen, w.expected.Keys)
    ensures seen == Whole(w, true)
  {
    var i :| 0 <= i < |history| && history[i] == seen;
    assert Grown(seen, Whole(w, true));
    assert seen.assets == w.expected;
  }

  /** The upload step: upload what is missing and read until everything is listed. */
  method UploadMissing(server: Server, w: Wanted, missing: set<string>) returns (found: Result<Release, Problem>)
    requires server.Sane() && missing <= w.expected.Keys
    modifies server`turn, server`history, server`added
    ensures server.Sane() && server.Later(missing) && Grown(old(server.Actual()), server.Actual())
    ensures found.Ok? ==> found.value.Release? && found.value in server.history
    ensures found.Err? ==> found.error in {ReadFailed, NotCreated, UploadFailed, PublishFailed}
    ensures NobodyElse(server.env) && Ours(old(server.Actual()), w) ==> Ours(server.Actual(), w)
    ensures CalmFrom(server.env, old(server.turn)) && DraftOf(old(server.Actual()), w, missing) ==>
              found == Ok(server.Actual()) && Acceptable(server.Actual(), w, true, true) && server.Actual().draft
    ensures server.turn > old(server.turn)
    ensures SteadyFrom(server.env, old(server.turn)) && DraftOf(old(server.Actual()), w, missing) ==>
              && server.history == old(server.history) + [Whole(w, true)]
              && Decided(server.env, old(server.history), w, old(server.turn), found, server.turn)
  {
    ghost var env, n, history := server.env, server.turn, server.history;
    var ok := UploadOnce(server, w, missing);
    if !ok {
      return Err(UploadFailed);
    }
    found := ReadListed(server, w, n, history);
  }

  /** The read after an upload at turn `n`. */
  method ReadListed(server: Server, w: Wanted, ghost n: nat, ghost history: seq<Release>)
    returns (found: Result<Release, Problem>)
    requires server.Sane() && server.turn == n + 1
    modifies server`turn, server`history, server`added
    ensures server.Sane() && server.Later({}) && Grown(old(server.Actual()), server.Actual()) && server.turn > n
    ensures found.Ok? ==> found.value.Release? && found.value in server.history
    ensures found.Err? ==> found.error in {ReadFailed, NotCreated, UploadFailed, PublishFailed}
    ensures NobodyElse(server.env) || CalmFrom(server.env, n) ==> server.history == old(server.history)
    ensures CalmFrom(server.env, n) && Listed(old(server.Actual()), w.expected.Keys) ==>
              found == Ok(old(server.Actual()))
    ensures SteadyFrom(server.env, n) && old(server.history) == history + [Whole(w, true)] ==>
              server.history == old(server.history) && Decided(server.env, history, w, n, found, server.turn)
  {
    ghost var start := server.history;
    found := ReadRelease(server, w.expected.Keys);
    if SteadyFrom(server.env, n) && start == history + [Whole(w, true)] {
      SteadyLater(server.env, n, n + 1);
      ListingDecides(server.env, history, w, n, server.turn - 1, found);
    }
  }

  /** One upload command for all the missing names. */
  method UploadOnce(server: Server, w: Wanted, missing: set<string>) returns (ok: bool)
    requires server.Sane() && missing <= w.expected.Keys
    modifies server`turn, server`history, server`added
    ensures server.Sane() && server.Later(missing) && Grown(old(server.Actual()), server.Actual()) &&
            server.turn == old(server.turn) + 1
    ensures NobodyElse(server.env) && Ours(old(server.Actual()), w) ==> Ours(server.Actual(), w)
    ensures Calm(server.env(old(server.turn))) && DraftOf(old(server.Actual()), w, missing) ==>
              ok && Acceptable(server.Actual(), w, true, true) && server.Actual().draft &&
                Listed(server.Actual(), w.expected.Keys)
    ensures Steady(server.env(old(server.turn))) && DraftOf(old(server.Actual()), w, missing) ==>
              ok && server.history == old(server.history) + [Whole(w, true)]
  {
    ghost var before := server.Actual();
    ok := server.Upload(missing, w);
    if DraftOf(before, w, missing) {
      UploadedIsWhole(before, w, missing);
    }
    if NobodyElse(server.env) && Ours(before, w) && server.Actual() != before {
      ghost var some :| some <= missing && server.Actual() == WithAssets(before, some, w);
      if before.draft {
        UploadedIsOurs(before, some, w);
      }
    }
    if DraftOf(before, w, missing) {
      UploadedIsOurs(before, missing, w);
      AcceptableIsWhole(WithAssets(before, missing, w), w);
    }
  }

  ghost predicate DraftOf(r: Release, w: Wanted, missing: set<string>) {
    r.Release? && r.draft && Ours(r, w) && missing == Lacking(r, w)
  }

  /** A publication between two moments: all expected bytes were there, and nothing of unknown origin. */
  ghost predicate Publishes(p: Publication, w: Wanted, r0: Release, a0: set<string>, r1: Release, a1: set<string>) {
    && HoldsAll(p.on, w) && Grown(r0, p.on) && Grown(p.on, r1)
    && NamesOf(p.on) <= NamesOf(r0) + p.added + w.expected.Keys
    && a0 <= p.added <= a1 && p.added <= NamesOf(p.on)
  }

  /** At most one publication, of that kind. */
  ghost predicate PublishedWhole(before: seq<Publication>, after: seq<Publication>, w: Wanted,
                                 r0: Release, a0: set<string>, r1: Release, a1: set<string>)
  {
    after == before || exists p :: Publishes(p, w, r0, a0, r1, a1) && after == before + [p]
  }

  /** The release at an earlier moment, from which only other parties' names and wanted ones have come. */
  lemma PublishedSince(before: seq<Publication>, after: seq<Publication>, w: Wanted, r: Release, a: set<string>,
                       r0: Release, a0: set<string>, r1: Release, a1: set<string>)
    requires PublishedWhole(before, after, w, r0, a0, r1, a1)
    requires Grown(r, r0) && a <= a0 && NamesOf(r0) <= NamesOf(r) + a0 + w.expected.Keys
    ensures PublishedWhole(before, after, w, r, a, r1, a1)
  {
    if after != before {
      var p :| Publishes(p, w, r0, a0, r1, a1) && after == before + [p];
      assert Publishes(p, w, r, a, r1, a1);
    }
  }

  /** The publishing step: publish, and read the result. */
  method PublishAndRead(server: Server, w: Wanted, ghost seen: Release) returns (found: Result<Release, Problem>)
    requires server.Sane() && seen in server.history && seen.Release? && Acceptable(seen, w, true, true)
    modifies server
    ensures server.Sane() && server.Later({}) && Grown(old(server.Actual()), server.Actual())
    ensures found.Ok? ==> found.value.Release? && found.value in server.history
    ensures found.Err? ==> found.error in {ReadFailed, NotCreated, UploadFailed, PublishFailed}
    ensures PublishedWhole(old(server.publications), server.publications, w, old(server.Actual()), old(server.added),
                           server.Actual(), server.added)
    ensures !server.env(old(server.turn)).fails ==>
              |server.publications| == |old(server.publications)| + 1 &&
              server.publications[|old(server.publications)|].on ==
                AfterRival(old(server.Actual()), server.env(old(server.turn)))
    ensures NobodyElse(server.env) && Ours(old(server.Actual()), w) ==> Ours(server.Actual(), w)
    ensures CalmFrom(server.env, old(server.turn)) && Acceptable(old(server.Actual()), w, true, true) ==>
              found == Ok(server.Actual()) && Completed(server.Actual(), w)
    ensures server.turn > old(server.turn)
    ensures SteadyFrom(server.env, old(server.turn)) && old(server.Actual()) == Whole(w, true) ==>
              && server.history == old(server.history) + [Whole(w, false)]
              && PollEnds(server.env, server.history, {}, old(server.turn) + 1, server.turn - 1)
              && found == Found(ViewOf(server.env(server.turn - 1), server.history))
  {
    ghost var before, r0, a0 := server.publications, server.Actual(), server.added;
    var ok := PublishNow(server, w, seen);
    ghost var r1, a1 := server.Actual(), server.added;
    if ok {
      found := ReadRelease(server, {});
    } else {
      found := Err(PublishFailed);
    }
    PublishedUntil(before, server.publications, w, r0, a0, r1, a1, server.Actual(), server.added);
  }

  method PublishNow(server: Server, w: Wanted, ghost seen: Release) returns (ok: bool)
    requires server.Sane() && seen in server.history && seen.Release? && Acceptable(seen, w, true, true)
    modifies server
    ensures server.Sane() && server.Later({}) && Grown(old(server.Actual()), server.Actual()) &&
            server.turn == old(server.turn) + 1
    ensures PublishedWhole(old(server.publications), server.publications, w, old(server.Actual()), old(server.added),
                           server.Actual(), server.added)
    ensures !server.env(old(server.turn)).fails ==>
              |server.publications| == |old(server.publications)| + 1 &&
              server.publications[|old(server.publications)|].on ==
                AfterRival(old(server.Actual()), server.env(old(server.turn)))
    ensures NobodyElse(server.env) && Ours(old(server.Actual()), w) ==> Ours(server.Actual(), w)
    ensures Calm(server.env(old(server.turn))) && Acceptable(old(server.Actual()), w, true, true) ==>
              ok && Completed(server.Actual(), w)
    ensures Steady(server.env(old(server.turn))) && old(server.Actual()) == Whole(w, true) ==>
              ok && server.history == old(server.history) + [Whole(w, false)]
  {
    SeenHolds(server.history, seen, w);
    ghost var before, a0 := server.Actual(), server.added;
    ghost var on := AfterRival(before, server.env(server.turn));
    HoldsAllGrows(before, on, w);
    ok := server.Publish();
    if Acceptable(before, w, true, true) {
      AcceptableIsWhole(before, w);
    }
    PublishedOurs(before, w);
    assert Publishes(Publication(on, server.added), w, before, a0, server.Actual(), server.added);
  }

  /** The publication is as whole at a later moment. */
  lemma PublishedUntil(before: seq<Publication>, after: seq<Publication>, w: Wanted,
                       r0: Release, a0: set<string>, r1: Release, a1: set<string>, r2: Release, a2: set<string>)
    requires PublishedWhole(before, after, w, r0, a0, r1, a1) && Grown(r1, r2) && a1 <= a2
    ensures PublishedWhole(before, after, w, r0, a0, r2, a2)
  {
    if after != before {
      var p :| Publishes(p, w, r0, a0, r1, a1) && after == before + [p];
      GrownTransitive(p.on, r1, r2);
      assert Publishes(p, w, r0, a0, r2, a2);
    }
  }

  lemma PublishedOurs(r: Release, w: Wanted)
    requires HoldsAll(r, w)
    ensures Ours(r, w) ==> Ours(r.(draft := false), w)
  {
  }

  /**
  `complete_release`. It publishes only a release that really holds all the expected bytes, and that holds
  nothing else if and only if no foreign name was on it at the start and none was added by another party
  before the publication; a normal return means that the release is public, no prerelease, and holds exactly
  them; a release that was public before is never changed; and from a state of its own, with nobody else and
  no failure, it completes. On a complete draft it publishes whatever the other party has made of it since
  the read.
  */
  method CompleteRelease(server: Server, w: Wanted) returns (outcome: Result<(), Problem>)
    requires server.Sane()
    modifies server
    ensures server.Sane() && server.Later(w.expected.Keys) && Grown(old(server.Actual()), server.Actual())
    ensures PublishedWhole(old(server.publications), server.publications, w, old(server.Actual()), old(server.added),
                           server.Actual(), server.added)
    ensures forall p :: server.publications == old(server.publications) + [p] ==>
              (p.on.Release? && p.on.assets == w.expected <==>
                 NamesOf(old(server.Actual())) + p.added <= w.expected.Keys)
    ensures NobodyElse(server.env) && Ours(old(server.Actual()), w) ==>
              forall p :: server.publications == old(server.publications) + [p] ==>
                  p.on.Release? && p.on.assets == w.expected
    ensures var t := old(server.turn);
            Calm(server.env(t)) && !server.env(t + 1).fails && CompleteDraft(old(server.Actual()), w) ==>
              |server.publications| == |old(server.publications)| + 1 &&
              server.publications[|old(server.publications)|].on == AfterRival(old(server.Actual()), server.env(t + 1))
    ensures outcome.Ok? ==> Completed(server.Actual(), w)
    ensures outcome.Err? && outcome.error.Burned? ==> BurnedFor(server.Actual(), w)
    ensures NobodyElse(server.env) && Ours(old(server.Actual()), w) ==> Ours(server.Actual(), w)
    ensures CalmFrom(server.env, old(server.turn)) && old(server.Actual()).Release? && Ours(old(server.Actual()), w) ==>
              outcome.Ok?
    ensures SteadyFrom(server.env, old(server.turn)) && server.env(old(server.turn)).at.None?
            && Unfinished(old(server.Actual()), w) ==>
              (outcome.Ok? <==> CompletionShown(server.env, old(server.history), w, old(server.turn) + 1))
  {
    ghost var start, a0, publications := server.Actual(), server.added, server.publications;
    outcome := ReadAndComplete(server, w);
    ExactWhen(publications, server.publications, w, start, a0, server.Actual(), server.added);
    if NobodyElse(server.env) && Ours(start, w) {
      NoneAdded(server.env, a0, server.added);
    }
  }

  lemma NoneAdded(env: nat -> Turn, a0: set<string>, a1: set<string>)
    requires NobodyElse(env) && forall name :: name in a1 ==>
               name in a0 || exists from, to :: FromRival(env, from, to, name)
    ensures a1 <= a0
  {
  }

  lemma CompleteIsAcceptable(r: Release, w: Wanted)
    ensures CompleteDraft(r, w) ==> Acceptable(r, w, false, true)
  {
  }

  /** A draft of ours that lacks something. */
  predicate Unfinished(r: Release, w: Wanted) {
    r.Release? && r.draft && Acceptable(r, w, false, true) && Lacking(r, w) != {}
  }

  predicate CompleteDraft(r: Release, w: Wanted) {
    r.Release? && r.draft && Acceptable(r, w, true, true)
  }

  method ReadAndComplete(server: Server, w: Wanted) returns (outcome: Result<(), Problem>)
    requires server.Sane()
    modifies server
    ensures server.Sane() && server.Later(w.expected.Keys) && Grown(old(server.Actual()), server.Actual())
    ensures PublishedWhole(old(server.publications), server.publications, w, old(server.Actual()), old(server.added),
                           server.Actual(), server.added)
    ensures var t := old(server.turn);
            Calm(server.env(t)) && !server.env(t + 1).fails && CompleteDraft(old(server.Actual()), w) ==>
              |server.publications| == |old(server.publications)| + 1 &&
              server.publications[|old(server.publications)|].on == AfterRival(old(server.Actual()), server.env(t + 1))
    ensures outcome.Ok? ==> Completed(server.Actual(), w)
    ensures outcome.Err? && outcome.error.Burned? ==> BurnedFor(server.Actual(), w)
    ensures NobodyElse(server.env) && Ours(old(server.Actual()), w) ==> Ours(server.Actual(), w)
    ensures CalmFrom(server.env, old(server.turn)) && old(server.Actual()).Release? && Ours(old(server.Actual()), w) ==>
              outcome.Ok?
    ensures SteadyFrom(server.env, old(server.turn)) && server.env(old(server.turn)).at.None?
            && Unfinished(old(server.Actual()), w) ==>
              (outcome.Ok? <==> CompletionShown(server.env, old(server.history), w, old(server.turn) + 1))
  {
    ghost var start, a0 := server.Actual(), server.added;
    ghost var certain := Calm(server.env(server.turn)) && start.Release? && Acceptable(start, w, false, true);
    CompleteIsAcceptable(start, w);
    var found := ReadRelease(server, {});
    assert certain ==> found == Ok(start) && server.Actual() == start;
    if found.Err? {
      return Err(found.error);
    }
    var missing := Validate(found.value, w, false, true);
    assert certain ==> missing.Ok?;
    if missing.Err? {
      if missing.error.Burned? {
        BurnedStays(server.history, found.value, w);
      }
      return Err(missing.error);
    }
    ghost var before, middle, a1 := server.publications, server.Actual(), server.added;
    outcome := CompleteFrom(server, w, found.value, missing.value);
    PublishedSince(before, server.publications, w, start, a0, middle, a1, server.Actual(), server.added);
  }

  /** After the first read: upload what it lacked, if anything, and go on. */
  method CompleteFrom(server: Server, w: Wanted, seen: Release, missing: set<string>)
    returns (outcome: Result<(), Problem>)
    requires server.Sane() && seen.Release? && seen in server.history
    requires Acceptable(seen, w, false, true) && missing == Lacking(seen, w)
    modifies server
    ensures server.Sane() && server.Later(w.expected.Keys) && Grown(old(server.Actual()), server.Actual())
    ensures PublishedWhole(old(server.publications), server.publications, w, old(server.Actual()), old(server.added),
                           server.Actual(), server.added)
    ensures !server.env(old(server.turn)).fails && CompleteDraft(seen, w) ==>
              |server.publications| == |old(server.publications)| + 1 &&
              server.publications[|old(server.publications)|].on ==
                AfterRival(old(server.Actual()), server.env(old(server.turn)))
    ensures outcome.Ok? ==> Completed(server.Actual(), w)
    ensures outcome.Err? && outcome.error.Burned? ==> BurnedFor(server.Actual(), w)
    ensures NobodyElse(server.env) && Ours(old(server.Actual()), w) ==> Ours(server.Actual(), w)
    ensures CalmFrom(server.env, old(server.turn)) && seen == old(server.Actual()) ==> outcome.Ok?
    ensures SteadyFrom(server.env, old(server.turn)) && seen == old(server.Actual()) && seen.draft && missing != {} ==>
              (outcome.Ok? <==> CompletionShown(server.env, old(server.history), w, old(server.turn)))
  {
    if missing == {} {
      outcome := FinishRelease(server, w, seen);
    } else {
      outcome := UploadAndFinish(server, w, seen, missing);
    }
  }

  method UploadAndFinish(server: Server, w: Wanted, seen: Release, missing: set<string>)
    returns (outcome: Result<(), Problem>)
    requires server.Sane() && seen.Release? && seen in server.history
    requires Acceptable(seen, w, false, true) && missing == Lacking(seen, w) && missing != {}
    modifies server
    ensures server.Sane() && server.Later(w.expected.Keys) && Grown(old(server.Actual()), server.Actual())
    ensures PublishedWhole(old(server.publications), server.publications, w, old(server.Actual()), old(server.added),
                           server.Actual(), server.added)
    ensures outcome.Ok? ==> Completed(server.Actual(), w)
    ensures outcome.Err? && outcome.error.Burned? ==> BurnedFor(server.Actual(), w)
    ensures NobodyElse(server.env) && Ours(old(server.Actual()), w) ==> Ours(server.Actual(), w)
    ensures CalmFrom(server.env, old(server.turn)) && seen == old(server.Actual()) ==> outcome.Ok?
    ensures SteadyFrom(server.env, old(server.turn)) && seen == old(server.Actual()) && seen.draft ==>
              (outcome.Ok? <==> CompletionShown(server.env, old(server.history), w, old(server.turn)))
  {
    ghost var start, a0 := server.Actual(), server.added;
    ghost var env, n, history := server.env, server.turn, server.history;
    var found := UploadMissing(server, w, missing);
    ghost var tested := SteadyFrom(env, n) && seen == start && seen.draft;
    ghost var m := server.turn;
    if tested {
      SteadyLater(env, n, m);
    }
    if found.Err? {
      return Err(found.error);
    }
    ghost var before, middle, a1 := server.publications, server.Actual(), server.added;
    outcome := FinishRelease(server, w, found.value);
    PublishedSince(before, server.publications, w, start, a0, middle, a1, server.Actual(), server.added);
  }

  /** The checks before and after publication. */
  method FinishRelease(server: Server, w: Wanted, release: Release) returns (outcome: Result<(), Problem>)
    requires server.Sane() && release.Release? && release in server.history
    modifies server
    ensures server.Sane() && server.Later({}) && Grown(old(server.Actual()), server.Actual())
    ensures PublishedWhole(old(server.publications), server.publications, w, old(server.Actual()), old(server.added),
                           server.Actual(), server.added)
    ensures !server.env(old(server.turn)).fails && CompleteDraft(release, w) ==>
              |server.publications| == |old(server.publications)| + 1 &&
              server.publications[|old(server.publications)|].on ==
                AfterRival(old(server.Actual()), server.env(old(server.turn)))
    ensures outcome.Ok? ==> Completed(server.Actual(), w)
    ensures outcome.Err? && outcome.error.Burned? ==> BurnedFor(server.Actual(), w)
    ensures NobodyElse(server.env) && Ours(old(server.Actual()), w) ==> Ours(server.Actual(), w)
    ensures (CalmFrom(server.env, old(server.turn)) && release == old(server.Actual()) &&
             Acceptable(release, w, true, true)) ==> outcome.Ok?
    ensures !Acceptable(release, w, true, true) ==> outcome.Err?
    ensures SteadyFrom(server.env, old(server.turn)) && release == Whole(w, true) && old(server.Actual()) == release ==>
              (outcome.Ok? <==> PublicationShown(server.env, old(server.history), w, old(server.turn)))
  {
    ghost var env, n, history := server.env, server.turn, server.history;
    WholeIsAcceptable(w);
    var valid := Validate(release, w, true, true);
    if valid.Err? {
      if valid.error.Burned? {
        BurnedStays(server.history, release, w);
      }
      return Err(valid.error);
    }
    var last := release;
    if release.draft {
      var found := PublishAndRead(server, w, release);
      if SteadyFrom(env, n) && release == Whole(w, true) && history[|history| - 1] == release {
        LastReadDecides(env, history, w, n, server.turn - 1);
      }
      if found.Err? {
        return Err(found.error);
      }
      last := found.value;
    }
    valid := Validate(last, w, true, false);
    if valid.Err? {
      if valid.error.Burned? {
        BurnedStays(server.history, last, w);
      }
      return Err(valid.error);
    }
    SeenHolds(server.history, last, w);
    return Ok(());
  }

  /** Of a state that holds all expected bytes: it is exact when every name on it is expected. */
  lemma ExactUnlessForeign(r: Release, w: Wanted)
    requires HoldsAll(r, w)
    ensures r.assets == w.expected <==> NamesOf(r) <= w.expected.Keys
  {
    if NamesOf(r) <= w.expected.Keys {
      assert r.assets.Keys == w.expected.Keys;
    }
  }

  /** So a publication is exact when what was there at the start and what others had added by then is expected. */
  lemma ExactWhen(before: seq<Publication>, after: seq<Publication>, w: Wanted, r0: Release, a0: set<string>,
                  r1: Release, a1: set<string>)
    requires PublishedWhole(before, after, w, r0, a0, r1, a1)
    ensures forall p :: after == before + [p] ==>
              (p.on.Release? && p.on.assets == w.expected <==> NamesOf(r0) + p.added <= w.expected.Keys) &&
                p.added <= a1
  {
    forall p | after == before + [p]
      ensures p.added <= a1
      ensures p.on.Release? && p.on.assets == w.expected <==> NamesOf(r0) + p.added <= w.expected.Keys
    {
      var q :| Publishes(q, w, r0, a0, r1, a1) && after == before + [q];
      assert p == after[|before|] == q;
      ExactUnlessForeign(p.on, w);
    }
  }

  /** Any number of failed or crashed runs, with nobody else about, leave a release of our own. */
  method FailedRuns(server: Server, w: Wanted, runs: nat)
    requires server.Sane() && server.Actual().Release? && Ours(server.Actual(), w) && NobodyElse(server.env)
    modifies server
    ensures server.Sane() && Grown(old(server.Actual()), server.Actual()) && Ours(server.Actual(), w)
  {
    for i := 0 to runs
      invariant server.Sane() && Grown(old(server.Actual()), server.Actual()) && Ours(server.Actual(), w)
    {
      var _ := CompleteRelease(server, w);
    }
  }

  /** From every such state a calm run completes the release. */
  method CalmRun(server: Server, w: Wanted) returns (outcome: Result<(), Problem>)
    requires server.Sane() && server.Actual().Release? && Ours(server.Actual(), w) && CalmFrom(server.env, server.turn)
    modifies server
    ensures server.Sane() && outcome.Ok? && Completed(server.Actual(), w)
  {
    outcome := CompleteRelease(server, w);
  }

  /**
  The failing input: the one read shows a complete draft, and just before the publication another party adds
  an asset. The run makes that draft public, foreign asset and all, and then ends in an error.
  */
  method HiddenAsset() returns (server: Server, outcome: Result<(), Problem>)
    ensures var w, crowded := Wheel(), CrowdedDraft();
            && Foreign(crowded, w) == {"extra"} && |server.publications| == 1 && server.publications[0].on == crowded
            && outcome.Err?
  {
    var quiet, crowd := Turn(None, None, false, false, {}), Turn(Some(CrowdedDraft()), None, false, false, {});
    server := new Server(k => if k == 1 then crowd else quiet, WheelDraft());
    assert AfterRival(WheelDraft(), crowd) == CrowdedDraft();
    outcome := CompleteRelease(server, Wheel());
    assert server.publications == [] + [server.publications[0]];
    assert "extra" in server.publications[0].on.assets;
  }

  function Wheel(): Wanted {
    Wanted("v1", "notes", map["wheel" := "bytes"])
  }

  function WheelDraft(): Release {
    Release("v1", "notes", true, false, map["wheel" := "bytes"])
  }

  function CrowdedDraft(): Release {
    Release("v1", "notes", true, false, map["wheel" := "bytes", "extra" := "other"])
  }
}
