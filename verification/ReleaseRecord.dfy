/**
Completing a stable release (scripts/release_record.py:954-1086): a listing that lags, uploads that may
fail half-way, other parties that may act at any time, and a publication that cannot be undone.
*/
module ReleaseRecord {
  import opened Common

  type Hash = string

  /** The release of one tag as the server holds it: every asset with the hash of its bytes. */
  datatype Release = Absent | Release(tag: string, notes: string, draft: bool, prerelease: bool,
                                      assets: map<string, Hash>)

  datatype Wanted = Wanted(tag: string, notes: string, expected: map<string, Hash>)

  datatype Problem =
    | WrongTag | NotPublished | WrongNotes | Unexpected(names: set<string>) | DifferentHash(name: string)
    | Burned(missing: set<string>) | Missing(names: set<string>)
    | NotCreated | ReadFailed | UploadFailed | PublishFailed

  // ---- The checks ----------------------------------------------------------------------------------

  function Foreign(r: Release, w: Wanted): set<string>
    requires r.Release?
  {
    r.assets.Keys - w.expected.Keys
  }

  function Lacking(r: Release, w: Wanted): set<string>
    requires r.Release?
  {
    w.expected.Keys - r.assets.Keys
  }

  /** `validate_existing_release`: the missing names, or the first check that fails. */
  method Validate(r: Release, w: Wanted, complete: bool, allowDraft: bool)
    returns (outcome: Result<set<string>, Problem>)
    requires r.Release?
    ensures outcome.Ok? <==> Acceptable(r, w, complete, allowDraft)
    ensures outcome.Ok? ==> outcome.value == Lacking(r, w)
    ensures (outcome.Err? && outcome.error.Burned?) <==> IncompletePublished(r, w)
    ensures IncompletePublished(r, w) ==> outcome == Err(Burned(Lacking(r, w)))
  {
    if r.tag != w.tag {
      return Err(WrongTag);
    }
    if (r.draft && !allowDraft) || r.prerelease {
      return Err(NotPublished);
    }
    if r.notes != w.notes {
      return Err(WrongNotes);
    }
    if Foreign(r, w) != {} {
      return Err(Unexpected(Foreign(r, w)));
    }
    var unread := r.assets.Keys;
    while unread != {}
      invariant unread <= r.assets.Keys
      invariant forall name :: name in r.assets && name !in unread ==>
                  name in w.expected && r.assets[name] == w.expected[name]
    {
      var name :| name in unread;
      assert name !in Foreign(r, w);
      if r.assets[name] != w.expected[name] {
        return Err(DifferentHash(name));
      }
      unread := unread - {name};
    }
    var missing := Lacking(r, w);
    if missing != {} && !r.draft {
      return Err(Burned(missing));
    }
    if complete && missing != {} {
      return Err(Missing(missing));
    }
    return Ok(missing);
  }

  /** Public, ours in everything it has, and short of something: this version can never be completed. */
  predicate IncompletePublished(r: Release, w: Wanted)
    requires r.Release?
  {
    && r.tag == w.tag && r.notes == w.notes && !r.prerelease && !r.draft
    && Submap(r.assets, w.expected) && Lacking(r, w) != {}
  }

  /** Only wanted bytes under wanted names, and all of them once the release is public or must be complete. */
  predicate Acceptable(r: Release, w: Wanted, complete: bool, allowDraft: bool)
    requires r.Release?
  {
    && r.tag == w.tag && r.notes == w.notes && !r.prerelease && (r.draft ==> allowDraft)
    && Submap(r.assets, w.expected)
    && (Lacking(r, w) != {} ==> r.draft && !complete)
  }

  // ---- How a release may change ----------------------------------------------------------------------

  /** Assets are added and never replaced, publication is never undone, and a published release is fixed. */
  predicate Grown(r: Release, s: Release) {
    r.Release? ==>
      && s.Release? && s.tag == r.tag && s.notes == r.notes && s.prerelease == r.prerelease
      && Submap(r.assets, s.assets) && (!r.draft ==> s == r)
  }

  /** The states the release has been in, oldest first: each has grown into the last. */
  ghost predicate IsHistory(history: seq<Release>) {
    history != [] && forall i :: 0 <= i < |history| ==> Grown(history[i], history[|history| - 1])
  }

  lemma HistoryGrows(history: seq<Release>, next: Release)
    requires IsHistory(history) && Grown(history[|history| - 1], next)
    ensures IsHistory(history + [next])
  {
    forall i | 0 <= i < |history| ensures Grown(history[i], next) {
      GrownTransitive(history[i], history[|history| - 1], next);
    }
  }

  lemma GrownTransitive(r: Release, s: Release, t: Release)
    requires Grown(r, s) && Grown(s, t)
    ensures Grown(r, t)
  {
  }

  /** Added under names that were free, with the wanted bytes. */
  function WithAssets(r: Release, names: set<string>, w: Wanted): Release
    requires r.Release? && names <= w.expected.Keys
  {
    r.(assets := r.assets + map name | name in names - r.assets.Keys :: w.expected[name])
  }

  // ---- The server --------------------------------------------------------------------------------------

  /**
  What happens around one call: another party may change the release first, a read returns the current
  state or the `at`-th there has been, and the call may fail, having taken effect in part or in whole.
  */
  datatype Turn = Turn(rival: Option<Release>, at: Option<nat>, fails: bool, took: bool, uploaded: set<string>)

  /** Nobody else acts and nothing fails, though a read may lag. */
  predicate Steady(now: Turn) {
    now.rival.None? && !now.fails
  }

  /** Nobody else acts, nothing fails and the read is current. */
  predicate Calm(now: Turn) {
    Steady(now) && now.at.None?
  }

  /** What a read returns: an older state, or the last. */
  function ViewOf(now: Turn, history: seq<Release>): Release
    requires history != []
  {
    if now.at.Some? && now.at.value < |history| then history[now.at.value] else history[|history| - 1]
  }

  /** The release as the other party leaves it, if the server's rules allow the move. */
  function AfterRival(r: Release, now: Turn): Release {
    if now.rival.Some? && Grown(r, now.rival.value) then now.rival.value else r
  }

  function NamesOf(r: Release): set<string> {
    if r.Release? then r.assets.Keys else {}
  }

  /** Some move of the other party between two turns has the name in it. */
  ghost predicate FromRival(env: nat -> Turn, from: nat, to: nat, name: string) {
    exists k :: from <= k < to && env(k).rival.Some? && name in NamesOf(env(k).rival.value)
  }

  /** A publication: the state it was applied to, and the names other parties had added by then. */
  datatype Publication = Publication(on: Release, added: set<string>)

  class Server {
    const env: nat -> Turn
    var turn: nat
    var history: seq<Release>
    ghost var publications: seq<Publication>
    /** The names other parties have added. */
    ghost var added: set<string>

    constructor (env: nat -> Turn, first: Release)
      ensures this.env == env && turn == 0 && history == [first] && publications == [] && added == {} && Sane()
    {
      this.env, turn, history, publications, added := env, 0, [first], [], {};
    }

    ghost predicate Sane()
      reads this
    {
      IsHistory(history) && added <= NamesOf(history[|history| - 1])
    }

    function Actual(): Release
      requires history != []
      reads this
    {
      history[|history| - 1]
    }

    /**
    Time has passed: the history has grown, and what is on the release now was there before, was added by
    another party in one of its moves, or is among `ours`.
    */
    twostate predicate Later(ours: set<string>)
      requires old(history) != [] && history != []
      reads this
    {
      && |old(history)| <= |history| && history[..|old(history)|] == old(history) && turn >= old(turn)
      && old(added) <= added && NamesOf(Actual()) <= old(NamesOf(Actual())) + added + ours
      && forall name :: name in added ==> name in old(added) || FromRival(env, old(turn), turn, name)
    }

    method Become(next: Release)
      requires IsHistory(history) && Grown(Actual(), next)
      modifies this`history
      ensures IsHistory(history) && history == old(history) + [next]
    {
      HistoryGrows(history, next);
      history := history + [next];
    }

    /** The other party's move; whatever the server's rules forbid does not happen. */
    method Advance() returns (now: Turn)
      requires Sane()
      modifies this`turn, this`history, this`added
      ensures Sane() && Later({}) && Grown(old(Actual()), Actual())
      ensures turn == old(turn) + 1 && now == env(old(turn)) && Actual() == AfterRival(old(Actual()), now)
      ensures now.rival.None? ==> history == old(history)
    {
      now := env(turn);
      turn := turn + 1;
      if now.rival.Some? && Grown(Actual(), now.rival.value) {
        added := added + (NamesOf(now.rival.value) - NamesOf(Actual()));
        Become(now.rival.value);
      }
    }

    /** `gh release view` with the downloads behind it. */
    method View() returns (seen: Result<Release, Problem>)
      requires Sane()
      modifies this`turn, this`history, this`added
      ensures Sane() && Later({}) && Grown(old(Actual()), Actual())
      ensures seen.Ok? ==> seen.value in history
      ensures seen == if env(old(turn)).fails then Err(ReadFailed) else Ok(ViewOf(env(old(turn)), history))
      ensures turn == old(turn) + 1
      ensures env(old(turn)).rival.None? ==> history == old(history)
    {
      var now := Advance();
      if now.fails {
        return Err(ReadFailed);
      }
      return Ok(ViewOf(now, history));
    }

    /** `gh release upload`, which never replaces: it fails when a name is taken, possibly half-way. */
    method Upload(names: set<string>, w: Wanted) returns (ok: bool)
      requires Sane() && names <= w.expected.Keys
      modifies this`turn, this`history, this`added
      ensures Sane() && Later(names) && Grown(old(Actual()), Actual())
      ensures old(Actual()).Release? && !old(Actual()).draft ==> Actual() == old(Actual())
      ensures turn == old(turn) + 1
      ensures Steady(env(old(turn))) && old(Actual()).Release? && old(Actual()).draft &&
              names * old(Actual()).assets.Keys == {} ==>
                ok && history == old(history) + [WithAssets(old(Actual()), names, w)]
      ensures ok ==> !env(old(turn)).fails
      ensures env(old(turn)).rival.None? ==>
                Actual() == old(Actual()) ||
                (old(Actual()).Release? &&
                 exists some: set<string> :: some <= names && Actual() == WithAssets(old(Actual()), some, w))
    {
      var now := Advance();
      ok := !now.fails && Actual().Release? && Actual().draft && names * Actual().assets.Keys == {};
      if Actual().Release? && Actual().draft {
        Become(WithAssets(Actual(), if ok || now.took then names else names * now.uploaded, w));
      }
    }

    /** `gh release edit --draft=false`; the call may time out after it took effect. */
    method Publish() returns (ok: bool)
      requires Sane()
      modifies this
      ensures Sane() && Later({}) && Grown(old(Actual()), Actual())
      ensures turn == old(turn) + 1
      ensures Steady(env(old(turn))) && old(Actual()).Release? && old(Actual()).draft ==>
                history == old(history) + [old(Actual()).(draft := false)]
      ensures Steady(env(old(turn))) && old(Actual()).Release? ==> ok && Actual() == old(Actual()).(draft := false)
      ensures ok <==> !env(old(turn)).fails && AfterRival(old(Actual()), env(old(turn))).Release?
      ensures var found := AfterRival(old(Actual()), env(old(turn)));
              && Grown(old(Actual()), found) && Grown(found, Actual())
              && (publications == old(publications) || publications == old(publications) + [Publication(found, added)])
              && (found.Release? && !env(old(turn)).fails ==>
                    publications == old(publications) + [Publication(found, added)])
              && NamesOf(found) <= old(NamesOf(Actual())) + added && added <= NamesOf(found)
      ensures env(old(turn)).rival.None? ==>
                Actual() == old(Actual()) || (old(Actual()).Release? && Actual() == old(Actual()).(draft := false))
    {
      var now := Advance();
      ok := !now.fails && Actual().Release?;
      if Actual().Release? && (ok || now.took) {
        publications := publications + [Publication(Actual(), added)];
        if Actual().draft {
          Become(Actual().(draft := false));
        }
      }
    }
  }
}
