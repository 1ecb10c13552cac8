/**
Publication of one release-candidate version (scripts/rc_verify_and_publish.py).

Four surfaces hold what is published under the version: the Git tag, the GitHub release, the PyPI
files and the GHCR image. The shared promotion lock makes phases of different runs exclusive, so a
phase is a method; a script decides at which write a phase dies, and what a lagging read shows.
Digests are symbolic: `Sha256(b)` is a free constructor.
*/
module Publication {
  import opened Common

  type Sha = string
  type Name = string
  type Digest = string

  /** File contents; the provenance receipt names the head, the Python files and the image it is for. */
  datatype Bytes = Blob(id: string) | Receipt(head: Sha, python: set<Name>, image: Digest)

  datatype Hash = Sha256(of: Bytes)

  const PROVENANCE: Name := "release-provenance.json"

  /** A candidate identity as `verify` returns it. */
  datatype Verified = Verified(head: Sha, image: Digest, assets: map<Name, Bytes>, python: map<Name, Hash>)

  /** What `verify` has checked: the receipt is about this head and image, and the hashes are those of the assets. */
  ghost predicate WellFormed(v: Verified) {
    && PROVENANCE in v.assets
    && v.assets[PROVENANCE] == Receipt(v.head, v.python.Keys, v.image)
    && forall n :: n in v.python ==> n in v.assets && v.python[n] == Sha256(v.assets[n])
  }

  /** The annotated tag: the commit it points at and the message binding every asset's hash. */
  datatype TagObject = TagObject(target: Sha, messageHead: Sha, hashes: map<Name, Hash>)

  datatype Release = Release(draft: bool, assets: map<Name, Bytes>)

  datatype World = World(tag: Option<TagObject>, release: Option<Release>, python: map<Name, Hash>,
                         image: Option<Digest>)

  const EMPTY: World := World(None, None, map[], None)

  function TagOf(v: Verified): TagObject {
    TagObject(v.head, v.head, map n | n in v.assets :: Sha256(v.assets[n]))
  }

  /** The tag's message binds the whole identity: two identities with the same tag are the same. */
  lemma TagBindsIdentity(a: Verified, b: Verified)
    requires WellFormed(a) && WellFormed(b) && TagOf(a) == TagOf(b)
    ensures a == b
  {
    var hashes := TagOf(a).hashes;
    assert hashes == TagOf(b).hashes;
    assert a.assets.Keys == hashes.Keys == b.assets.Keys;
    forall n | n in a.assets ensures a.assets[n] == b.assets[n] {
      assert hashes[n] == Sha256(a.assets[n]) == Sha256(b.assets[n]);
    }
    assert a.assets == b.assets;
    assert a.python == b.python;
  }

  // ---- What is true of the surfaces ---------------------------------------------

  /** Everything of `v` is published. */
  function CompleteWorld(v: Verified): World {
    World(Some(TagOf(v)), Some(Release(false, v.assets)), v.python, Some(v.image))
  }

  /**
  The surfaces belong to one identity: nothing exists before its tag does, every byte is its own, and
  a published release means that everything is published.
  */
  ghost predicate Owned(w: World, owner: Option<Verified>) {
    match owner
    case None => w == EMPTY
    case Some(v) =>
      && WellFormed(v) && w.tag == Some(TagOf(v))
      && Submap(w.python, v.python)
      && (w.image.Some? ==> w.image == Some(v.image))
      && (w.release.Some? ==>
            Submap(w.release.value.assets, v.assets) && (!w.release.value.draft ==> w == CompleteWorld(v)))
  }

  /** Surfaces only grow, and a published release stays published. */
  ghost predicate Grown(a: World, b: World) {
    && (a.tag.Some? ==> b.tag == a.tag)
    && ReleaseWithin(a.release, b.release)
    && Submap(a.python, b.python)
    && (a.image.Some? ==> b.image == a.image)
  }

  /** `a` is what a lagging listing may show of `b`. */
  predicate ReleaseWithin(a: Option<Release>, b: Option<Release>) {
    a.Some? ==> b.Some? && Submap(a.value.assets, b.value.assets) && (b.value.draft ==> a.value.draft)
  }

  /** What a write does: it takes effect; it is lost; or it takes effect and the phase dies all the same. */
  datatype Fate = Applied | Lost | AppliedThenDied

  /** One call to a registry: the fate of a write, and, for a lagging read, the older state it may show. */
  datatype Step = Step(fate: Fate, lag: Option<World>)

  ghost predicate CalmFrom(script: nat -> Step, n: nat) {
    forall m: nat :: m >= n ==> script(m) == Step(Applied, None)
  }

  /** Every write takes effect. */
  ghost predicate AppliedFrom(script: nat -> Step, n: nat) {
    forall m: nat :: m >= n ==> script(m).fate == Applied
  }

  lemma AppliedLater(script: nat -> Step, n: nat, m: nat)
    requires n <= m
    ensures AppliedFrom(script, n) ==> AppliedFrom(script, m) && script(m).fate == Applied
  {
  }

  /** The next `k` reads are current. */
  ghost predicate UpToDate(script: nat -> Step, n: nat, k: nat) {
    forall m: nat :: n <= m < n + k ==> script(m).lag == None
  }

  function SeenPython(step: Step, w: World): map<Name, Hash> {
    if step.lag.Some? && Submap(step.lag.value.python, w.python) then step.lag.value.python else w.python
  }

  /** A token without push access does not see drafts. */
  function SeenRelease(step: Step, w: World, drafts: bool): Option<Release> {
    var r := if step.lag.Some? && ReleaseWithin(step.lag.value.release, w.release) then step.lag.value.release
             else w.release;
    if drafts || (r.Some? && !r.value.draft) then r else None
  }

  /** The checks of `inventory` on the values it has read. */
  predicate Passes(v: Verified, python: map<Name, Hash>, image: Option<Digest>, tag: Option<TagObject>,
                   release: Option<Release>, drafts: bool)
  {
    && (tag.Some? ==> tag.value.target == v.head)
    && (image.Some? ==> image.value == v.image)
    && Submap(python, v.python)
    && (release.Some? ==>
          && tag.Some?
          && (!release.value.draft ==> release.value.assets == v.assets)
          && Submap(release.value.assets, v.assets))
    && (python != map[] || image.Some? ==>
          if drafts || release.Some? then
            release.Some? && PROVENANCE in release.value.assets
            && Get(v.assets, PROVENANCE) == Some(release.value.assets[PROVENANCE])
          else tag.Some?)
    && (tag.Some? ==> tag.value == TagOf(v))
  }

  /**
  What the inventory lets pass: nothing at all without a tag, and under a tag only `v`'s own, with a public
  release complete, and PyPI files or an image only behind the provenance asset of a release that is visible.
  */
  lemma PassesMeans(v: Verified, python: map<Name, Hash>, image: Option<Digest>, tag: Option<TagObject>,
                    release: Option<Release>, drafts: bool)
    ensures Passes(v, python, image, tag, release, drafts) <==>
              if tag == None then python == map[] && image == None && release == None
              else
                && tag == Some(TagOf(v)) && (image == None || image == Some(v.image))
                && (forall n :: n in python ==> n in v.python && python[n] == v.python[n])
                && (release == None ==> drafts ==> python == map[] && image == None)
                && (forall r :: release == Some(r) ==>
                      && (r.draft || r.assets == v.assets)
                      && (forall n :: n in r.assets ==> n in v.assets && r.assets[n] == v.assets[n])
                      && (python != map[] || image != None ==> "release-provenance.json" in r.assets))
  {
  }

  /** Passing the inventory means the surfaces are empty or already this identity's. */
  lemma PassingMeansOwner(v: Verified, w: World, owner: Option<Verified>, python: map<Name, Hash>,
                          release: Option<Release>, drafts: bool)
    requires WellFormed(v) && Owned(w, owner)
    requires Passes(v, python, w.image, w.tag, release, drafts)
    ensures owner == None || owner == Some(v)
  {
    if owner.Some? {
      TagBindsIdentity(v, owner.value);
    }
  }

  datatype Outcome = Done | Raised

  /** The registries, with the identity that first tagged the version as a ghost. */
  class Registries {
    const script: nat -> Step
    var world: World
    var clock: nat
    ghost var owner: Option<Verified>

    constructor (script: nat -> Step)
      ensures this.script == script && world == EMPTY && owner == None && clock == 0
    {
      this.script, world, clock, owner := script, EMPTY, 0, None;
    }

    /** Any write: `effect` is the state it produces when the registry accepts it. */
    method Commit(accepted: bool, effect: World, ghost newOwner: Option<Verified>) returns (ok: bool)
      modifies this
      ensures clock == old(clock) + 1
      ensures (world == old(world) && owner == old(owner)) || (accepted && world == effect && owner == newOwner)
      ensures ok ==> accepted && world == effect && owner == newOwner
      ensures accepted && script(old(clock)).fate == Applied ==> ok
    {
      var fate := script(clock).fate;
      clock := clock + 1;
      ok := accepted && fate == Applied;
      if accepted && fate != Lost {
        world, owner := effect, newOwner;
      }
    }

    method ReadPython() returns (seen: map<Name, Hash>)
      modifies this`clock
      ensures clock == old(clock) + 1 && seen == SeenPython(script(old(clock)), world)
    {
      seen := SeenPython(script(clock), world);
      clock := clock + 1;
    }

    method ReadRelease(drafts: bool) returns (seen: Option<Release>)
      modifies this`clock
      ensures clock == old(clock) + 1 && seen == SeenRelease(script(old(clock)), world, drafts)
    {
      seen := SeenRelease(script(clock), world, drafts);
      clock := clock + 1;
    }
  }

  /** Read every surface and check it. Nothing is written. */
  method Inventory(client: Registries, v: Verified, drafts: bool)
    returns (outcome: Outcome, python: map<Name, Hash>, image: Option<Digest>, release: Option<Release>)
    modifies client`clock
    ensures client.clock == old(client.clock) + 2 && image == client.world.image
    ensures python == SeenPython(client.script(old(client.clock)), client.world)
    ensures release == SeenRelease(client.script(old(client.clock) + 1), client.world, drafts)
    ensures outcome.Done? <==> Passes(v, python, image, client.world.tag, release, drafts)
  {
    python := client.ReadPython();
    image := client.world.image;
    release := client.ReadRelease(drafts);
    outcome := if Passes(v, python, image, client.world.tag, release, drafts) then Done else Raised;
  }

  // ---- reserve ---------------------------------------------------------------------

  /** What every phase keeps, whatever dies and whatever lags. */
  ghost predicate Kept(w0: World, o0: Option<Verified>, w1: World, o1: Option<Verified>) {
    Owned(w1, o1) && Grown(w0, w1) && (o0.Some? ==> o1 == o0)
  }

  /** The surfaces after a successful reservation. */
  function ReservedWorld(v: Verified, w: World): World {
    w.(tag := Some(TagOf(v)),
       release := Some(Release(if w.release.Some? then w.release.value.draft else true, v.assets)))
  }

  function WithAsset(w: World, n: Name, b: Bytes): World
    requires w.release.Some?
  {
    w.(release := Some(Release(w.release.value.draft, w.release.value.assets[n := b])))
  }

  /** One asset, if the release is a draft without it. */
  method UploadAsset(client: Registries, v: Verified, n: Name) returns (ok: bool)
    requires Owned(client.world, client.owner) && client.owner == Some(v) && client.world.release.Some? && n in v.assets
    modifies client
    ensures client.clock == old(client.clock) + 1 && client.owner == old(client.owner)
    ensures Kept(old(client.world), old(client.owner), client.world, client.owner)
    ensures client.world == old(client.world).(release := client.world.release)
    ensures client.world.release.Some? && client.world.release.value.draft == old(client.world.release).value.draft
    ensures ok ==> client.world.release.value.assets == old(client.world.release).value.assets[n := v.assets[n]]
    ensures client.world != old(client.world) || ok ==>
              old(client.world.release).value.draft && n !in old(client.world.release).value.assets
    ensures (old(client.world.release).value.draft && n !in old(client.world.release).value.assets
             && client.script(old(client.clock)).fate == Applied) ==> ok
  {
    var release := client.world.release.value;
    var accepted := release.draft && n !in release.assets;
    ok := client.Commit(accepted, WithAsset(client.world, n, v.assets[n]), client.owner);
  }

  /** Upload the assets a read of the draft lacks; an upload never replaces an asset. */
  method UploadAssets(client: Registries, v: Verified, current: Release) returns (outcome: Outcome)
    requires WellFormed(v) && Owned(client.world, client.owner) && client.owner == Some(v)
    requires client.world.release.Some? && Submap(current.assets, client.world.release.value.assets)
    modifies client
    ensures client.clock >= old(client.clock)
    ensures Kept(old(client.world), old(client.owner), client.world, client.owner)
    ensures client.world.python == old(client.world.python) && client.world.image == old(client.world.image)
    ensures outcome.Done? ==> client.world == ReservedWorld(v, old(client.world))
    ensures outcome.Done? ==> client.clock == old(client.clock) + |v.assets.Keys - current.assets.Keys|
    ensures (AppliedFrom(client.script, old(client.clock)) && old(client.world.release).value.draft
             && current.assets == old(client.world.release).value.assets) ==> outcome.Done?
  {
    var todo := v.assets.Keys - current.assets.Keys;
    ghost var draft := client.world.release.value.draft;
    ghost var sure := AppliedFrom(client.script,
                                  client.clock) && draft && current.assets == client.world.release.value.assets;
    while todo != {}
      invariant client.owner == Some(v) && client.clock >= old(client.clock)
      invariant client.clock + |todo| == old(client.clock) + |v.assets.Keys - current.assets.Keys|
      invariant Kept(old(client.world), old(client.owner), client.world, client.owner)
      invariant client.world == old(client.world).(release := client.world.release)
      invariant client.world.release.Some? && client.world.release.value.draft == draft
      invariant todo <= v.assets.Keys <= client.world.release.value.assets.Keys + todo
      invariant sure ==> client.world.release.value.assets.Keys !! todo
    {
      var n :| n in todo;
      assert sure ==> n !in client.world.release.value.assets && client.script(client.clock).fate == Applied;
      var ok := UploadAsset(client, v, n);
      if !ok {
        return Raised;
      }
      todo := todo - {n};
    }
    AllUploaded(client.world.release.value.assets, v.assets);
    outcome := Done;
  }

  lemma AllUploaded(some: map<Name, Bytes>, all: map<Name, Bytes>)
    requires Submap(some, all) && all.Keys <= some.Keys
    ensures some == all
  {
  }

  const LISTING_DELAYS := 6

  predicate Shows(script: nat -> Step, n: nat, w: World) {
    SeenRelease(script(n), w, true).Some?
  }

  /** Read `m` is the first of the seven from `n` on to show a release. */
  ghost predicate FirstShown(script: nat -> Step, n: nat, w: World, m: nat) {
    n <= m < n + 7 && Shows(script, m, w) && forall k: nat :: n <= k < m ==> !Shows(script, k, w)
  }

  /** None of the reads from `n` to before `m` shows a release. */
  ghost predicate NoneShown(script: nat -> Step, n: nat, w: World, m: nat) {
    forall k: nat :: n <= k < m ==> !Shows(script, k, w)
  }

  /** Seven reads of the listing, or as many as it takes until one shows a release. */
  method PollRelease(client: Registries) returns (seen: Option<Release>)
    modifies client`clock
    ensures client.clock > old(client.clock) && ReleaseWithin(seen, client.world.release)
    ensures seen == SeenRelease(client.script(client.clock - 1), client.world, true)
    ensures seen.None? ==> client.clock == old(client.clock) + 7
                           && NoneShown(client.script, old(client.clock), client.world, client.clock)
    ensures seen.Some? ==> FirstShown(client.script, old(client.clock), client.world, client.clock - 1)
  {
    seen := client.ReadRelease(true);
    var delays := LISTING_DELAYS;
    while delays > 0 && seen.None?
      invariant client.clock == old(client.clock) + 1 + (LISTING_DELAYS - delays) && delays >= 0
      invariant seen == SeenRelease(client.script(client.clock - 1), client.world, true)
      invariant NoneShown(client.script, old(client.clock), client.world, client.clock - 1)
    {
      assert !Shows(client.script, client.clock - 1, client.world);
      seen := client.ReadRelease(true);
      delays := delays - 1;
    }
  }

  /** The draft that a reservation creates. */
  function Created(v: Verified, w: World): World {
    w.(tag := Some(TagOf(v)), release := Some(Release(true, map[])))
  }

  /** Where the listing is polled, by a reservation that starts at `n` and finds no release. */
  function PollsFrom(n: nat, w: World): nat {
    n + (if w.tag.None? then 3 else 2)
  }

  /**
  When the writes of a reservation from `n` on take effect and it finds no release: the listing of the new draft,
  which ends it when none of seven reads shows it.
  */
  ghost predicate Listed(script: nat -> Step, n: nat, v: Verified, w: World, done: bool, shownAt: nat) {
    AppliedFrom(script, n) && w.release.None? ==>
      if done then FirstShown(script, PollsFrom(n, w), Created(v, w), shownAt)
      else NoneShown(script, PollsFrom(n, w), Created(v, w), PollsFrom(n, w) + 7)
  }

  lemma ListedTagged(script: nat -> Step, n: nat, v: Verified, w: World, done: bool, shownAt: nat)
    requires w.tag.None? && Listed(script, n + 1, v, w.(tag := Some(TagOf(v))), done, shownAt)
    ensures Listed(script, n, v, w, done, shownAt)
  {
    var tagged := w.(tag := Some(TagOf(v)));
    assert Created(v, tagged) == Created(v, w) && PollsFrom(n + 1, tagged) == PollsFrom(n, w);
    AppliedLater(script, n, n + 1);
  }

  /** The tag, if there is none. */
  method ReserveTag(client: Registries, v: Verified) returns (outcome: Outcome)
    requires WellFormed(v) && Owned(client.world, client.owner)
    requires client.owner == None || client.owner == Some(v)
    modifies client
    ensures Kept(old(client.world), old(client.owner), client.world, client.owner)
    ensures client.world == old(client.world) || client.world == old(client.world).(tag := Some(TagOf(v)))
    ensures client.owner == None || client.owner == Some(v)
    ensures outcome.Done? ==> client.owner == Some(v)
    ensures client.clock == old(client.clock) + if old(client.world.tag).None? then 1 else 0
    ensures client.script(old(client.clock)).fate == Applied ==> outcome.Done?
  {
    outcome := Done;
    if client.world.tag.None? {
      var ok := client.Commit(true, client.world.(tag := Some(TagOf(v))), Some(v));
      outcome := if ok then Done else Raised;
    }
  }

  /** The draft, if the listing shows no release: it is created, and the listing polled until it shows. */
  method ReserveDraft(client: Registries, v: Verified) returns (outcome: Outcome, current: Release)
    requires WellFormed(v) && Owned(client.world, client.owner) && client.owner == Some(v)
    modifies client
    ensures client.owner == Some(v) && client.clock > old(client.clock)
    ensures Kept(old(client.world), old(client.owner), client.world, client.owner)
    ensures client.world == old(client.world) ||
            (old(client.world.release).None? && client.world == Created(v, old(client.world)))
    ensures outcome.Done? ==>
              client.world.release.Some? && current.draft && Submap(current.assets, client.world.release.value.assets)
    ensures old(client.world.tag).Some? ==>
              Listed(client.script, old(client.clock), v, old(client.world), outcome.Done?, client.clock - 1)
    ensures AppliedFrom(client.script, old(client.clock)) && old(client.world.release).None? && outcome.Done? ==>
              client.world == Created(v, old(client.world))
    ensures UpToDate(client.script, old(client.clock), 1) && old(client.world.release).Some?
            && old(client.world.release).value.draft ==>
              outcome.Done? && Some(current) == old(client.world.release) && client.clock == old(client.clock) + 1
  {
    outcome, current := Raised, Release(false, map[]);
    var seen := client.ReadRelease(true);
    if seen.None? {
      var ok :=
        client.Commit(client.world.release.None?, client.world.(release := Some(Release(true, map[]))), client.owner);
      if !ok {
        return;
      }
      seen := PollRelease(client);
      if seen.None? {
        return;
      }
    }
    current := seen.value;
    outcome := if current.draft then Done else Raised;
  }

  /** The tag and the draft. */
  method ReserveRelease(client: Registries, v: Verified) returns (outcome: Outcome, current: Release)
    requires WellFormed(v) && Owned(client.world, client.owner)
    requires client.owner == None || client.owner == Some(v)
    modifies client
    ensures client.clock >= old(client.clock) && (outcome.Done? ==> client.clock > old(client.clock))
    ensures Kept(old(client.world), old(client.owner), client.world, client.owner)
    ensures client.owner == None || client.owner == Some(v)
    ensures client.world.python == old(client.world.python) && client.world.image == old(client.world.image)
    ensures outcome.Done? ==>
              && client.owner == Some(v) && client.world.release.Some? && current.draft
              && Submap(current.assets, client.world.release.value.assets)
              && ReservedWorld(v, client.world) == ReservedWorld(v, old(client.world))
    ensures Listed(client.script, old(client.clock), v, old(client.world), outcome.Done?,
                   if client.clock > 0 then client.clock - 1 else 0)
    ensures AppliedFrom(client.script, old(client.clock)) && old(client.world.release).None? && outcome.Done? ==>
              client.world == Created(v, old(client.world))
    ensures AppliedFrom(client.script, old(client.clock)) && UpToDate(client.script, old(client.clock), 1)
            && old(client.world.release).Some? && old(client.world.release).value.draft ==>
              outcome.Done? && client.world == old(client.world) && client.clock == old(client.clock) + 1
              && Some(current) == client.world.release
  {
    ghost var start, script, n := client.world, client.script, client.clock;
    current := Release(false, map[]);
    AppliedLater(script, n, n);
    outcome := ReserveTag(client, v);
    if outcome.Raised? {
      return;
    }
    AppliedLater(script, n, client.clock);
    outcome, current := ReserveDraft(client, v);
    if start.tag.None? {
      ListedTagged(script, n, v, start, outcome.Done?, client.clock - 1);
    }
  }

  /** `Registries.reserve`: the tag, the draft and its missing assets. */
  method ReserveSurfaces(client: Registries, v: Verified) returns (outcome: Outcome, ghost shownAt: nat)
    requires WellFormed(v) && Owned(client.world, client.owner)
    requires client.owner == None || client.owner == Some(v)
    modifies client
    ensures client.clock >= old(client.clock)
    ensures Kept(old(client.world), old(client.owner), client.world, client.owner)
    ensures client.owner == None || client.owner == Some(v)
    ensures client.world.python == old(client.world.python) && client.world.image == old(client.world.image)
    ensures outcome.Done? ==> client.owner == Some(v) && client.world == ReservedWorld(v, old(client.world))
    ensures Listed(client.script, old(client.clock), v, old(client.world), outcome.Done?, shownAt)
    ensures AppliedFrom(client.script, old(client.clock)) && old(client.world.release).None? && outcome.Done? ==>
              client.clock == shownAt + 1 + |v.assets|
    ensures AppliedFrom(client.script, old(client.clock)) && UpToDate(client.script, old(client.clock), 1)
            && old(client.world.release).Some? && old(client.world.release).value.draft ==>
              outcome.Done? && client.clock == old(client.clock) + 1
                                               + |v.assets.Keys - old(client.world.release).value.assets.Keys|
  {
    shownAt := 0;
    ghost var start, script, n := client.world, client.script, client.clock;
    var current;
    outcome, current := ReserveRelease(client, v);
    shownAt := if client.clock > 0 then client.clock - 1 else 0;
    if outcome.Raised? {
      return;
    }
    AppliedLater(script, n, client.clock);
    outcome := UploadAssets(client, v, current);
    if outcome.Raised? {
      assert !(AppliedFrom(script, n) && start.release.None?);
    }
  }

  /** An inventory that starts at `n` passes. */
  predicate InventoryPasses(script: nat -> Step, n: nat, v: Verified, w: World) {
    Passes(v, SeenPython(script(n), w), w.image, w.tag, SeenRelease(script(n + 1), w, true), true)
  }

  /** And it shows all assets. */
  predicate ReadsBack(script: nat -> Step, n: nat, v: Verified, w: World) {
    && InventoryPasses(script, n, v, w)
    && var seen := SeenRelease(script(n + 1), w, true); seen.Some? && seen.value.assets == v.assets
  }

  /** Where the `i`-th of the inventories from `n` on starts. */
  function InventoryAt(n: nat, i: nat): nat {
    n + 2 * i
  }

  /** One of the seven inventories from `n` on shows all assets, and none before it fails. */
  ghost predicate ReadBackInTime(script: nat -> Step, n: nat, v: Verified, w: World) {
    exists i: nat :: i < 7 && ReadsBack(script, InventoryAt(n, i), v, w) &&
      PassingUntil(script, n, v, w, i)
  }

  /** The inventories before the `i`-th pass and do not show all assets. */
  ghost predicate NotYet(script: nat -> Step, n: nat, v: Verified, w: World, i: nat) {
    forall j: nat :: j < i ==>
      InventoryPasses(script, InventoryAt(n, j), v, w) && !ReadsBack(script, InventoryAt(n, j), v, w)
  }

  lemma NotYetNext(script: nat -> Step, n: nat, v: Verified, w: World, i: nat)
    requires NotYet(script, n, v, w, i)
    requires InventoryPasses(script, InventoryAt(n, i), v, w) && !ReadsBack(script, InventoryAt(n, i), v, w)
    ensures NotYet(script, n, v, w, i + 1)
  {
  }

  /** The last inventory decides. */
  lemma LastDecides(script: nat -> Step, n: nat, v: Verified, w: World, i: nat)
    requires NotYet(script, n, v, w, i) && i < 7
    requires i == 6 || !InventoryPasses(script, InventoryAt(n, i), v, w) ||
             ReadsBack(script, InventoryAt(n, i), v, w)
    ensures ReadBackInTime(script, n, v, w) <==> ReadsBack(script, InventoryAt(n, i), v, w)
  {
    if ReadsBack(script, InventoryAt(n, i), v, w) {
      assert PassingUntil(script, n, v, w, i);
    }
  }

  ghost predicate PassingUntil(script: nat -> Step, n: nat, v: Verified, w: World, i: nat) {
    forall j: nat :: j < i ==> InventoryPasses(script, InventoryAt(n, j), v, w)
  }

  /** The readback after a reservation: up to seven inventories, until the release is complete. */
  method PollInventory(client: Registries, v: Verified)
    returns (outcome: Outcome, python: map<Name, Hash>, release: Option<Release>)
    modifies client`clock
    ensures client.clock >= old(client.clock)
    ensures Submap(python, client.world.python) && ReleaseWithin(release, client.world.release)
    ensures outcome.Done? ==> Passes(v, python, client.world.image, client.world.tag, release, true)
    ensures outcome.Done? && release.Some? && release.value.assets == v.assets <==>
              ReadBackInTime(client.script, old(client.clock), v, client.world)
    ensures UpToDate(client.script, old(client.clock), 14) ==> python == client.world.python
  {
    var image;
    ghost var n, script, i: nat := client.clock, client.script, 0;
    outcome, python, image, release := Inventory(client, v, true);
    var delays := LISTING_DELAYS;
    while outcome.Done? && delays > 0 && (release.None? || release.value.assets != v.assets)
      invariant i == LISTING_DELAYS - delays && 0 <= delays && client.clock == InventoryAt(n, i) + 2
      invariant image == client.world.image && python == SeenPython(script(InventoryAt(n, i)), client.world)
      invariant release == SeenRelease(script(InventoryAt(n, i) + 1), client.world, true)
      invariant outcome.Done? <==> InventoryPasses(script, InventoryAt(n, i), v, client.world)
      invariant NotYet(script, n, v, client.world, i)
    {
      NotYetNext(script, n, v, client.world, i);
      outcome, python, image, release := Inventory(client, v, true);
      delays, i := delays - 1, i + 1;
    }
    LastDecides(script, n, v, client.world, i);
  }

  /**
  A state from which the phases can complete `v`: empty, or `v`'s own, where nothing is on PyPI or
  GHCR before the provenance asset is on the release.
  */
  ghost predicate Recoverable(v: Verified, w: World) {
    || w == EMPTY
    || (&& Owned(w, Some(v))
        && (w.python != map[] || w.image.Some? ==> w.release.Some? && PROVENANCE in w.release.value.assets))
  }

  /** `v` is reserved: its tag, and a release with all its assets. */
  ghost predicate Reserved(v: Verified, w: World) {
    Owned(w, Some(v)) && w.release.Some? && w.release.value.assets == v.assets
  }

  /** In a readable, lag-free world the inventory passes exactly in the recoverable states. */
  lemma InventoryPassesIffRecoverable(v: Verified, w: World, owner: Option<Verified>)
    requires WellFormed(v) && Owned(w, owner)
    ensures Passes(v, w.python, w.image, w.tag, w.release, true) <==> Recoverable(v, w)
  {
  }

  /** How many of the assets a release lacks. */
  function Lacking(v: Verified, release: Release): nat {
    |v.assets.Keys - release.assets.Keys|
  }

  /** The new draft shows first at `shownAt`, and its assets in time after their uploads. */
  ghost predicate ShownAt(script: nat -> Step, n: nat, v: Verified, w: World, shownAt: nat) {
    && FirstShown(script, PollsFrom(n, w), Created(v, w), shownAt)
    && ReadBackInTime(script, shownAt + 1 + |v.assets|, v, ReservedWorld(v, w))
  }

  /**
  The listing shows a reservation in time, whose writes start at `n` and all take effect: the new draft within
  seven reads, and all its assets within seven inventories after the uploads.
  */
  ghost predicate ShownInTime(script: nat -> Step, n: nat, v: Verified, w: World) {
    if w.release.None? then exists shownAt: nat :: ShownAt(script, n, v, w, shownAt)
    else ReadBackInTime(script, n + 1 + Lacking(v, w.release.value), v, ReservedWorld(v, w))
  }

  /** The listing shows a complete release already. */
  predicate Complete(v: Verified, w: World) {
    w.release.Some? && w.release.value.assets == v.assets
  }

  lemma ReservedIsRecoverable(v: Verified, w: World)
    requires WellFormed(v) && Recoverable(v, w)
    ensures Owned(ReservedWorld(v, w), Some(v)) && Recoverable(v, ReservedWorld(v, w))
  {
  }

  /** Without lag it is shown at once. */
  lemma CalmIsInTime(script: nat -> Step, n: nat, v: Verified, w: World)
    requires CalmFrom(script, n) && WellFormed(v) && Recoverable(v, w)
    ensures ShownInTime(script, n, v, w)
  {
    ReservedIsRecoverable(v, w);
    var after := ReservedWorld(v, w);
    if w.release.None? {
      var first := PollsFrom(n, w);
      CalmLater(script, n, first);
      CalmShows(script, first, Created(v, w));
      CalmLater(script, n, first + 1 + |v.assets|);
      CalmReadsBack(script, first + 1 + |v.assets|, v, after);
      assert ShownAt(script, n, v, w, first);
    } else {
      var at := n + 1 + Lacking(v, w.release.value);
      CalmLater(script, n, at);
      CalmReadsBack(script, at, v, after);
    }
  }

  lemma CalmLater(script: nat -> Step, n: nat, m: nat)
    requires CalmFrom(script, n) && n <= m
    ensures CalmFrom(script, m)
  {
  }

  lemma CalmShows(script: nat -> Step, n: nat, w: World)
    requires CalmFrom(script, n) && w.release.Some?
    ensures FirstShown(script, n, w, n)
  {
    assert script(n) == Step(Applied, None);
  }

  lemma CalmReadsBack(script: nat -> Step, n: nat, v: Verified, w: World)
    requires CalmFrom(script, n) && WellFormed(v) && Owned(w, Some(v)) && Recoverable(v, w) && Complete(v, w)
    ensures ReadBackInTime(script, n, v, w)
  {
    InventoryPassesIffRecoverable(v, w, Some(v));
    assert script(n) == script(n + 1) == Step(Applied, None);
    assert ReadsBack(script, InventoryAt(n, 0), v, w) && PassingUntil(script, n, v, w, 0);
  }

  /** The writes of a reservation and their readback. */
  method ReserveAndReadBack(client: Registries, v: Verified) returns (outcome: Outcome, python: map<Name, Hash>)
    requires WellFormed(v) && Owned(client.world, client.owner)
    requires client.owner == None || client.owner == Some(v)
    modifies client
    ensures client.clock >= old(client.clock)
    ensures Kept(old(client.world), old(client.owner), client.world, client.owner)
    ensures client.owner == None || client.owner == Some(v)
    ensures client.world.python == old(client.world.python) && client.world.image == old(client.world.image)
    ensures outcome.Done? ==> client.owner == Some(v) && client.world == ReservedWorld(v, old(client.world))
    ensures Submap(python, client.world.python)
    ensures CalmFrom(client.script, old(client.clock)) && outcome.Done? ==> python == client.world.python
    ensures AppliedFrom(client.script, old(client.clock))
            && (old(client.world.release).Some? ==>
                  UpToDate(client.script, old(client.clock), 1) && old(client.world.release).value.draft) ==>
              (outcome.Done? <==> ShownInTime(client.script, old(client.clock), v, old(client.world)))
  {
    python := map[];
    ghost var script, n, start := client.script, client.clock, client.world;
    ghost var shownAt;
    outcome, shownAt := ReserveSurfaces(client, v);
    ghost var at := client.clock;
    if outcome.Raised? {
      if start.release.None? {
        NeverShown(script, n, v, start);
      }
      return;
    }
    var release;
    outcome, python, release := PollInventory(client, v);
    if outcome.Raised? || release.None? || release.value.assets != v.assets {
      outcome := Raised;
    }
    if AppliedFrom(script, n) && start.release.None? {
      ShownOnce(script, n, v, start, shownAt);
    }
  }

  lemma NeverShown(script: nat -> Step, n: nat, v: Verified, w: World)
    requires w.release.None?
    ensures var m := PollsFrom(n, w); NoneShown(script, m, Created(v, w), m + 7) ==>
              !ShownInTime(script, n, v, w)
  {
  }

  /** There is only one first read that shows the release. */
  lemma ShownOnce(script: nat -> Step, n: nat, v: Verified, w: World, shownAt: nat)
    requires w.release.None? && FirstShown(script, PollsFrom(n, w), Created(v, w), shownAt)
    ensures ShownInTime(script, n, v, w) <==> ReadBackInTime(script, shownAt + 1 + |v.assets|, v, ReservedWorld(v, w))
  {
    if ShownInTime(script, n, v, w) {
      var other: nat :| ShownAt(script, n, v, w, other);
      assert Shows(script, other, Created(v, w)) && Shows(script, shownAt, Created(v, w));
    } else {
      assert !ShownAt(script, n, v, w, shownAt);
    }
  }

  method Reserve(client: Registries, v: Verified) returns (outcome: Outcome, missing: set<Name>)
    requires WellFormed(v) && Owned(client.world, client.owner)
    modifies client
    ensures client.clock >= old(client.clock)
    ensures Kept(old(client.world), old(client.owner), client.world, client.owner)
    ensures client.world.python == old(client.world.python) && client.world.image == old(client.world.image)
    ensures outcome.Done? ==>
              && client.owner == Some(v) && client.world == ReservedWorld(v, old(client.world))
              && v.python.Keys - client.world.python.Keys <= missing <= v.python.Keys
    ensures old(client.owner).Some? && old(client.owner) != Some(v) ==>
              outcome.Raised? && client.world == old(client.world)
    ensures client.owner == old(client.owner) || client.owner == Some(v)
    ensures Recoverable(v, old(client.world)) ==> Recoverable(v, client.world)
    ensures CalmFrom(client.script, old(client.clock)) ==>
              && (outcome.Done? <==> Recoverable(v, old(client.world)))
              && (outcome.Raised? ==> client.world == old(client.world))
              && (outcome.Done? ==> missing == v.python.Keys - client.world.python.Keys)
    ensures AppliedFrom(client.script, old(client.clock)) && UpToDate(client.script, old(client.clock), 3) ==>
              (outcome.Done? <==> Recoverable(v, old(client.world))
                                  && (Complete(v, old(client.world))
                                      || ShownInTime(client.script, old(client.clock) + 2, v, old(client.world))))
  {
    missing := {};
    ghost var script, n, start, o := client.script, client.clock, client.world, client.owner;
    var python, image, release;
    outcome, python, image, release := Inventory(client, v, true);
    FirstInventory(script, n, v, start, o, python, release);
    if outcome.Raised? {
      return;
    }
    if release.None? || release.value.assets != v.assets {
      outcome, python := ReserveAndReadBack(client, v);
      RecoverableStays(v, start, client.world, o, client.owner);
      if outcome.Raised? {
        return;
      }
    }
    missing := v.python.Keys - python.Keys;
  }

  /** What the first inventory of a reservation means. */
  lemma FirstInventory(script: nat -> Step, n: nat, v: Verified, w: World, o: Option<Verified>,
                       python: map<Name, Hash>, release: Option<Release>)
    requires WellFormed(v) && Owned(w, o) && python == SeenPython(script(n), w)
    requires release == SeenRelease(script(n + 1), w, true)
    ensures Passes(v, python, w.image, w.tag, release, true) ==> o == None || o == Some(v)
    ensures Passes(v, python, w.image, w.tag, release, true) && release.Some? && release.value.assets == v.assets ==>
              o == Some(v) && Complete(v, w) && w == ReservedWorld(v, w)
    ensures UpToDate(script, n, 2) ==>
              (Passes(v, python, w.image, w.tag, release, true) <==> Recoverable(v, w)) && release == w.release
    ensures CalmFrom(script, n) ==> UpToDate(script, n, 3) && AppliedFrom(script, n)
                                    && (Recoverable(v, w) ==> ShownInTime(script, n + 2, v, w))
    ensures Recoverable(v, w) && !Complete(v, w) && w.release.Some? ==> w.release.value.draft
  {
    InventoryPassesIffRecoverable(v, w, o);
    if Passes(v, python, w.image, w.tag, release, true) {
      PassingMeansOwner(v, w, o, python, release, true);
    }
    if CalmFrom(script, n) && Recoverable(v, w) {
      CalmIsInTime(script, n + 2, v, w);
    }
  }

  lemma RecoverableStays(v: Verified, w: World, w1: World, o: Option<Verified>, o1: Option<Verified>)
    requires Kept(w, o, w1, o1) && (o1 == None || o1 == Some(v)) && w1.python == w.python && w1.image == w.image
    ensures Recoverable(v, w) ==> Recoverable(v, w1)
  {
  }

  // ---- stage-upload, publish, finalize ------------------------------------------------

  /** What the read-only jobs ask of surfaces they read without lag: the tag binds `v`, a public release is complete. */
  predicate Bound(v: Verified, w: World) {
    && w.tag.Some? && Passes(v, w.python, w.image, w.tag, SeenRelease(Step(Applied, None), w, false), false)
  }

  lemma ReservedIsBound(v: Verified, w: World)
    requires Reserved(v, w)
    ensures Bound(v, w)
  {
  }

  /** The check of the read-only jobs: the tag binds `v`, and any visible release is complete. */
  method ReservationBound(client: Registries, v: Verified)
    returns (outcome: Outcome, python: map<Name, Hash>, image: Option<Digest>)
    requires WellFormed(v) && Owned(client.world, client.owner)
    modifies client`clock
    ensures client.clock == old(client.clock) + 2
    ensures Submap(python, client.world.python) && image == client.world.image
    ensures outcome.Done? ==> client.owner == Some(v)
    ensures UpToDate(client.script, old(client.clock), 2) ==>
              python == client.world.python && (outcome.Done? <==> Bound(v, client.world))
  {
    var release;
    outcome, python, image, release := Inventory(client, v, false);
    if outcome.Done? {
      PassingMeansOwner(v, client.world, client.owner, python, release, false);
      if client.world.tag.None? || client.world.tag.value.target != v.head
         || (release.Some? && release.value.assets != v.assets) {
        outcome := Raised;
      }
    }
  }

  /** `stage-upload` and the upload action that follows it; an existing PyPI file is never replaced. */
  method StageUpload(client: Registries, v: Verified) returns (outcome: Outcome)
    requires WellFormed(v) && Owned(client.world, client.owner)
    modifies client
    ensures client.clock >= old(client.clock)
    ensures Kept(old(client.world), old(client.owner), client.world, client.owner)
    ensures client.world == old(client.world).(python := client.world.python)
    ensures outcome.Done? ==> client.owner == Some(v) && client.world.python == v.python
    ensures old(client.owner) != Some(v) ==> outcome.Raised? && client.world == old(client.world)
    ensures CalmFrom(client.script, old(client.clock)) ==> (outcome.Done? <==> Bound(v, old(client.world)))
  {
    var python, image;
    outcome, python, image := ReservationBound(client, v);
    if outcome.Raised? {
      return;
    }
    var missing := v.python.Keys - python.Keys;
    while missing != {}
      invariant client.clock >= old(client.clock) && client.owner == old(client.owner) == Some(v)
      invariant Kept(old(client.world), old(client.owner), client.world, client.owner)
      invariant client.world == old(client.world).(python := client.world.python)
      invariant missing <= v.python.Keys <= client.world.python.Keys + missing
      invariant CalmFrom(client.script, old(client.clock)) ==> client.world.python.Keys !! missing
    {
      var n :| n in missing;
      var accepted := n !in client.world.python;
      var ok := client.Commit(accepted, client.world.(python := client.world.python[n := v.python[n]]), client.owner);
      if !ok {
        return Raised;
      }
      missing := missing - {n};
    }
    assert client.world.python == v.python;
  }

  const PYPI_ATTEMPTS := 20

  /** One of the twenty reads from `n` on shows all files. */
  ghost predicate FilesShown(script: nat -> Step, n: nat, v: Verified, w: World) {
    exists m: nat :: n <= m < n + 20 && SeenPython(script(m), w) == v.python
  }

  method Publish(client: Registries, v: Verified) returns (outcome: Outcome)
    requires WellFormed(v) && Owned(client.world, client.owner)
    modifies client
    ensures client.clock >= old(client.clock)
    ensures Kept(old(client.world), old(client.owner), client.world, client.owner)
    ensures client.world == old(client.world).(image := client.world.image)
    ensures outcome.Done? ==>
              client.owner == Some(v) && client.world.python == v.python && client.world.image == Some(v.image)
    ensures client.world.image != old(client.world.image) ==> client.world.python == v.python
    ensures old(client.owner) != Some(v) ==> outcome.Raised? && client.world == old(client.world)
    ensures (CalmFrom(client.script, old(client.clock)) && Reserved(v, old(client.world))
             && old(client.world.python) == v.python) ==> outcome.Done?
    ensures AppliedFrom(client.script, old(client.clock)) && UpToDate(client.script, old(client.clock), 2)
            && Reserved(v, old(client.world)) ==>
              (outcome.Done? <==> FilesShown(client.script, old(client.clock) + 2, v, old(client.world)))
  {
    var python, image;
    CalmShowsFiles(client.script, client.clock, v, client.world);
    if Reserved(v, client.world) {
      ReservedIsBound(v, client.world);
    }
    outcome, python, image := ReservationBound(client, v);
    if outcome.Raised? {
      return;
    }
    outcome := PollFiles(client, v);
    if outcome.Raised? {
      return;
    }
    if image.None? {
      var ok := client.Commit(true, client.world.(image := Some(v.image)), client.owner);
      if !ok {
        return Raised;
      }
    }
    outcome := if client.world.image == Some(v.image) then Done else Raised;
  }

  lemma CalmShowsFiles(script: nat -> Step, n: nat, v: Verified, w: World)
    ensures CalmFrom(script, n) ==> AppliedFrom(script, n) && UpToDate(script, n, 2)
    ensures CalmFrom(script, n) && w.python == v.python ==> FilesShown(script, n + 2, v, w)
  {
    if CalmFrom(script, n) && w.python == v.python {
      assert script(n + 2) == Step(Applied, None);
      assert SeenPython(script(n + 2), w) == v.python;
    }
  }

  /** Up to twenty reads of PyPI, until one shows all files. */
  method PollFiles(client: Registries, v: Verified) returns (outcome: Outcome)
    modifies client`clock
    ensures client.clock >= old(client.clock)
    ensures outcome.Done? ==>
              FilesShown(client.script, old(client.clock), v, client.world) && Submap(v.python, client.world.python)
    ensures Submap(client.world.python, v.python) && FilesShown(client.script, old(client.clock), v, client.world) ==>
              outcome.Done?
  {
    var attempt := 0;
    while attempt < PYPI_ATTEMPTS
      invariant 0 <= attempt <= PYPI_ATTEMPTS && client.clock == old(client.clock) + attempt
      invariant forall m: nat :: old(client.clock) <= m < client.clock ==>
                  SeenPython(client.script(m), client.world) != v.python
    {
      var python := client.ReadPython();
      if !Submap(python, v.python) {
        return Raised;
      }
      if python == v.python {
        return Done;
      }
      attempt := attempt + 1;
    }
    outcome := Raised;
  }

  /** Everything of `v` is published but the draft release. */
  function DraftWorld(v: Verified): World {
    CompleteWorld(v).(release := Some(Release(true, v.assets)))
  }

  /** The readback at `n`, after the release has been made public, passes and shows it so. */
  ghost predicate PublicShown(script: nat -> Step, n: nat, v: Verified) {
    && InventoryPasses(script, n, v, CompleteWorld(v))
    && SeenRelease(script(n + 1), CompleteWorld(v), true) == Some(Release(false, v.assets))
  }

  lemma DraftOrPublic(v: Verified, w: World)
    requires Owned(w, Some(v)) && w.python == v.python && w.image == Some(v.image) && Complete(v, w)
    ensures w == if w.release.value.draft then DraftWorld(v) else CompleteWorld(v)
  {
  }

  lemma FinalReads(script: nat -> Step, n: nat, v: Verified)
    requires WellFormed(v)
    ensures UpToDate(script, n, 3) ==> InventoryPasses(script, n, v, DraftWorld(v))
    ensures UpToDate(script, n, 3) ==>
              SeenRelease(script(n + 1), DraftWorld(v), true) == SeenRelease(script(n + 2), DraftWorld(v),
                                                                             true) == Some(Release(true, v.assets))
    ensures UpToDate(script, n, 3) ==> SeenPython(script(n), DraftWorld(v)) == v.python
    ensures AppliedFrom(script, n) ==> script(n + 3).fate == Applied
  {
  }

  method Finalize(client: Registries, v: Verified) returns (outcome: Outcome)
    requires WellFormed(v) && Owned(client.world, client.owner)
    modifies client
    ensures client.clock >= old(client.clock)
    ensures Kept(old(client.world), old(client.owner), client.world, client.owner)
    ensures client.world == old(client.world) || client.world == CompleteWorld(v)
    ensures client.world == old(client.world).(release := client.world.release)
    ensures outcome.Done? ==> client.owner == Some(v) && client.world == CompleteWorld(v)
    ensures old(client.owner) != Some(v) ==> outcome.Raised? && client.world == old(client.world)
    ensures (CalmFrom(client.script, old(client.clock)) && Reserved(v, old(client.world))
             && old(client.world.python) == v.python && old(client.world.image) == Some(v.image)) ==> outcome.Done?
    ensures AppliedFrom(client.script, old(client.clock)) && UpToDate(client.script, old(client.clock), 3)
            && old(client.world) == DraftWorld(v) ==>
              (outcome.Done? <==> PublicShown(client.script, old(client.clock) + 4, v))
  {
    FinalReads(client.script, client.clock, v);
    var python, image, release;
    outcome, python, image, release := Inventory(client, v, true);
    if outcome.Raised? || release.None? || release.value.assets != v.assets || python != v.python
       || image != Some(v.image) {
      return Raised;
    }
    PassingMeansOwner(v, client.world, client.owner, python, release, true);
    assert client.world.python == v.python;
    assert client.world.release.value.assets == v.assets;
    if release.value.draft {
      DraftOrPublic(v, client.world);
      outcome := MakePublic(client, v);
    }
  }

  /** The release turns public, and is read back. */
  method MakePublic(client: Registries, v: Verified) returns (outcome: Outcome)
    requires WellFormed(v) && client.world in {DraftWorld(v), CompleteWorld(v)} && client.owner == Some(v)
    modifies client
    ensures client.clock >= old(client.clock) && client.owner == Some(v)
    ensures client.world == old(client.world) || client.world == CompleteWorld(v)
    ensures outcome.Done? ==> client.world == CompleteWorld(v)
    ensures client.script(old(client.clock)).lag == None && client.script(old(client.clock) + 1).fate == Applied
            && old(client.world) == DraftWorld(v) ==>
              (outcome.Done? <==> PublicShown(client.script, old(client.clock) + 2, v))
  {
    outcome := Raised;
    var found := client.ReadRelease(true);
    if found.Some? && found.value.draft {
      var ok := client.Commit(true, client.world.(release := Some(Release(false, client.world.release.value.assets))),
                              client.owner);
      if ok {
        var python, image, release;
        outcome, python, image, release := Inventory(client, v, true);
        if outcome.Raised? || release.None? || release.value.draft || release.value.assets != v.assets {
          outcome := Raised;
        }
      }
    }
  }

  // ---- Whole runs -----------------------------------------------------------------------

  datatype Phase = PhaseReserve | PhaseStageUpload | PhasePublish | PhaseFinalize

  /** One phase started for one identity. */
  datatype Job = Job(phase: Phase, v: Verified)

  method RunJob(client: Registries, job: Job) returns (outcome: Outcome)
    requires WellFormed(job.v) && Owned(client.world, client.owner)
    modifies client
    ensures Kept(old(client.world), old(client.owner), client.world, client.owner)
    ensures old(client.owner).Some? && old(client.owner) != Some(job.v) ==>
              outcome.Raised? && client.world == old(client.world)
  {
    match job.phase {
      case PhaseReserve =>
        var missing;
        outcome, missing := Reserve(client, job.v);
      case PhaseStageUpload => outcome := StageUpload(client, job.v);
      case PhasePublish => outcome := Publish(client, job.v);
      case PhaseFinalize => outcome := Finalize(client, job.v);
    }
  }

  /**
  Any phases of any identities claiming the version, in any order, dying at any write, under any lag:
  the surfaces only grow, all belong to the first identity tagged, and a published release means that
  identity is published completely.
  */
  method RunSchedule(client: Registries, jobs: seq<Job>)
    requires Owned(client.world, client.owner)
    requires forall i :: 0 <= i < |jobs| ==> WellFormed(jobs[i].v)
    modifies client
    ensures Kept(old(client.world), old(client.owner), client.world, client.owner)
    ensures client.world.release.Some? && !client.world.release.value.draft ==>
              client.owner.Some? && client.world == CompleteWorld(client.owner.value)
  {
    for i := 0 to |jobs|
      invariant Kept(old(client.world), old(client.owner), client.world, client.owner)
    {
      var _ := RunJob(client, jobs[i]);
    }
  }

  /** Nothing changes once everything is published. */
  lemma CompleteIsFinal(v: Verified, w: World)
    requires Kept(CompleteWorld(v), Some(v), w, Some(v))
    ensures w == CompleteWorld(v)
  {
  }

  lemma NothingMissing(v: Verified, w: World)
    requires Owned(w, Some(v)) && v.python.Keys - w.python.Keys == {}
    ensures w.python == v.python
  {
    assert v.python.Keys == (v.python.Keys - w.python.Keys) + (v.python.Keys * w.python.Keys);
  }

  /** What a phase finds done by those before it. */
  predicate Ready(v: Verified, from: Phase, w: World) {
    match from
    case PhaseReserve => true
    case PhaseStageUpload => true
    case PhasePublish => w.python == v.python
    case PhaseFinalize => w.python == v.python && w.image == Some(v.image)
  }

  /** The jobs after a successful reservation; the upload is skipped when PyPI lacked nothing. */
  method RunReserved(client: Registries, v: Verified, from: Phase, upload: bool) returns (outcome: Outcome)
    requires WellFormed(v) && Owned(client.world, client.owner) && client.owner == Some(v) && Reserved(v, client.world)
    requires from != PhaseReserve
    modifies client
    ensures Kept(old(client.world), old(client.owner), client.world, client.owner)
    ensures outcome.Done? ==> client.world == CompleteWorld(v)
    ensures (CalmFrom(client.script, old(client.clock)) && from == PhaseStageUpload
             && (upload || old(client.world.python) == v.python)) ==> outcome.Done?
    ensures CalmFrom(client.script, old(client.clock)) && Ready(v, from, old(client.world)) && upload ==> outcome.Done?
    ensures from != PhaseStageUpload || !upload ==> client.world.python == old(client.world.python)
    ensures from == PhaseFinalize ==> client.world.image == old(client.world.image)
    ensures client.clock >= old(client.clock)
  {
    outcome := Done;
    ReservedIsBound(v, client.world);
    if from == PhaseStageUpload && upload {
      outcome := StageUpload(client, v);
    }
    if outcome.Done? && from != PhaseFinalize {
      outcome := Publish(client, v);
    }
    if outcome.Done? {
      outcome := Finalize(client, v);
    }
  }

  /** What is reserved stays reserved, and so recoverable. */
  lemma StaysReserved(v: Verified, w0: World, w1: World)
    requires Reserved(v, w0) && Kept(w0, Some(v), w1, Some(v)) && WellFormed(v)
    ensures Reserved(v, w1) && Recoverable(v, w1)
  {
  }

  /** One run of the workflow from a phase whose predecessors have succeeded, to its end or its first error. */
  method RunPipeline(client: Registries, v: Verified, from: Phase) returns (outcome: Outcome, reserved: bool)
    requires WellFormed(v) && Owned(client.world, client.owner)
    requires from != PhaseReserve ==> Reserved(v, client.world) && client.owner == Some(v)
    modifies client
    ensures Kept(old(client.world), old(client.owner), client.world, client.owner)
    ensures client.owner == old(client.owner) || client.owner == Some(v)
    ensures Recoverable(v, old(client.world)) ==> Recoverable(v, client.world)
    ensures reserved ==> client.owner == Some(v) && Reserved(v, client.world)
    ensures outcome.Done? ==> client.owner == Some(v) && client.world == CompleteWorld(v)
    ensures outcome.Done? || from != PhaseReserve ==> reserved
    ensures CalmFrom(client.script, old(client.clock)) && from == PhaseReserve ==>
              (outcome.Done? <==> Recoverable(v, old(client.world)))
    ensures CalmFrom(client.script, old(client.clock)) && from != PhaseReserve ==>
              (outcome.Done? <==> Ready(v, from, old(client.world)))
  {
    var next, upload := from, true;
    if from == PhaseReserve {
      var missing;
      outcome, missing := Reserve(client, v);
      if outcome.Raised? {
        return outcome, false;
      }
      if v.python.Keys - client.world.python.Keys == {} {
        NothingMissing(v, client.world);
      }
      next, upload := PhaseStageUpload, missing != {};
    }
    ghost var w := client.world;
    outcome := RunReserved(client, v, next, upload);
    reserved := true;
    StaysReserved(v, w, client.world);
  }

  /** A run on a complete publication changes nothing, whatever dies or lags. */
  method RerunWhenComplete(client: Registries, v: Verified, from: Phase) returns (outcome: Outcome)
    requires WellFormed(v) && client.world == CompleteWorld(v) && client.owner == Some(v)
    modifies client
    ensures client.world == old(client.world) && client.owner == old(client.owner)
  {
    var reserved;
    outcome, reserved := RunPipeline(client, v, from);
    CompleteIsFinal(v, client.world);
  }

  /**
  Runs of one identity that die anywhere, under any lag, each resumed from any phase whose predecessors once
  succeeded, leave a recoverable state.
  */
  method CrashedRuns(client: Registries, v: Verified, resumes: seq<Phase>)
    requires WellFormed(v) && client.world == EMPTY && client.owner == None
    modifies client
    ensures Owned(client.world, client.owner) && (client.owner.Some? ==> client.owner == Some(v))
    ensures Recoverable(v, client.world)
  {
    var reservedOnce := false;
    for i := 0 to |resumes|
      invariant Owned(client.world, client.owner) && (client.owner.Some? ==> client.owner == Some(v))
      invariant Recoverable(v, client.world)
      invariant reservedOnce ==> client.owner == Some(v) && Reserved(v, client.world)
    {
      if resumes[i] == PhaseReserve || reservedOnce {
        ghost var before := client.world;
        var _, reserved := RunPipeline(client, v, resumes[i]);
        if reservedOnce {
          StaysReserved(v, before, client.world);
        }
        reservedOnce := reservedOnce || reserved;
      }
    }
  }

  /** From every such state one run without crashes or lag ends in the one complete state. */
  method CalmRun(client: Registries, v: Verified) returns (outcome: Outcome)
    requires WellFormed(v) && Owned(client.world, client.owner) && Recoverable(v, client.world)
    requires CalmFrom(client.script, client.clock)
    modifies client
    ensures outcome.Done? && client.world == CompleteWorld(v) && client.owner == Some(v)
  {
    var reserved;
    outcome, reserved := RunPipeline(client, v, PhaseReserve);
  }

  /** A reservation that died right after its tag. */
  function TagOnly(v: Verified): World {
    EMPTY.(tag := Some(TagOf(v)))
  }

  /**
  The order of the phases matters: where `stage-upload` goes through on a recoverable state, the state it leaves
  is recoverable if and only if there is nothing to upload or the provenance asset is already on the release.
  */
  method UploadStrands(client: Registries, v: Verified) returns (staged: Outcome)
    requires WellFormed(v) && Owned(client.world, client.owner)
    requires Bound(v, client.world) && Recoverable(v, client.world) && CalmFrom(client.script, client.clock)
    modifies client
    ensures staged.Done? && client.world == old(client.world).(python := v.python)
    ensures Recoverable(v, client.world) <==>
              v.python == map[] || (client.world.release.Some? && PROVENANCE in client.world.release.value.assets)
  {
    staged := StageUpload(client, v);
  }

  /**
  So when a reservation died right after its tag, a `stage-upload` started all
  the same passes its checks and uploads; the PyPI files it leaves make the state unrecoverable: no
  reservation that reads the current state passes the inventory again.
  */
  method StageBeforeReserve(client: Registries, v: Verified) returns (staged: Outcome, reserved: Outcome)
    requires WellFormed(v) && v.python != map[] && client.world == TagOnly(v) && client.owner == Some(v)
    requires CalmFrom(client.script, client.clock)
    modifies client
    ensures old(Recoverable(v, client.world)) && staged.Done?
    ensures client.world == TagOnly(v).(python := v.python) && !Recoverable(v, client.world)
    ensures reserved.Raised?
  {
    staged := StageUpload(client, v);
    var missing;
    reserved, missing := Reserve(client, v);
  }
}
