/**
Pure planning of a release recut (scripts/sdlc_recut.py).

A remote is a map from ref to commit. A plan names the remote it expects and the
updates it wants; `Operations` turns the updates into single-ref creations and
deletions, because protected branches can be created and deleted but not moved.
*/
module RecutPlan {
  import opened Common
  import Ranking

  type Sha = string

  /** A full ref name, split at the prefixes the tool tests for. */
  datatype Ref = Main | Release | Hotfix | Preserve(name: string) | Tag(name: string) | Other(name: string)

  type Refs = map<Ref, Sha>

  /** One entry of the plan's `updates` dictionary; `None` asks for the ref's deletion. */
  datatype Update = Update(ref: Ref, target: Option<Sha>)

  datatype Op = Create(ref: Ref, sha: Sha) | Delete(ref: Ref, sha: Sha)

  /** An operation before its check: the commit of a creation may still be missing. */
  datatype Draft = DraftCreate(ref: Ref, target: Option<Sha>) | DraftDelete(ref: Ref, sha: Sha)

  datatype PlanError =
    | UnsupportedRef
    | CreatesExisting(ref: Ref)
    | MissingKey(ref: Ref)
    | PreservationCollision
    | BadAcknowledgement
    | HotfixExists

  datatype Plan = Plan(
    ready: bool, expected: Refs, updates: seq<Update>, newBase: Sha,
    pending: seq<Sha>, backup: Option<Ref>)

  predicate Allowed(ref: Ref) {
    ref.Release? || ref.Hotfix? || ref.Preserve?
  }

  /** What `git ls-remote` contributes: branches other than the known ones are not read. */
  function Snapshot(refs: Refs): Refs {
    map r | r in refs && !r.Other? :: refs[r]
  }

  /** `updates` is a dictionary, so a ref occurs at most once. */
  ghost predicate Distinct(updates: seq<Update>) {
    forall i, j :: 0 <= i < j < |updates| ==> updates[i].ref != updates[j].ref
  }

  function Lookup(updates: seq<Update>, ref: Ref): Option<Option<Sha>> {
    if updates == [] then None
    else if updates[0].ref == ref then Some(updates[0].target)
    else Lookup(updates[1..], ref)
  }

  predicate AllAllowed(updates: seq<Update>) {
    forall i :: 0 <= i < |updates| ==> Allowed(updates[i].ref)
  }

  function BackupDrafts(updates: seq<Update>): seq<Draft> {
    if updates == [] then []
    else (if updates[0].ref.Preserve? then [DraftCreate(updates[0].ref, updates[0].target)] else [])
         + BackupDrafts(updates[1..])
  }

  function ReleaseDrafts(plan: Plan): seq<Draft> {
    match Lookup(plan.updates, Release)
    case None => []
    case Some(target) =>
      (if Release in plan.expected then [DraftDelete(Release, plan.expected[Release])] else [])
      + [DraftCreate(Release, target)]
  }

  function HotfixDrafts(plan: Plan): Result<seq<Draft>, PlanError> {
    match Lookup(plan.updates, Hotfix)
    case None => Ok([])
    case Some(None) =>
      if Hotfix in plan.expected then Ok([DraftDelete(Hotfix, plan.expected[Hotfix])])
      else Err(MissingKey(Hotfix))
    case Some(target) => Ok([DraftCreate(Hotfix, target)])
  }

  function Prepend(ops: seq<Op>, rest: Result<seq<Op>, PlanError>): Result<seq<Op>, PlanError> {
    match rest
    case Ok(tail) => Ok(ops + tail)
    case Err(e) => Err(e)
  }

  lemma PrependTwice(a: seq<Op>, b: seq<Op>, rest: Result<seq<Op>, PlanError>)
    ensures Prepend(a, Prepend(b, rest)) == Prepend(a + b, rest)
    ensures Prepend([], rest) == rest
  {
    if rest.Ok? {
      assert a + (b + rest.value) == (a + b) + rest.value;
      assert [] + rest.value == rest.value;
    }
  }

  /** The final scan: a creation needs a commit and a ref that is absent or already deleted. */
  function Checked(drafts: seq<Draft>, expected: Refs, deleted: set<Ref>): Result<seq<Op>, PlanError> {
    if drafts == [] then Ok([])
    else
      match drafts[0]
      case DraftDelete(ref, sha) =>
        Prepend([Delete(ref, sha)], Checked(drafts[1..], expected, deleted + {ref}))
      case DraftCreate(ref, target) =>
        if target.None? || (ref in expected && ref !in deleted) then Err(CreatesExisting(ref))
        else Prepend([Create(ref, target.value)], Checked(drafts[1..], expected, deleted))
  }

  /** The operations of a plan in the order they are pushed. */
  function Operations(plan: Plan): Result<seq<Op>, PlanError> {
    if !AllAllowed(plan.updates) then Err(UnsupportedRef)
    else
      match HotfixDrafts(plan)
      case Err(e) => Err(e)
      case Ok(hotfix) =>
        Checked(BackupDrafts(plan.updates) + ReleaseDrafts(plan) + hotfix, plan.expected, {})
  }

  /** The same operations as the source computes them: a scan that collects deleted refs. */
  method ApplyOperations(plan: Plan) returns (result: Result<seq<Op>, PlanError>)
    ensures result == Operations(plan)
  {
    if !AllAllowed(plan.updates) {
      return Err(UnsupportedRef);
    }
    var hotfix := HotfixDrafts(plan);
    if hotfix.Err? {
      return Err(hotfix.error);
    }
    var drafts := BackupDrafts(plan.updates) + ReleaseDrafts(plan) + hotfix.value;
    var deleted: set<Ref> := {};
    var ops: seq<Op> := [];
    var i := 0;
    PrependTwice([], [], Checked(drafts, plan.expected, {}));
    assert drafts[0..] == drafts;
    while i < |drafts|
      invariant 0 <= i <= |drafts|
      invariant Checked(drafts, plan.expected, {}) ==
                Prepend(ops, Checked(drafts[i..], plan.expected, deleted))
    {
      assert drafts[i..][1..] == drafts[i + 1..];
      match drafts[i] {
        case DraftDelete(ref, sha) =>
          PrependTwice(ops, [Delete(ref, sha)], Checked(drafts[i + 1..], plan.expected, deleted + {ref}));
          deleted := deleted + {ref};
          ops := ops + [Delete(ref, sha)];
        case DraftCreate(ref, target) =>
          if target.None? || (ref in plan.expected && ref !in deleted) {
            return Err(CreatesExisting(ref));
          }
          PrependTwice(ops, [Create(ref, target.value)], Checked(drafts[i + 1..], plan.expected, deleted));
          ops := ops + [Create(ref, target.value)];
      }
      i := i + 1;
    }
    assert drafts[i..] == [] && ops + [] == ops;
    return Ok(ops);
  }

  // ---- What the operations mean ---------------------------------------------

  function Effect(refs: Refs, op: Op): Refs {
    match op
    case Create(ref, sha) => refs[ref := sha]
    case Delete(ref, _) => refs - {ref}
  }

  function Fold(refs: Refs, ops: seq<Op>): Refs
    decreases |ops|
  {
    if ops == [] then refs else Effect(Fold(refs, ops[..|ops| - 1]), ops[|ops| - 1])
  }

  /** A creation makes an absent ref; a deletion removes the commit it names. */
  predicate Permitted(refs: Refs, op: Op) {
    match op
    case Create(ref, _) => ref !in refs
    case Delete(ref, sha) => Get(refs, ref) == Some(sha)
  }

  /** Each operation is permitted where the ones before it have led. */
  predicate Legal(refs: Refs, ops: seq<Op>)
    decreases |ops|
  {
    ops == [] ||
    (Legal(refs, ops[..|ops| - 1]) && Permitted(Fold(refs, ops[..|ops| - 1]), ops[|ops| - 1]))
  }

  /** The value the plan wants a ref to have. */
  function Wanted(refs: Refs, updates: seq<Update>, ref: Ref): Option<Sha> {
    match Lookup(updates, ref)
    case None => Get(refs, ref)
    case Some(target) => target
  }

  /** The expected refs overlaid with the plan's updates. */
  function Overlay(refs: Refs, updates: seq<Update>): Refs {
    var touched := set i | 0 <= i < |updates| :: updates[i].ref;
    map r | r in refs.Keys + touched && Wanted(refs, updates, r).Some? :: Wanted(refs, updates, r).value
  }

  lemma {:induction false} LookupTouches(updates: seq<Update>, ref: Ref)
    ensures Lookup(updates, ref).Some? <==> exists i :: 0 <= i < |updates| && updates[i].ref == ref
    ensures forall i :: 0 <= i < |updates| && updates[i].ref == ref && Distinct(updates)
                        ==> Lookup(updates, ref) == Some(updates[i].target)
  {
    if updates != [] {
      LookupTouches(updates[1..], ref);
      if updates[0].ref != ref {
        if Lookup(updates, ref).Some? {
          var i :| 0 <= i < |updates[1..]| && updates[1..][i].ref == ref;
          assert updates[i + 1].ref == ref;
        }
        forall i | 0 <= i < |updates| && updates[i].ref == ref && Distinct(updates)
          ensures Lookup(updates, ref) == Some(updates[i].target)
        {
          assert updates[1..][i - 1] == updates[i];
        }
        if exists i :: 0 <= i < |updates| && updates[i].ref == ref {
          var i :| 0 <= i < |updates| && updates[i].ref == ref;
          assert updates[1..][i - 1].ref == ref;
        }
      }
    }
  }

  lemma OverlayAt(refs: Refs, updates: seq<Update>, ref: Ref)
    ensures Get(Overlay(refs, updates), ref) == Wanted(refs, updates, ref)
  {
    LookupTouches(updates, ref);
  }

  // ---- When a plan has operations, and which ---------------------------------

  /** The operations written out, for a plan that has them. */
  function BackupOps(updates: seq<Update>): seq<Op> {
    if updates == [] then []
    else (if updates[0].ref.Preserve? && updates[0].target.Some?
          then [Create(updates[0].ref, updates[0].target.value)] else [])
         + BackupOps(updates[1..])
  }

  function ReleaseOps(plan: Plan): seq<Op> {
    match Lookup(plan.updates, Release)
    case Some(Some(sha)) =>
      (if Release in plan.expected then [Delete(Release, plan.expected[Release])] else []) + [Create(Release, sha)]
    case _ => []
  }

  function HotfixOps(plan: Plan): seq<Op> {
    match Lookup(plan.updates, Hotfix)
    case Some(Some(sha)) => [Create(Hotfix, sha)]
    case Some(None) => if Hotfix in plan.expected then [Delete(Hotfix, plan.expected[Hotfix])] else []
    case None => []
  }

  function PlannedOps(plan: Plan): seq<Op> {
    BackupOps(plan.updates) + ReleaseOps(plan) + HotfixOps(plan)
  }

  predicate BackupsFresh(updates: seq<Update>, expected: Refs) {
    forall i :: 0 <= i < |updates| && updates[i].ref.Preserve? ==>
      updates[i].target.Some? && updates[i].ref !in expected
  }

  /**
  What a plan must satisfy: it names only release/new, hotfix/new and preservation refs, backs up
  only to new refs, gives release/new a commit, deletes hotfix/new only when it is expected and
  creates it only when it is not.
  */
  predicate Applicable(plan: Plan) {
    && AllAllowed(plan.updates)
    && BackupsFresh(plan.updates, plan.expected)
    && Lookup(plan.updates, Release) != Some(None)
    && (Lookup(plan.updates, Hotfix) == Some(None) ==> Hotfix in plan.expected)
    && (Lookup(plan.updates, Hotfix).Some? && Hotfix in plan.expected ==> Lookup(plan.updates, Hotfix) == Some(None))
  }

  function Deletions(drafts: seq<Draft>): set<Ref> {
    set i | 0 <= i < |drafts| && drafts[i].DraftDelete? :: drafts[i].ref
  }

  lemma {:induction false} CheckedConcat(a: seq<Draft>, b: seq<Draft>, expected: Refs, deleted: set<Ref>)
    ensures Checked(a + b, expected, deleted) ==
            match Checked(a, expected, deleted)
            case Ok(ops) => Prepend(ops, Checked(b, expected, deleted + Deletions(a)))
            case Err(e) => Err(e)
  {
    if a == [] {
      assert a + b == b;
      assert deleted + Deletions(a) == deleted;
      PrependTwice([], [], Checked(b, expected, deleted));
    } else {
      assert (a + b)[1..] == a[1..] + b;
      var next := if a[0].DraftDelete? then deleted + {a[0].ref} else deleted;
      CheckedConcat(a[1..], b, expected, next);
      if Checked(a[1..], expected, next).Ok? {
        var tail := Checked(b, expected, next + Deletions(a[1..]));
        PrependTwice([Delete(a[0].ref, if a[0].DraftDelete? then a[0].sha else "")],
                     Checked(a[1..], expected, next).value, tail);
        if a[0].DraftCreate? && a[0].target.Some? {
          PrependTwice([Create(a[0].ref, a[0].target.value)], Checked(a[1..], expected, next).value, tail);
        }
      }
      assert next + Deletions(a[1..]) == deleted + Deletions(a) by {
        assert forall i :: 1 <= i < |a| ==> a[i] == a[1..][i - 1];
        assert a[0].DraftDelete? ==> a[0].ref in Deletions(a);
      }
    }
  }

  lemma {:induction false} BackupsChecked(updates: seq<Update>, expected: Refs)
    ensures Deletions(BackupDrafts(updates)) == {}
    ensures BackupsFresh(updates, expected) ==> Checked(BackupDrafts(updates), expected, {}) == Ok(BackupOps(updates))
    ensures !BackupsFresh(updates, expected) ==> Checked(BackupDrafts(updates), expected, {}).Err?
  {
    if updates != [] {
      BackupsChecked(updates[1..], expected);
      assert forall i :: 1 <= i < |updates| ==> updates[i] == updates[1..][i - 1];
      assert BackupsFresh(updates, expected) <==>
             (updates[0].ref.Preserve? ==> updates[0].target.Some? && updates[0].ref !in expected)
             && BackupsFresh(updates[1..], expected);
      var first: seq<Draft> :=
        if updates[0].ref.Preserve? then [DraftCreate(updates[0].ref, updates[0].target)] else [];
      CheckedConcat(first, BackupDrafts(updates[1..]), expected, {});
      assert {} + Deletions(first) == {};
      PrependTwice([], [], Checked(BackupDrafts(updates[1..]), expected, {}));
    }
  }

  lemma DeletionsConcat(a: seq<Draft>, b: seq<Draft>)
    ensures Deletions(a + b) == Deletions(a) + Deletions(b)
  {
    assert forall i :: 0 <= i < |a| ==> a[i] == (a + b)[i];
    assert forall i :: 0 <= i < |b| ==> b[i] == (a + b)[|a| + i];
  }

  lemma CheckedOne(draft: Draft, expected: Refs, deleted: set<Ref>)
    ensures Checked([draft], expected, deleted) ==
            if draft.DraftDelete? then Ok([Delete(draft.ref, draft.sha)])
            else if draft.target.None? || (draft.ref in expected && draft.ref !in deleted) then
              Err(CreatesExisting(draft.ref))
            else Ok([Create(draft.ref, draft.target.value)])
  {
    assert [draft][1..] == [];
    assert forall op: Op :: [op] + [] == [op];
  }

  lemma ReleaseChecked(plan: Plan)
    ensures Deletions(ReleaseDrafts(plan)) <= {Release}
    ensures Checked(ReleaseDrafts(plan), plan.expected, {}) ==
            if Lookup(plan.updates, Release) == Some(None) then Err(CreatesExisting(Release)) else Ok(ReleaseOps(plan))
  {
    var drafts := ReleaseDrafts(plan);
    if drafts != [] {
      var create := drafts[|drafts| - 1];
      CheckedOne(create, plan.expected, {});
      if Release in plan.expected {
        CheckedOne(create, plan.expected, {} + {Release});
        assert drafts[1..] == [create];
      } else {
        assert drafts == [create];
        assert create.target.Some? ==> ReleaseOps(plan) == [Create(Release, create.target.value)];
      }
    }
  }

  lemma HotfixChecked(plan: Plan, deleted: set<Ref>)
    requires Hotfix !in deleted && HotfixDrafts(plan).Ok?
    ensures Checked(HotfixDrafts(plan).value, plan.expected, deleted) ==
            if Lookup(plan.updates, Hotfix).Some? && Lookup(plan.updates, Hotfix) != Some(None)
               && Hotfix in plan.expected
            then Err(CreatesExisting(Hotfix)) else Ok(HotfixOps(plan))
  {
    var drafts := HotfixDrafts(plan).value;
    if drafts != [] {
      CheckedOne(drafts[0], plan.expected, deleted);
      assert drafts == [drafts[0]];
    }
  }

  /** A plan has operations exactly when it is applicable, and then they are the planned ones. */
  lemma OperationsExactly(plan: Plan)
    ensures Applicable(plan) ==> Operations(plan) == Ok(PlannedOps(plan))
    ensures !Applicable(plan) ==> Operations(plan).Err?
  {
    if AllAllowed(plan.updates) && HotfixDrafts(plan).Ok? {
      var backups, release, hotfix := BackupDrafts(plan.updates), ReleaseDrafts(plan), HotfixDrafts(plan).value;
      BackupsChecked(plan.updates, plan.expected);
      ReleaseChecked(plan);
      CheckedConcat(backups + release, hotfix, plan.expected, {});
      CheckedConcat(backups, release, plan.expected, {});
      DeletionsConcat(backups, release);
      HotfixChecked(plan, {} + Deletions(backups + release));
      assert {} + Deletions(backups) == {};
    }
  }

  // ---- The fold of the operations is the plan's overlay -----------------------

  lemma {:induction false} FoldConcat(refs: Refs, a: seq<Op>, b: seq<Op>)
    ensures Fold(refs, a + b) == Fold(Fold(refs, a), b)
    ensures Legal(refs, a) && Legal(Fold(refs, a), b) ==> Legal(refs, a + b)
    decreases |b|
  {
    if b == [] {
      assert a + b == a;
    } else {
      assert (a + b)[..|a + b| - 1] == a + b[..|b| - 1];
      FoldConcat(refs, a, b[..|b| - 1]);
    }
  }

  lemma {:induction false} LegalAt(refs: Refs, ops: seq<Op>, i: nat)
    requires Legal(refs, ops) && i < |ops|
    ensures Permitted(Fold(refs, ops[..i]), ops[i])
    decreases |ops|
  {
    if i < |ops| - 1 {
      LegalAt(refs, ops[..|ops| - 1], i);
      assert ops[..|ops| - 1][..i] == ops[..i];
    }
  }

  lemma LegalOne(refs: Refs, op: Op)
    requires Permitted(refs, op)
    ensures Legal(refs, [op]) && Fold(refs, [op]) == Effect(refs, op)
  {
  }

  lemma BackupsRest(updates: seq<Update>, refs: Refs)
    requires Distinct(updates) && BackupsFresh(updates, refs) && updates != []
    ensures Distinct(updates[1..]) && BackupsFresh(updates[1..], refs)
    ensures updates[0].target.Some? ==> BackupsFresh(updates[1..], refs[updates[0].ref := updates[0].target.value])
    ensures Lookup(updates[1..], updates[0].ref).None?
  {
    var rest := updates[1..];
    assert forall i :: 0 <= i < |rest| ==> rest[i] == updates[i + 1];
    LookupTouches(rest, updates[0].ref);
  }

  lemma {:induction false} BackupsLegal(updates: seq<Update>, refs: Refs)
    requires Distinct(updates) && BackupsFresh(updates, refs)
    ensures Legal(refs, BackupOps(updates))
  {
    if updates != [] {
      var u := updates[0];
      BackupsRest(updates, refs);
      if u.ref.Preserve? {
        var op := Create(u.ref, u.target.value);
        LegalOne(refs, op);
        BackupsLegal(updates[1..], Effect(refs, op));
        FoldConcat(refs, [op], BackupOps(updates[1..]));
      } else {
        BackupsLegal(updates[1..], refs);
        assert BackupOps(updates) == BackupOps(updates[1..]);
      }
    }
  }

  lemma {:induction false} BackupsFoldAt(updates: seq<Update>, refs: Refs, r: Ref)
    requires Distinct(updates) && BackupsFresh(updates, refs)
    ensures Get(Fold(refs, BackupOps(updates)), r) == if r.Preserve? then Wanted(refs, updates, r) else Get(refs, r)
  {
    if updates != [] {
      var u := updates[0];
      BackupsRest(updates, refs);
      if u.ref.Preserve? {
        var op := Create(u.ref, u.target.value);
        LegalOne(refs, op);
        BackupsFoldAt(updates[1..], Effect(refs, op), r);
        FoldConcat(refs, [op], BackupOps(updates[1..]));
      } else {
        BackupsFoldAt(updates[1..], refs, r);
        assert BackupOps(updates) == BackupOps(updates[1..]);
      }
    }
  }

  /**
  Every applicable plan's operations are legal one after the other, and together turn the expected
  refs into exactly the expected refs overlaid with the plan's updates.
  */
  lemma OperationsRealizeUpdates(plan: Plan)
    requires Distinct(plan.updates)
    requires Operations(plan).Ok?
    ensures Legal(plan.expected, Operations(plan).value)
    ensures Fold(plan.expected, Operations(plan).value) == Overlay(plan.expected, plan.updates)
  {
    OperationsExactly(plan);
    var start, updates := plan.expected, plan.updates;
    var backups, release, hotfix := BackupOps(updates), ReleaseOps(plan), HotfixOps(plan);
    BackupsLegal(updates, start);
    var one := Fold(start, backups);
    forall r ensures Get(one, r) == if r.Preserve? then Wanted(start, updates, r) else Get(start, r) {
      BackupsFoldAt(updates, start, r);
    }
    assert Get(one, Release) == Get(start, Release);
    ReleaseFold(plan, one);
    var two := Fold(one, release);
    forall r ensures Get(two, r) == if r.Release? then Wanted(start, updates, r) else Get(one, r) {
      ReleaseStep(plan, one, r);
    }
    assert Get(two, Hotfix) == Get(start, Hotfix);
    HotfixStep(plan, two);
    var end := Fold(two, hotfix);
    FoldConcat(start, backups, release);
    FoldConcat(start, backups + release, hotfix);
    forall r ensures Get(end, r) == Get(Overlay(start, updates), r) {
      EndOfPlan(plan, one, two, end, r);
    }
    SameRefs(end, Overlay(start, updates));
  }

  lemma EndOfPlan(plan: Plan, one: Refs, two: Refs, end: Refs, r: Ref)
    requires AllAllowed(plan.updates)
    requires Get(one, r) == if r.Preserve? then Wanted(plan.expected, plan.updates, r) else Get(plan.expected, r)
    requires Get(two, r) == if r.Release? then Wanted(plan.expected, plan.updates, r) else Get(one, r)
    requires Get(end, r) == if r.Hotfix? then Wanted(plan.expected, plan.updates, r) else Get(two, r)
    ensures Get(end, r) == Get(Overlay(plan.expected, plan.updates), r)
  {
    OverlayAt(plan.expected, plan.updates, r);
    LookupTouches(plan.updates, r);
  }

  lemma HotfixStep(plan: Plan, refs: Refs)
    requires Applicable(plan) && Get(refs, Hotfix) == Get(plan.expected, Hotfix)
    ensures Legal(refs, HotfixOps(plan))
    ensures forall r :: Get(Fold(refs, HotfixOps(plan)), r)
                        == if r.Hotfix? then Wanted(plan.expected, plan.updates, r) else Get(refs, r)
  {
    var ops := HotfixOps(plan);
    if ops != [] {
      LegalOne(refs, ops[0]);
      assert ops == [ops[0]];
    }
  }

  lemma SameRefs(a: Refs, b: Refs)
    requires forall r :: Get(a, r) == Get(b, r)
    ensures a == b
  {
    assert forall r :: r in a <==> Get(a, r).Some?;
    assert forall r :: r in b <==> Get(b, r).Some?;
    assert forall r | r in a :: Get(a, r) == Some(a[r]) && Get(b, r) == Some(b[r]);
  }

  lemma LegalTwo(refs: Refs, first: Op, second: Op)
    requires Permitted(refs, first) && Permitted(Effect(refs, first), second)
    ensures Legal(refs, [first, second]) && Fold(refs, [first, second]) == Effect(Effect(refs, first), second)
  {
    LegalOne(refs, first);
    LegalOne(Effect(refs, first), second);
    FoldConcat(refs, [first], [second]);
    assert [first, second] == [first] + [second];
  }

  /** Where the release operations lead. */
  function AfterRelease(plan: Plan, refs: Refs): Refs {
    match Lookup(plan.updates, Release)
    case Some(Some(sha)) => (refs - {Release})[Release := sha]
    case _ => refs
  }

  lemma ReleaseFold(plan: Plan, refs: Refs)
    requires Get(refs, Release) == Get(plan.expected, Release)
    ensures Legal(refs, ReleaseOps(plan)) && Fold(refs, ReleaseOps(plan)) == AfterRelease(plan, refs)
  {
    match Lookup(plan.updates, Release)
    case Some(Some(sha)) =>
      if Release in plan.expected {
        LegalTwo(refs, Delete(Release, plan.expected[Release]), Create(Release, sha));
        assert ReleaseOps(plan) == [Delete(Release, plan.expected[Release]), Create(Release, sha)];
      } else {
        LegalOne(refs, Create(Release, sha));
        assert ReleaseOps(plan) == [Create(Release, sha)];
        assert refs - {Release} == refs;
      }
    case _ =>
  }

  lemma ReleaseStep(plan: Plan, refs: Refs, r: Ref)
    requires Lookup(plan.updates, Release) != Some(None) && Get(refs, Release) == Get(plan.expected, Release)
    ensures Get(AfterRelease(plan, refs), r) ==
              if r.Release? then Wanted(plan.expected, plan.updates, r) else Get(refs, r)
  {
  }

  // ---- plan_recut and plan_hotfix ---------------------------------------------

  predicate IsSha(value: string) {
    && (|value| == 40 || |value| == 64)
    && forall c :: c in value ==> Hexadecimal(c)
  }

  predicate Hexadecimal(c: char) {
    '0' <= c <= '9' || 'a' <= c <= 'f'
  }

  /** A commit name has 40 or 64 lower-case hexadecimal digits. */
  lemma IsShaMeans(value: string)
    ensures IsSha(value) <==> |value| in {40, 64} && forall i :: 0 <= i < |value| ==> HexDigit(value[i])
  {
    forall i | 0 <= i < |value| ensures value[i] in value && (HexDigit(value[i]) <==> Hexadecimal(value[i])) {
      HexDigits(value[i]);
    }
    assert (forall c :: c in value ==> Hexadecimal(c)) <==> forall i :: 0 <= i < |value| ==> Hexadecimal(value[i]);
  }

  lemma HexDigits(c: char)
    ensures HexDigit(c) <==> Hexadecimal(c)
  {
  }

  predicate HexDigit(c: char) {
    c in {'0', '1', '2', '3', '4', '5', '6', '7', '8', '9', 'a', 'b', 'c', 'd', 'e', 'f'}
  }

  predicate Acknowledged(pending: seq<Sha>, acknowledge: seq<Sha>) {
    |acknowledge| == |Ranking.Elements(acknowledge)| && Ranking.Elements(acknowledge) == Ranking.Elements(pending)
  }

  function BackupRef(head: Sha): Ref {
    Preserve("release-new/" + head)
  }

  function RecutUpdates(refs: Refs, oldHead: Sha, newBase: Sha, afterHotfix: bool): seq<Update> {
    [Update(Release, Some(newBase))]
    + (if BackupRef(oldHead) in refs then [] else [Update(BackupRef(oldHead), Some(oldHead))])
    + (if afterHotfix then [Update(Hotfix, None)] else [])
  }

  function PlanRecut(refs: Refs, newBase: Sha, pending: seq<Sha>, acknowledge: seq<Sha>, afterHotfix: bool)
    : Result<Plan, PlanError>
  {
    if Release !in refs then Err(MissingKey(Release))
    else
      var oldHead := refs[Release];
      var backup := BackupRef(oldHead);
      if backup in refs && refs[backup] != oldHead then Err(PreservationCollision)
      else if exists i :: 0 <= i < |acknowledge| && !IsSha(acknowledge[i]) then Err(BadAcknowledgement)
      else
        var updates := RecutUpdates(refs, oldHead, newBase, afterHotfix);
        var plan := Plan(Acknowledged(pending, acknowledge), refs, updates, newBase, pending, Some(backup));
        match Operations(plan)
        case Err(e) => Err(e)
        case Ok(_) => Ok(plan)
  }

  function PlanHotfix(refs: Refs, stable: Sha): Result<Plan, PlanError> {
    if Hotfix in refs then Err(HotfixExists)
    else
      var plan := Plan(true, refs, [Update(Hotfix, Some(stable))], stable, [], None);
      match Operations(plan)
      case Err(e) => Err(e)
      case Ok(_) => Ok(plan)
  }

  /** Each pending commit is acknowledged once, and nothing else is. */
  ghost predicate AcknowledgedOnce(pending: seq<Sha>, acknowledge: seq<Sha>) {
    && (forall i, j :: 0 <= i < j < |acknowledge| ==> acknowledge[i] != acknowledge[j])
    && (forall sha :: sha in pending <==> sha in acknowledge)
  }

  lemma AcknowledgedMeans(pending: seq<Sha>, acknowledge: seq<Sha>)
    ensures Acknowledged(pending, acknowledge) <==> AcknowledgedOnce(pending, acknowledge)
  {
    Ranking.NoRepeatsCard(acknowledge);
    assert forall sha :: sha in Ranking.Elements(acknowledge) <==> sha in acknowledge;
    assert forall sha :: sha in Ranking.Elements(pending) <==> sha in pending;
  }

  /** Different heads are kept under different refs, which no plan moves. */
  lemma BackupRefs(head: Sha, other: Sha)
    ensures BackupRef(head) == BackupRef(other) ==> head == other
    ensures BackupRef(head).Preserve? && BackupRef(head).name == "release-new/" + head
  {
    assert |"release-new/"| == 12;
    assert ("release-new/" + head)[12..] == head && ("release-new/" + other)[12..] == other;
  }

  /**
  A recut is planned exactly when release/new exists, its preservation ref is free or already holds
  its head, the acknowledgements are commit names, and a hotfix to delete is there. The refs it then
  asks for: release/new at the new base, the old head kept under the preservation ref, hotfix/new
  gone after a hotfix, and every other ref as it was. It is ready exactly when each pending commit is
  acknowledged once and nothing else is.
  */
  lemma RecutPlanIsExact(refs: Refs, newBase: Sha, pending: seq<Sha>, acknowledge: seq<Sha>, afterHotfix: bool)
    ensures PlanRecut(refs, newBase, pending, acknowledge, afterHotfix).Ok? <==>
            && Release in refs
            && (BackupRef(refs[Release]) in refs ==> refs[BackupRef(refs[Release])] == refs[Release])
            && (forall i :: 0 <= i < |acknowledge| ==> IsSha(acknowledge[i]))
            && (afterHotfix ==> Hotfix in refs)
    ensures var r := PlanRecut(refs, newBase, pending, acknowledge, afterHotfix);
            r.Ok? ==>
              var plan := r.value;
              var final := Overlay(refs, plan.updates);
              && plan.expected == refs && Distinct(plan.updates) && Applicable(plan)
              && plan.backup == Some(BackupRef(refs[Release]))
              && plan.newBase == newBase && plan.pending == pending
              && (plan.ready <==> AcknowledgedOnce(pending, acknowledge))
              && Get(final, Release) == Some(newBase)
              && Get(final, BackupRef(refs[Release])) == Some(refs[Release])
              && Get(final, Hotfix) == (if afterHotfix then None else Get(refs, Hotfix))
              && forall x :: x != Release && x != BackupRef(refs[Release]) && x != Hotfix
                             ==> Get(final, x) == Get(refs, x)
  {
    AcknowledgedMeans(pending, acknowledge);
    if Release in refs {
      var oldHead := refs[Release];
      var backup := BackupRef(oldHead);
      var updates := RecutUpdates(refs, oldHead, newBase, afterHotfix);
      var plan := Plan(Acknowledged(pending, acknowledge), refs, updates, newBase, pending, Some(backup));
      OperationsExactly(plan);
      RecutLookups(refs, newBase, afterHotfix);
      RecutOverlay(refs, newBase, afterHotfix);
    }
  }

  /** What a recut asks for, ref by ref. */
  lemma RecutLookups(refs: Refs, newBase: Sha, afterHotfix: bool)
    requires Release in refs
    ensures var oldHead := refs[Release];
            var updates := RecutUpdates(refs, oldHead, newBase, afterHotfix);
            && Distinct(updates) && Lookup(updates, Release) == Some(Some(newBase))
            && Lookup(updates, Hotfix) == (if afterHotfix then Some(None) else None)
            && Lookup(updates, BackupRef(oldHead)) == (if BackupRef(oldHead) in refs then None else Some(Some(oldHead)))
            && forall x :: x != Release && x != BackupRef(oldHead) && x != Hotfix ==> Lookup(updates, x) == None
  {
    var oldHead := refs[Release];
    var updates := RecutUpdates(refs, oldHead, newBase, afterHotfix);
    assert updates[0].ref == Release;
    assert afterHotfix ==> updates[|updates| - 1] == Update(Hotfix, None);
    assert BackupRef(oldHead) !in refs ==> updates[1] == Update(BackupRef(oldHead), Some(oldHead));
    forall x ensures Lookup(updates, x).Some? <==> exists i :: 0 <= i < |updates| && updates[i].ref == x {
      LookupTouches(updates, x);
    }
    LookupTouches(updates, Release);
    LookupTouches(updates, Hotfix);
    LookupTouches(updates, BackupRef(oldHead));
  }

  /** The refs it leads to. */
  lemma RecutOverlay(refs: Refs, newBase: Sha, afterHotfix: bool)
    requires Release in refs
    ensures var oldHead := refs[Release];
            var final := Overlay(refs, RecutUpdates(refs, oldHead, newBase, afterHotfix));
            && Get(final, Release) == Some(newBase)
            && (BackupRef(oldHead) in refs ==> Get(final, BackupRef(oldHead)) == Get(refs, BackupRef(oldHead)))
            && (BackupRef(oldHead) !in refs ==> Get(final, BackupRef(oldHead)) == Some(oldHead))
            && Get(final, Hotfix) == (if afterHotfix then None else Get(refs, Hotfix))
            && forall x :: x != Release && x != BackupRef(oldHead) && x != Hotfix ==> Get(final, x) == Get(refs, x)
  {
    var updates := RecutUpdates(refs, refs[Release], newBase, afterHotfix);
    RecutLookups(refs, newBase, afterHotfix);
    forall x ensures Get(Overlay(refs, updates), x) == Wanted(refs, updates, x) {
      OverlayAt(refs, updates, x);
    }
  }

  /** A hotfix cut is planned exactly when there is no hotfix branch, and only creates it. */
  lemma HotfixPlanIsExact(refs: Refs, stable: Sha)
    ensures PlanHotfix(refs, stable).Ok? <==> Hotfix !in refs
    ensures PlanHotfix(refs, stable).Ok? ==>
              var plan := PlanHotfix(refs, stable).value;
              && plan.ready && plan.expected == refs && plan.newBase == stable && plan.pending == [] &&
                 plan.backup == None
              && Distinct(plan.updates) && Overlay(refs, plan.updates) == refs[Hotfix := stable]
              && Operations(plan) == Ok([Create(Hotfix, stable)])
  {
    var plan := Plan(true, refs, [Update(Hotfix, Some(stable))], stable, [], None);
    OperationsExactly(plan);
    LookupTouches(plan.updates, Hotfix);
    LookupTouches(plan.updates, Release);
    assert plan.updates[1..] == [];
    assert BackupOps(plan.updates[1..]) == [];
    assert Hotfix !in refs ==> PlannedOps(plan) == [Create(Hotfix, stable)];
    forall x ensures Get(Overlay(refs, plan.updates), x) == Get(refs[Hotfix := stable], x) {
      OverlayAt(refs, plan.updates, x);
      LookupTouches(plan.updates, x);
    }
    SameRefs(Overlay(refs, plan.updates), refs[Hotfix := stable]);
  }
}
