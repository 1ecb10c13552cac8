/** Whole runs of `apply_plan` (scripts/sdlc_recut.py). */
module RecutRun {
  import opened Common
  import opened RecutPlan
  import opened RecutApply

  // ---- The order of a plan's operations ---------------------------------------

  lemma {:induction false} BackupOpsCreate(updates: seq<Update>)
    ensures forall op :: op in BackupOps(updates) ==> op.Create? && op.ref.Preserve?
  {
    if updates != [] {
      BackupOpsCreate(updates[1..]);
    }
  }

  /**
  No preservation ref is touched from the first deletion on; a deleted release/new is recreated by the
  very next operation; a hotfix operation is the last one.
  */
  lemma OrderOfOperations(plan: Plan, i: nat)
    requires i < |PlannedOps(plan)|
    ensures var ops := PlannedOps(plan);
            && Allowed(ops[i].ref)
            && (!ops[i].ref.Preserve? ==> forall j :: i <= j < |ops| ==> !ops[j].ref.Preserve?)
            && (ops[i].Delete? ==> !ops[i].ref.Preserve? && Get(plan.expected, ops[i].ref) == Some(ops[i].sha))
            && (ops[i].Delete? && ops[i].ref.Release? ==>
                  i + 1 < |ops| && Some(Some(ops[i + 1].sha)) == Lookup(plan.updates, Release)
                  && ops[i + 1] == Create(Release, ops[i + 1].sha))
            && (ops[i].Create? && ops[i].ref.Release? ==>
                  forall j :: i < j < |ops| ==> ops[j].ref.Hotfix?)
            && (ops[i].ref.Hotfix? ==> i == |ops| - 1)
  {
    BackupOpsCreate(plan.updates);
    var backups, release, hotfix := BackupOps(plan.updates), ReleaseOps(plan), HotfixOps(plan);
    var ops, k, n := PlannedOps(plan), |backups|, |backups| + |release|;
    assert forall j :: 0 <= j < k ==> ops[j] == backups[j] && ops[j] in backups;
    assert forall j :: k <= j < n ==> ops[j] == release[j - k] && ops[j].ref.Release?;
    assert forall j :: n <= j < |ops| ==> ops[j] == hotfix[j - n] && ops[j].ref.Hotfix?;
    assert |release| <= 2 && |hotfix| <= 1;
    if i < k {
      assert ops[i].ref.Preserve?;
    } else if i < n {
      assert ops[i].Create? ==> i == n - 1;
      assert ops[i].Delete? ==> i + 1 < n && ops[i + 1] == release[i + 1 - k];
    } else {
      assert i == |ops| - 1;
    }
  }

  lemma {:induction false} FoldKeeps(refs: Refs, ops: seq<Op>, i: nat, n: nat, r: Ref)
    requires i <= n <= |ops|
    requires forall j :: i <= j < n ==> ops[j].ref != r
    ensures Get(Fold(refs, ops[..n]), r) == Get(Fold(refs, ops[..i]), r)
  {
    if i < n {
      assert ops[..n][..n - 1] == ops[..n - 1];
      FoldKeeps(refs, ops, i, n - 1, r);
    }
  }

  lemma FoldNext(refs: Refs, ops: seq<Op>, i: nat)
    requires i < |ops|
    ensures Fold(refs, ops[..i + 1]) == Effect(Fold(refs, ops[..i]), ops[i])
  {
    assert ops[..i + 1][..i] == ops[..i];
  }

  // ---- What every change of a run satisfies -------------------------------------

  /**
  A deletion removes the commit the plan names and the branch held at that moment. A creation makes
  an absent ref: one of the plan's, or release/new back at the head the plan deleted.
  */
  ghost predicate RunWrite(plan: Plan, w: Write) {
    var ops := PlannedOps(plan);
    match w
    case Deleted(_, ref, sha, before) =>
      Delete(ref, sha) in ops && Get(before, ref) == Some(sha) && Get(plan.expected, ref) == Some(sha)
    case Created(_, ref, sha, before) =>
      ref !in before && (Create(ref, sha) in ops || (ref.Release? && Delete(ref, sha) in ops))
  }

  /** When a branch is deleted, every preservation ref the rival leaves alone already is as planned. */
  ghost predicate BackedUp(plan: Plan, env: nat -> Step, start: nat, w: Write) {
    w.Deleted? ==>
      forall b: Ref :: b.Preserve? && QuietOn(env, b, start) ==>
        Get(w.before, b) == Get(Overlay(plan.expected, plan.updates), b)
  }

  /** After the run, a release/new it deleted at `w` is at its old head or at its new base. */
  ghost predicate Restored(plan: Plan, env: nat -> Step, raisedAt: nat, w: Write, refs: Refs) {
    w.Deleted? && w.ref.Release? && QuietOn(env, Release, w.at + 1) && CalmFrom(env, raisedAt) ==>
      Get(refs, Release) == Some(w.sha) || Lookup(plan.updates, Release) == Some(Get(refs, Release))
  }

  ghost predicate AllRestored(plan: Plan, env: nat -> Step, raisedAt: nat, from: nat, writes: seq<Write>, refs: Refs) {
    forall k :: from <= k < |writes| ==> Restored(plan, env, raisedAt, writes[k], refs)
  }

  /** The run so far: `i` operations are done, and the remote is as the last read confirmed. */
  ghost predicate RunState(plan: Plan, env: nat -> Step, i: nat, c0: nat, w0: seq<Write>,
                           refs: Refs, clock: nat, writes: seq<Write>)
    requires i <= |PlannedOps(plan)|
  {
    && Snapshot(refs) == Fold(plan.expected, PlannedOps(plan)[..i])
    && c0 <= clock && |w0| <= |writes| && writes[..|w0|] == w0
    && forall k :: |w0| <= k < |writes| ==> MadeBy(plan, env, c0, clock, PlannedOps(plan)[..i], writes[k])
  }

  /** A change the run made between two moments: allowed, backed up, and if a deletion, one of the operations done. */
  ghost predicate MadeBy(plan: Plan, env: nat -> Step, c0: nat, clock: nat, done: seq<Op>, w: Write) {
    && c0 <= w.at < clock && RunWrite(plan, w) && BackedUp(plan, env, c0, w)
    && (w.Deleted? ==> Delete(w.ref, w.sha) in done)
  }

  ghost predicate GoodWrites(plan: Plan, env: nat -> Step, c0: nat, w0: seq<Write>, writes: seq<Write>) {
    && |w0| <= |writes| && writes[..|w0|] == w0
    && forall k :: |w0| <= k < |writes| ==> RunWrite(plan, writes[k]) && BackedUp(plan, env, c0, writes[k])
  }

  lemma VisibleGet(refs: Refs, r: Ref)
    requires !r.Other?
    ensures Get(Snapshot(refs), r) == Get(refs, r)
  {
  }

  /** Operation `i`'s own change, if it made one, is a change the plan allows. */
  lemma NewWrite(plan: Plan, env: nat -> Step, i: nat, c0: nat, w0: seq<Write>,
                 r1: Refs, c1: nat, w1: seq<Write>, r2: Refs, c2: nat, w2: seq<Write>)
    requires i < |PlannedOps(plan)| && Applicable(plan) && Distinct(plan.updates)
    requires RunState(plan, env, i, c0, w0, r1, c1, w1)
    requires Guarded(env, PlannedOps(plan)[i], r1, c1, w1, r2, c2, w2)
    ensures |w0| <= |w2| && w2[..|w0|] == w0
    ensures forall k :: |w0| <= k < |w2| ==> MadeBy(plan, env, c0, c2, PlannedOps(plan)[..i + 1], w2[k])
  {
    var ops := PlannedOps(plan);
    if w2 != w1 {
      assert w2[..|w0|] == w1[..|w0|];
      OwnWrite(plan, env, i, c0, r1, c1, w1, r2, c2, w2);
    }
    forall k | |w0| <= k < |w2| ensures MadeBy(plan, env, c0, c2, ops[..i + 1], w2[k]) {
      if k < |w1| {
        assert w2[k] == w2[..|w1|][k] == w1[k];
        StillMadeBy(plan, env, c0, c1, c2, ops, i, w1[k]);
      }
    }
  }

  lemma StillMadeBy(plan: Plan, env: nat -> Step, c0: nat, c1: nat, c2: nat, ops: seq<Op>, i: nat, w: Write)
    requires i < |ops| && c1 <= c2 && MadeBy(plan, env, c0, c1, ops[..i], w)
    ensures MadeBy(plan, env, c0, c2, ops[..i + 1], w)
  {
    assert ops[..i + 1] == ops[..i] + [ops[i]];
  }

  /** The change operation `i` made. */
  lemma OwnWrite(plan: Plan, env: nat -> Step, i: nat, c0: nat,
                 r1: Refs, c1: nat, w1: seq<Write>, r2: Refs, c2: nat, w2: seq<Write>)
    requires i < |PlannedOps(plan)| && Applicable(plan) && Distinct(plan.updates) && c0 <= c1
    requires Snapshot(r1) == Fold(plan.expected, PlannedOps(plan)[..i])
    requires Guarded(env, PlannedOps(plan)[i], r1, c1, w1, r2, c2, w2) && w2 != w1
    ensures var w := w2[|w1|];
            MadeBy(plan, env, c0, c2, PlannedOps(plan)[..i + 1], w)
  {
    var ops, w := PlannedOps(plan), w2[|w1|];
    assert ops[i] in ops && ops[i] in ops[..i + 1];
    OrderOfOperations(plan, i);
    forall b: Ref | w.Deleted? && b.Preserve? && QuietOn(env, b, c0)
      ensures Get(w.before, b) == Get(Overlay(plan.expected, plan.updates), b)
    {
      VisibleGet(r1, b);
      FoldKeeps(plan.expected, ops, i, |ops|, b);
      assert ops[..|ops|] == ops;
      OperationsExactly(plan);
      OperationsRealizeUpdates(plan);
      assert QuietOn(env, b, c1);
    }
  }

  // ---- The failure of one operation ------------------------------------------------

  /** The branches deleted and not yet recreated when operation `i` starts, as the loop keeps them. */
  function Outstanding(ops: seq<Op>, i: nat): map<Ref, Sha>
    requires i <= |ops|
  {
    if i == 0 then NONE else AfterOperation(Outstanding(ops, i - 1), ops[i - 1])
  }

  /** A deletion adds its branch, a creation takes its own away. */
  function AfterOperation(awaiting: map<Ref, Sha>, op: Op): map<Ref, Sha> {
    if op.Delete? then awaiting[op.ref := op.sha] else awaiting - {op.ref}
  }

  /** The operation before operation `i` has deleted a branch. */
  predicate AfterDeletion(ops: seq<Op>, i: nat)
    requires i <= |ops|
  {
    i > 0 && ops[i - 1].Delete?
  }

  /**
  At every turn of a plan's run at most one branch awaits recreation, the one the operation before has
  deleted; so stopping at the first `_recover` skips nothing.
  */
  lemma AtMostOneOutstanding(plan: Plan, i: nat)
    requires i <= |PlannedOps(plan)|
    ensures var ops := PlannedOps(plan); Outstanding(ops, i) == LastDeleted(ops, i) && |Outstanding(ops, i)| <= 1
  {
    forall j | 0 <= j < |PlannedOps(plan)| - 1 && PlannedOps(plan)[j].Delete?
      ensures PlannedOps(plan)[j + 1].Create? && PlannedOps(plan)[j + 1].ref == PlannedOps(plan)[j].ref
    {
      RecreatedNext(plan, j);
    }
    OnlyTheLastDeleted(PlannedOps(plan), i);
    if i > 0 {
      RemoveOnly(PlannedOps(plan)[i - 1].ref, PlannedOps(plan)[i - 1].sha);
    }
  }

  function LastDeleted(ops: seq<Op>, i: nat): map<Ref, Sha>
    requires i <= |ops|
  {
    if AfterDeletion(ops, i) then map[ops[i - 1].ref := ops[i - 1].sha] else NONE
  }

  const NONE: map<Ref, Sha> := map[]

  lemma RemoveOnly(r: Ref, s: Sha)
    ensures map[r := s] - {r} == NONE && NONE - {r} == NONE && NONE[r := s] == map[r := s]
    ensures |NONE| == 0 && |map[r := s]| == 1
  {
  }

  lemma {:induction false} OnlyTheLastDeleted(ops: seq<Op>, i: nat)
    requires forall j :: 0 <= j < |ops| - 1 && ops[j].Delete? ==> ops[j + 1].Create? && ops[j + 1].ref == ops[j].ref
    requires i <= |ops|
    ensures Outstanding(ops, i) == LastDeleted(ops, i)
  {
    if i > 0 {
      OnlyTheLastDeleted(ops, i - 1);
      RemoveOnly(ops[i - 1].ref, ops[i - 1].sha);
      if AfterDeletion(ops, i - 1) {
        RemoveOnly(ops[i - 2].ref, ops[i - 2].sha);
      }
    }
  }

  /** A deletion that is not the last operation is followed by the creation of the same ref. */
  lemma RecreatedNext(plan: Plan, i: nat)
    requires i + 1 < |PlannedOps(plan)| && PlannedOps(plan)[i].Delete?
    ensures PlannedOps(plan)[i + 1].Create? && PlannedOps(plan)[i + 1].ref == PlannedOps(plan)[i].ref
  {
    OrderOfOperations(plan, i);
  }

  function Recreated(ops: seq<Op>): set<Ref> {
    set j | 0 <= j < |ops| && ops[j].Create? :: ops[j].ref
  }

  /** What the handler of a failed operation did, from the moment `c2` the error was caught. */
  ghost predicate Handled(env: nat -> Step, ops: seq<Op>, i: nat, attempted: bool,
                          r2: Refs, c2: nat, w2: seq<Write>, r3: Refs, c3: nat, w3: seq<Write>)
    requires i < |ops|
  {
    var recovers := AfterDeletion(ops, i) || (ops[i].Delete? && ops[i].ref in Recreated(ops) && attempted);
    var deletion := if AfterDeletion(ops, i) then ops[i - 1] else ops[i];
    && OnlyRecreated(env, deletion.ref, deletion.sha, r2, c2, w2, r3, c3, w3)
    && (!recovers ==> w3 == w2)
    && (recovers ==> Recovered(env, deletion.ref, deletion.sha, r2, c2, w2, r3, c3, w3))
  }

  /** What a guarded push can do to one ref the rival leaves alone. */
  lemma GuardedRef(env: nat -> Step, op: Op, r1: Refs, c1: nat, w1: seq<Write>, r2: Refs, c2: nat, w2: seq<Write>,
                   r: Ref)
    requires Guarded(env, op, r1, c1, w1, r2, c2, w2) && QuietOn(env, r, c1)
    ensures Get(r2, r) == Get(r1, r) || (r == op.ref && Get(r2, r) == if op.Create? then Some(op.sha) else None)
  {
  }

  /** What the handler does to one ref the rival leaves alone. */
  lemma HandledRef(env: nat -> Step, ops: seq<Op>, i: nat, attempted: bool,
                   r2: Refs, c2: nat, w2: seq<Write>, r3: Refs, c3: nat, w3: seq<Write>, r: Ref)
    requires i < |ops| && Handled(env, ops, i, attempted, r2, c2, w2, r3, c3, w3) && QuietOn(env, r, c2)
    ensures Get(r2, r).Some? ==> Get(r3, r) == Get(r2, r)
    ensures CalmFrom(env, c2) && i > 0 && ops[i - 1].Delete? && ops[i - 1].ref == r ==>
              Get(r3, r) == Some(if r in r2 then r2[r] else ops[i - 1].sha)
    ensures CalmFrom(env, c2) && !AfterDeletion(ops, i) && attempted && ops[i].Delete? && ops[i].ref == r
            && r in Recreated(ops) ==>
              Get(r3, r) == Some(if r in r2 then r2[r] else ops[i].sha)
  {
  }

  /** release/new was deleted by an earlier operation: before operation `i` it is absent or recreated. */
  lemma EarlierDeletion(plan: Plan, i: nat, d: nat, r1: Refs)
    requires d < i < |PlannedOps(plan)|
    requires PlannedOps(plan)[d].Delete? && PlannedOps(plan)[d].ref == Release
    requires Snapshot(r1) == Fold(plan.expected, PlannedOps(plan)[..i])
    ensures var ops := PlannedOps(plan);
            && Lookup(plan.updates, Release) == Some(Some(ops[d + 1].sha))
            && (if i == d + 1 then Get(r1, Release) == None && ops[i] == Create(Release, ops[d + 1].sha)
                else Get(r1, Release) == Some(ops[d + 1].sha) && ops[i].ref != Release)
  {
    var ops := PlannedOps(plan);
    OrderOfOperations(plan, d);
    VisibleGet(r1, Release);
    FoldNext(plan.expected, ops, d);
    if i > d + 1 {
      OrderOfOperations(plan, d + 1);
      FoldNext(plan.expected, ops, d + 1);
      FoldKeeps(plan.expected, ops, d + 2, i, Release);
    }
  }

  lemma RestoredEarlier(plan: Plan, env: nat -> Step, i: nat, d: nat, attempted: bool, w: Write,
                        r1: Refs, c1: nat, w1: seq<Write>, r2: Refs, c2: nat, w2: seq<Write>,
                        r3: Refs, c3: nat, w3: seq<Write>)
    requires d < i < |PlannedOps(plan)| && PlannedOps(plan)[d] == Delete(Release, w.sha)
    requires Snapshot(r1) == Fold(plan.expected, PlannedOps(plan)[..i])
    requires Guarded(env, PlannedOps(plan)[i], r1, c1, w1, r2, c2, w2)
    requires Handled(env, PlannedOps(plan), i, attempted, r2, c2, w2, r3, c3, w3)
    requires w.Deleted? && w.ref == Release && w.at < c1 <= c2
    ensures Restored(plan, env, c2, w, r3)
  {
    if QuietOn(env, Release, w.at + 1) && CalmFrom(env, c2) {
      EarlierDeletion(plan, i, d, r1);
      assert QuietOn(env, Release, c1) && QuietOn(env, Release, c2);
      GuardedRef(env, PlannedOps(plan)[i], r1, c1, w1, r2, c2, w2, Release);
      HandledRef(env, PlannedOps(plan), i, attempted, r2, c2, w2, r3, c3, w3, Release);
    }
  }

  /** release/new was deleted by the failed operation itself. */
  lemma RestoredNow(plan: Plan, env: nat -> Step, i: nat, attempted: bool, w: Write,
                    r1: Refs, c1: nat, w1: seq<Write>, r2: Refs, c2: nat, w2: seq<Write>,
                    r3: Refs, c3: nat, w3: seq<Write>)
    requires i < |PlannedOps(plan)| && PlannedOps(plan)[i] == Delete(Release, w.sha)
    requires Guarded(env, PlannedOps(plan)[i], r1, c1, w1, r2, c2, w2)
    requires w2 == w1 + [w] && attempted
    requires Handled(env, PlannedOps(plan), i, attempted, r2, c2, w2, r3, c3, w3)
    ensures Restored(plan, env, c2, w, r3)
  {
    var ops := PlannedOps(plan);
    OrderOfOperations(plan, i);
    if i > 0 {
      OrderOfOperations(plan, i - 1);
    }
    assert ops[i + 1].ref in Recreated(ops);
    assert w2[|w1|] == w;
    if QuietOn(env, Release, w.at + 1) && CalmFrom(env, c2) {
      assert Get(r2, Release) == None;
      assert QuietOn(env, Release, c2);
      HandledRef(env, ops, i, attempted, r2, c2, w2, r3, c3, w3, Release);
    }
  }

  /** However operation `i` fails, a deletion of release/new by the run does not leave it absent. */
  lemma FailedRestores(plan: Plan, env: nat -> Step, i: nat, c0: nat, w0: seq<Write>, attempted: bool,
                       r1: Refs, c1: nat, w1: seq<Write>, r2: Refs, c2: nat, w2: seq<Write>,
                       r3: Refs, c3: nat, w3: seq<Write>, k: nat)
    requires i < |PlannedOps(plan)|
    requires RunState(plan, env, i, c0, w0, r1, c1, w1)
    requires Guarded(env, PlannedOps(plan)[i], r1, c1, w1, r2, c2, w2)
    requires attempted || w2 == w1
    requires Handled(env, PlannedOps(plan), i, attempted, r2, c2, w2, r3, c3, w3)
    requires |w0| <= k < |w2|
    ensures Restored(plan, env, c2, w2[k], r3)
  {
    var ops, w := PlannedOps(plan), w2[k];
    if w.Deleted? && w.ref == Release {
      if k < |w1| {
        assert w == w1[k] by {
          assert w2[..|w1|] == w1;
        }
        var d :| 0 <= d < i && ops[..i][d] == Delete(Release, w.sha);
        assert c1 <= c2;
        RestoredEarlier(plan, env, i, d, attempted, w, r1, c1, w1, r2, c2, w2, r3, c3, w3);
      } else {
        assert w2 == w2[..|w1|] + [w];
        RestoredNow(plan, env, i, attempted, w, r1, c1, w1, r2, c2, w2, r3, c3, w3);
      }
    }
  }

  /** However operation `i` fails, the run's changes stay allowed. */
  lemma FailedStep(plan: Plan, env: nat -> Step, i: nat, c0: nat, w0: seq<Write>, attempted: bool,
                   r1: Refs, c1: nat, w1: seq<Write>, r2: Refs, c2: nat, w2: seq<Write>,
                   r3: Refs, c3: nat, w3: seq<Write>)
    requires i < |PlannedOps(plan)| && Applicable(plan) && Distinct(plan.updates)
    requires RunState(plan, env, i, c0, w0, r1, c1, w1)
    requires Guarded(env, PlannedOps(plan)[i], r1, c1, w1, r2, c2, w2)
    requires attempted || w2 == w1
    requires Handled(env, PlannedOps(plan), i, attempted, r2, c2, w2, r3, c3, w3)
    ensures GoodWrites(plan, env, c0, w0, w3)
    ensures AllRestored(plan, env, c2, |w0|, w3, r3)
  {
    forall k | |w0| <= k < |w2| ensures Restored(plan, env, c2, w2[k], r3) {
      FailedRestores(plan, env, i, c0, w0, attempted, r1, c1, w1, r2, c2, w2, r3, c3, w3, k);
    }
    NewWrite(plan, env, i, c0, w0, r1, c1, w1, r2, c2, w2);
    HandledWrite(plan, env, i, attempted, r2, c2, w2, r3, c3, w3);
    Extended(plan, env, c0, c2, w0, w2, w3, r3);
  }

  lemma Extended(plan: Plan, env: nat -> Step, c0: nat, c2: nat, w0: seq<Write>, w2: seq<Write>, w3: seq<Write>,
                 r3: Refs)
    requires GoodWrites(plan, env, c0, w0, w2)
    requires forall k :: |w0| <= k < |w2| ==> Restored(plan, env, c2, w2[k], r3)
    requires |w2| <= |w3| <= |w2| + 1 && w3[..|w2|] == w2
    requires |w3| > |w2| ==> RunWrite(plan, w3[|w2|]) && w3[|w2|].Created?
    ensures GoodWrites(plan, env, c0, w0, w3)
    ensures AllRestored(plan, env, c2, |w0|, w3, r3)
  {
    assert w3[..|w0|] == w2[..|w0|];
    forall k | |w0| <= k < |w3|
      ensures RunWrite(plan, w3[k]) && BackedUp(plan, env, c0, w3[k]) && Restored(plan, env, c2, w3[k], r3)
    {
      if k < |w2| {
        assert w3[k] == w2[k];
      }
    }
  }

  lemma HandledWrite(plan: Plan, env: nat -> Step, i: nat, attempted: bool,
                     r2: Refs, c2: nat, w2: seq<Write>, r3: Refs, c3: nat, w3: seq<Write>)
    requires i < |PlannedOps(plan)|
    requires Handled(env, PlannedOps(plan), i, attempted, r2, c2, w2, r3, c3, w3)
    ensures |w2| <= |w3| <= |w2| + 1 && w3[..|w2|] == w2
    ensures |w3| > |w2| ==> RunWrite(plan, w3[|w2|]) && w3[|w2|].Created?
  {
    var ops := PlannedOps(plan);
    OrderOfOperations(plan, i);
    if w3 != w2 {
      if AfterDeletion(ops, i) {
        OrderOfOperations(plan, i - 1);
        assert ops[i - 1] in ops && ops[i - 1] == Delete(Release, ops[i - 1].sha);
      } else {
        var j :| 0 <= j < |ops| && ops[j].Create? && ops[j].ref == ops[i].ref;
        OrderOfOperations(plan, j);
        assert ops[i] in ops;
      }
    }
  }

  lemma NextState(plan: Plan, env: nat -> Step, i: nat, c0: nat, w0: seq<Write>,
                  r1: Refs, c1: nat, w1: seq<Write>, r2: Refs, c2: nat, w2: seq<Write>)
    requires i < |PlannedOps(plan)| && Applicable(plan) && Distinct(plan.updates)
    requires RunState(plan, env, i, c0, w0, r1, c1, w1)
    requires Guarded(env, PlannedOps(plan)[i], r1, c1, w1, r2, c2, w2)
    requires Snapshot(r2) == Effect(Fold(plan.expected, PlannedOps(plan)[..i]), PlannedOps(plan)[i])
    ensures RunState(plan, env, i + 1, c0, w0, r2, c2, w2)
  {
    NewWrite(plan, env, i, c0, w0, r1, c1, w1, r2, c2, w2);
    FoldNext(plan.expected, PlannedOps(plan), i);
  }

  // ---- The run ----------------------------------------------------------------------

  /** What the loop relies on when it comes to operation `i`. */
  lemma BeforeOperation(plan: Plan, i: nat)
    requires Legal(plan.expected, PlannedOps(plan)) && i < |PlannedOps(plan)|
    ensures var ops := PlannedOps(plan);
            && !ops[i].ref.Other? && (i > 0 ==> !ops[i - 1].ref.Other?) && Outstanding(ops, i) == LastDeleted(ops, i)
            && Permitted(Fold(plan.expected, ops[..i]), ops[i])
            && Fold(plan.expected, ops[..i + 1]) == Effect(Fold(plan.expected, ops[..i]), ops[i])
  {
    OrderOfOperations(plan, i);
    AtMostOneOutstanding(plan, i);
    LegalAt(plan.expected, PlannedOps(plan), i);
    FoldNext(plan.expected, PlannedOps(plan), i);
    if i > 0 {
      OrderOfOperations(plan, i - 1);
    }
  }

  /**
  What the error of a run says of release/new: once the run has deleted it and its creation has failed, its old
  head and its backup; and of a failed deletion that it may have taken effect.
  */
  ghost predicate ErrorNames(plan: Plan, failed: nat, error: Error) {
    var ops := PlannedOps(plan);
    if failed < |ops| && AfterDeletion(ops, failed) then
      && error.RecoveryReport? && error.certain && error.ref == Release
      && Get(plan.expected, Release) == Some(error.oldHead) && error.backup == plan.backup
    else
      error.RecoveryReport? ==>
        && !error.certain && error.backup == plan.backup
        && failed < |ops| && ops[failed] == Delete(error.ref, error.oldHead)
  }

  /** What the handler of operation `i` raises. */
  ghost predicate RaisedBy(ops: seq<Op>, i: nat, backup: Option<Ref>, error: Error, cause: Error)
    requires i < |ops|
  {
    if AfterDeletion(ops, i) then Reports(error, ops[i - 1].ref, ops[i - 1].sha, backup, true, cause)
    else error == cause || (ops[i].Delete? && Reports(error, ops[i].ref, ops[i].sha, backup, false, cause))
  }

  lemma RaisedNames(plan: Plan, i: nat, error: Error, cause: Error)
    requires i < |PlannedOps(plan)| && !cause.RecoveryReport?
    requires RaisedBy(PlannedOps(plan), i, plan.backup, error, cause)
    ensures ErrorNames(plan, i, error)
  {
    if AfterDeletion(PlannedOps(plan), i) {
      OrderOfOperations(plan, i - 1);
    }
  }

  /** The body of the loop over operations: one operation and, when it fails, its handler. */
  method AttemptOperation(remote: Remote, plan: Plan, i: nat, expected: Refs, awaiting: map<Ref, Sha>,
                          recreated: set<Ref>, ghost c0: nat, ghost w0: seq<Write>)
    returns (outcome: Outcome, next: Refs, ghost raisedAt: nat)
    requires Applicable(plan) && Distinct(plan.updates) && i < |PlannedOps(plan)|
    requires expected == Fold(plan.expected, PlannedOps(plan)[..i]) && Legal(plan.expected, PlannedOps(plan))
    requires awaiting == Outstanding(PlannedOps(plan), i) && recreated == Recreated(PlannedOps(plan))
    requires RunState(plan, remote.env, i, c0, w0, remote.refs, remote.clock, remote.writes)
    modifies remote
    ensures outcome.Done? ==>
              && next == Fold(plan.expected, PlannedOps(plan)[..i + 1])
              && RunState(plan, remote.env, i + 1, c0, w0, remote.refs, remote.clock, remote.writes)
              && remote.sent == old(remote.sent) + 1 && remote.clock > old(remote.clock)
    ensures outcome.Raised? ==>
              && GoodWrites(plan, remote.env, c0, w0, remote.writes)
              && AllRestored(plan, remote.env, raisedAt, |w0|, remote.writes, remote.refs)
              && ErrorNames(plan, i, outcome.error)
              && old(remote.sent) <= remote.sent <= old(remote.sent) + 2
              && old(remote.clock) < raisedAt <= remote.clock <= raisedAt + 4
    ensures Undisturbed(remote.env, old(remote.clock)) ==> outcome.Done?
  {
    ghost var env, r1, c1, w1 := remote.env, remote.refs, remote.clock, remote.writes;
    var op := PlannedOps(plan)[i];
    BeforeOperation(plan, i);
    var attempted;
    outcome, next, attempted := ApplyOperation(remote, op, expected);
    ghost var r2, c2, w2 := remote.refs, remote.clock, remote.writes;
    raisedAt := remote.clock;
    if outcome.Raised? {
      var error :=
        HandleFailure(remote, PlannedOps(plan), i, awaiting, recreated, attempted, plan.backup, outcome.error);
      RaisedNames(plan, i, error, outcome.error);
      outcome := Raised(error);
      FailedStep(plan, env, i, c0, w0, attempted, r1, c1, w1, r2, c2, w2, remote.refs, remote.clock, remote.writes);
    } else {
      NextState(plan, env, i, c0, w0, r1, c1, w1, r2, c2, w2);
    }
  }

  /** The handler of operation `i`, at the moment its error is caught. */
  method HandleFailure(remote: Remote, ops: seq<Op>, i: nat, awaiting: map<Ref, Sha>, recreated: set<Ref>,
                       attempted: bool, backup: Option<Ref>, cause: Error) returns (error: Error)
    requires i < |ops| && !ops[i].ref.Other? && (i > 0 ==> !ops[i - 1].ref.Other?)
    requires awaiting == LastDeleted(ops, i) && recreated == Recreated(ops)
    modifies remote
    ensures Handled(remote.env, ops, i, attempted, old(remote.refs), old(remote.clock), old(remote.writes),
                    remote.refs, remote.clock, remote.writes)
    ensures old(remote.sent) <= remote.sent <= old(remote.sent) + 1
    ensures old(remote.clock) <= remote.clock <= old(remote.clock) + 4
    ensures RaisedBy(ops, i, backup, error, cause)
  {
    if AfterDeletion(ops, i) {
      assert ops[i - 1].ref in awaiting;
    }
    ghost var ref, oldHead;
    error, ref, oldHead := OnError(remote, awaiting, ops[i], recreated, attempted, backup, cause);
  }

  /** The error is that of operation `failed`, behind as many pushes; without a push there may be no operation. */
  ghost predicate FailedAt(plan: Plan, failed: nat, error: Error, sent0: nat, sent1: nat) {
    && failed <= |PlannedOps(plan)| && ErrorNames(plan, failed, error)
    && (if failed < |PlannedOps(plan)| then sent0 + failed <= sent1 <= sent0 + failed + 2 else sent1 == sent0)
  }

  /** The loop over the operations of a plan whose expected refs have just been read. */
  method RunOperations(remote: Remote, plan: Plan, ghost c0: nat)
    returns (outcome: Outcome, ghost raisedAt: nat, ghost failed: nat)
    requires Applicable(plan) && Legal(plan.expected, PlannedOps(plan)) && Distinct(plan.updates)
    requires c0 <= remote.clock && Snapshot(remote.refs) == plan.expected
    modifies remote
    ensures GoodWrites(plan, remote.env, c0, old(remote.writes), remote.writes)
    ensures outcome.Done? ==>
              && Snapshot(remote.refs) == Fold(plan.expected, PlannedOps(plan))
              && remote.sent == old(remote.sent) + |PlannedOps(plan)|
    ensures outcome.Raised? ==>
              && AllRestored(plan, remote.env, raisedAt, |old(remote.writes)|, remote.writes, remote.refs)
              && FailedAt(plan, failed, outcome.error, old(remote.sent), remote.sent)
              && old(remote.clock) < raisedAt <= remote.clock <= raisedAt + 4
    ensures Undisturbed(remote.env, old(remote.clock)) ==> outcome.Done?
  {
    ghost var w0 := remote.writes;
    var ops, expected := PlannedOps(plan), plan.expected;
    var awaiting := NONE;
    outcome, raisedAt, failed := Done, 0, 0;
    RunStarts(plan, remote.env, c0, remote.refs, remote.clock, w0);
    var i := 0;
    while i < |ops|
      invariant 0 <= i <= |ops| && outcome.Done?
      invariant expected == Fold(plan.expected, ops[..i])
      invariant awaiting == Outstanding(ops, i)
      invariant RunState(plan, remote.env, i, c0, w0, remote.refs, remote.clock, remote.writes)
      invariant remote.sent == old(remote.sent) + i && old(remote.clock) <= remote.clock
    {
      outcome, expected, raisedAt := AttemptOperation(remote, plan, i, expected, awaiting, Recreated(ops), c0, w0);
      if outcome.Raised? {
        failed := i;
        return;
      }
      awaiting := NoteOperation(ops, i, awaiting);
      i := i + 1;
    }
    assert ops[..i] == ops;
    RunStateIsGood(plan, remote.env, i, c0, w0, remote.refs, remote.clock, remote.writes);
  }

  lemma RunStarts(plan: Plan, env: nat -> Step, c0: nat, refs: Refs, clock: nat, writes: seq<Write>)
    requires c0 <= clock && Snapshot(refs) == plan.expected
    ensures RunState(plan, env, 0, c0, writes, refs, clock, writes)
    ensures plan.expected == Fold(plan.expected, PlannedOps(plan)[..0]) && Outstanding(PlannedOps(plan), 0) == NONE
  {
  }

  lemma RunStateIsGood(plan: Plan, env: nat -> Step, i: nat, c0: nat, w0: seq<Write>, refs: Refs, clock: nat,
                       writes: seq<Write>)
    requires i <= |PlannedOps(plan)| && RunState(plan, env, i, c0, w0, refs, clock, writes)
    ensures GoodWrites(plan, env, c0, w0, writes) && Snapshot(refs) == Fold(plan.expected, PlannedOps(plan)[..i])
  {
    forall k | |w0| <= k < |writes| ensures RunWrite(plan, writes[k]) && BackedUp(plan, env, c0, writes[k]) {
      assert MadeBy(plan, env, c0, clock, PlannedOps(plan)[..i], writes[k]);
    }
  }

  /** `awaiting[op.ref] = op.sha` after a deletion, `awaiting.pop(op.ref, None)` after a creation. */
  method NoteOperation(ops: seq<Op>, i: nat, awaiting: map<Ref, Sha>) returns (next: map<Ref, Sha>)
    requires i < |ops| && awaiting == Outstanding(ops, i)
    ensures next == Outstanding(ops, i + 1)
  {
    if ops[i].Delete? {
      next := awaiting[ops[i].ref := ops[i].sha];
    } else {
      next := awaiting - {ops[i].ref};
    }
  }

  /** The first read of a run, and the loop when it shows the expected refs. */
  method RunIfExpected(remote: Remote, plan: Plan)
    returns (outcome: Outcome, ghost raisedAt: nat, ghost failed: nat)
    requires Applicable(plan) && Legal(plan.expected, PlannedOps(plan)) && Distinct(plan.updates)
    modifies remote
    ensures GoodWrites(plan, remote.env, old(remote.clock), old(remote.writes), remote.writes)
    ensures outcome.Done? ==>
              && Snapshot(remote.refs) == Fold(plan.expected, PlannedOps(plan))
              && remote.sent == old(remote.sent) + |PlannedOps(plan)|
    ensures outcome.Raised? ==>
              && AllRestored(plan, remote.env, raisedAt, |old(remote.writes)|, remote.writes, remote.refs)
              && FailedAt(plan, failed, outcome.error, old(remote.sent), remote.sent)
              && old(remote.clock) < raisedAt <= remote.clock <= raisedAt + 4
    ensures Undisturbed(remote.env, old(remote.clock)) ==>
              (outcome.Done? <==> Snapshot(old(remote.refs)) == plan.expected)
  {
    ghost var c0 := remote.clock;
    if Undisturbed(remote.env, c0) {
      UndisturbedMove(remote.env, c0, c0, remote.refs);
      UndisturbedMove(remote.env, c0, c0 + 1, remote.refs);
    }
    outcome := RequireState(remote, plan.expected, Stale);
    raisedAt, failed := remote.clock, |PlannedOps(plan)|;
    if outcome.Done? {
      outcome, raisedAt, failed := RunOperations(remote, plan, c0);
    }
  }

  /**
  Apply a plan once; `raisedAt` is the moment the error that ended the run was caught, so that at most four
  calls, those of its handler, come after it. For every behaviour of the rival and the network: each change the
  run makes is one the plan allows, made only where `RunWrite` says; a deletion finds its backups in place; a
  normal return means the last read showed exactly the expected refs overlaid with the updates; and after an
  error a deleted release/new is back, provided the rival left it alone and the remote was calm from `raisedAt`
  on; that error names what the run has deleted, and `failed` is the operation it comes from. Undisturbed, the
  run applies the plan if and only if it is ready and applicable and the remote shows the refs it was made for.
  */
  method ApplyPlan(remote: Remote, plan: Plan) returns (outcome: Outcome, ghost raisedAt: nat, ghost failed: nat)
    requires Distinct(plan.updates)
    modifies remote
    ensures GoodWrites(plan, remote.env, old(remote.clock), old(remote.writes), remote.writes)
    ensures outcome.Done? ==>
              && plan.ready && Applicable(plan)
              && Snapshot(remote.refs) == Overlay(plan.expected, plan.updates)
              && remote.sent == old(remote.sent) + |PlannedOps(plan)|
    ensures outcome.Raised? ==>
              && AllRestored(plan, remote.env, raisedAt, |old(remote.writes)|, remote.writes, remote.refs)
              && FailedAt(plan, failed, outcome.error, old(remote.sent), remote.sent)
              && old(remote.clock) <= raisedAt <= remote.clock <= raisedAt + 4
    ensures !plan.ready || !Applicable(plan) ==>
              outcome.Raised? && remote.refs == old(remote.refs) && remote.clock == old(remote.clock)
              && remote.writes == old(remote.writes)
    ensures Undisturbed(remote.env, old(remote.clock)) ==>
              (outcome.Done? <==> plan.ready && Applicable(plan) && Snapshot(old(remote.refs)) == plan.expected)
  {
    raisedAt, failed := remote.clock, |PlannedOps(plan)|;
    if !plan.ready {
      return Raised(NotReady), raisedAt, failed;
    }
    OperationsExactly(plan);
    var planned := ApplyOperations(plan);
    if planned.Err? {
      return Raised(BadPlan(planned.error)), raisedAt, failed;
    }
    OperationsRealizeUpdates(plan);
    outcome, raisedAt, failed := RunIfExpected(remote, plan);
  }

  /**
  A recut of the refs that were read: without the acknowledgement of exactly the pending commits it raises and
  writes nothing; done means that release/new is at the new base, its old head kept, a released hotfix gone and
  every other ref as it was read; and undisturbed it is done if and only if the commits are acknowledged and the
  remote still shows those refs.
  */
  method ApplyRecut(remote: Remote, refs: Refs, newBase: Sha, pending: seq<Sha>, acknowledge: seq<Sha>,
                    afterHotfix: bool) returns (outcome: Outcome)
    requires PlanRecut(refs, newBase, pending, acknowledge, afterHotfix).Ok?
    modifies remote
    ensures !AcknowledgedOnce(pending, acknowledge) ==>
              outcome.Raised? && remote.refs == old(remote.refs) && remote.writes == old(remote.writes)
    ensures outcome.Done? ==>
              var seen := Snapshot(remote.refs);
              && AcknowledgedOnce(pending, acknowledge) && Get(seen, Release) == Some(newBase)
              && Get(seen, Preserve("release-new/" + refs[Release])) == Some(refs[Release])
              && Get(seen, Hotfix) == (if afterHotfix then None else Get(refs, Hotfix))
              && forall x :: x != Release && x != Preserve("release-new/" + refs[Release]) && x != Hotfix ==>
                               Get(seen, x) == Get(refs, x)
    ensures Undisturbed(remote.env, old(remote.clock)) ==>
              (outcome.Done? <==> AcknowledgedOnce(pending, acknowledge) && Snapshot(old(remote.refs)) == refs)
  {
    var planned := PlanRecut(refs, newBase, pending, acknowledge, afterHotfix);
    RecutPlanIsExact(refs, newBase, pending, acknowledge, afterHotfix);
    ghost var raisedAt, failed;
    outcome, raisedAt, failed := ApplyPlan(remote, planned.value);
  }

  /**
  For a plan made by `PlanRecut`: whenever the run deletes release/new, it removes exactly the head the
  plan was made for, and at that moment the preservation ref holds that head, as long as the rival
  leaves the preservation ref alone.
  */
  lemma RecutDeletesOnlyTheBackedUpHead(refs: Refs, newBase: Sha, pending: seq<Sha>, acknowledge: seq<Sha>,
                                        afterHotfix: bool, env: nat -> Step, start: nat, w: Write)
    requires PlanRecut(refs, newBase, pending, acknowledge, afterHotfix).Ok?
    requires w.Deleted? && w.ref.Release?
    requires var plan := PlanRecut(refs, newBase, pending, acknowledge, afterHotfix).value;
             RunWrite(plan, w) && BackedUp(plan, env, start, w)
    ensures w.sha == refs[Release] && Get(w.before, Release) == Some(refs[Release])
    ensures QuietOn(env, BackupRef(refs[Release]), start) ==>
              Get(w.before, BackupRef(refs[Release])) == Some(refs[Release])
  {
    RecutPlanIsExact(refs, newBase, pending, acknowledge, afterHotfix);
  }
}
