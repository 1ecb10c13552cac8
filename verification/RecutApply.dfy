/**
Applying a recut plan to a remote that a rival may change at any time (scripts/sdlc_recut.py).

The remote's behaviour is scripted: step `n` of `env` says which refs the rival moves just before
the n-th call reaches the server, whether a read succeeds, and what happens to a push. Everything
proved here holds for every script.
*/
module RecutApply {
  import opened Common
  import opened RecutPlan

  /**
  What happens to a push. `Honest`: the server decides and the reply is true. `Refused`: nothing
  happens and failure is reported. `LostReply`: the server decides but failure is reported.
  `Phantom`: nothing happens but success is reported.
  */
  datatype Reply = Honest | Refused | LostReply | Phantom

  datatype Step = Step(rival: map<Ref, Option<Sha>>, readable: bool, reply: Reply)

  /** A change this run made on the server, with the refs it found there. */
  datatype Write =
    | Created(at: nat, ref: Ref, sha: Sha, before: Refs)
    | Deleted(at: nat, ref: Ref, sha: Sha, before: Refs)

  function Moved(refs: Refs, rival: map<Ref, Option<Sha>>): (moved: Refs)
    ensures forall r :: Get(moved, r) == if r in rival then rival[r] else Get(refs, r)
  {
    map r | r in refs.Keys + rival.Keys && (r in rival ==> rival[r].Some?) ::
      if r in rival then rival[r].value else refs[r]
  }

  /** From step `n` on the rival leaves `ref` alone. */
  ghost predicate QuietOn(env: nat -> Step, ref: Ref, n: nat) {
    forall m: nat :: m >= n ==> ref !in env(m).rival
  }

  /** From step `n` on every read succeeds and every push is answered honestly. */
  ghost predicate CalmFrom(env: nat -> Step, n: nat) {
    forall m: nat :: m >= n ==> env(m).readable && env(m).reply.Honest?
  }

  /** From step `n` on the remote is calm and the rival moves none of the refs a run looks at. */
  ghost predicate Undisturbed(env: nat -> Step, n: nat) {
    CalmFrom(env, n) && forall r: Ref :: !r.Other? ==> QuietOn(env, r, n)
  }

  lemma UndisturbedMove(env: nat -> Step, n: nat, m: nat, refs: Refs)
    requires Undisturbed(env, n) && n <= m
    ensures Snapshot(Moved(refs, env(m).rival)) == Snapshot(refs) && env(m).readable && env(m).reply.Honest?
    ensures Undisturbed(env, m)
  {
    var moved := Moved(refs, env(m).rival);
    forall r: Ref | !r.Other? ensures Get(moved, r) == Get(refs, r) {
      assert QuietOn(env, r, n);
    }
    SameVisible(moved, refs);
  }

  lemma SameVisible(a: Refs, b: Refs)
    requires forall r: Ref :: !r.Other? ==> Get(a, r) == Get(b, r)
    ensures Snapshot(a) == Snapshot(b)
  {
    forall r: Ref | !r.Other? ensures (r in a <==> r in b) && (r in a ==> a[r] == b[r]) {
      assert Get(a, r) == Get(b, r);
    }
  }

  /** An operation on a ref a run looks at is seen in what it looks at. */
  lemma VisibleEffect(refs: Refs, op: Op)
    requires !op.ref.Other?
    ensures Permitted(refs, op) == Permitted(Snapshot(refs), op)
    ensures Snapshot(Effect(refs, op)) == Effect(Snapshot(refs), op)
  {
  }

  function WriteOf(op: Op, at: nat, before: Refs): Write {
    match op
    case Create(ref, sha) => Created(at, ref, sha, before)
    case Delete(ref, sha) => Deleted(at, ref, sha, before)
  }

  /**
  The server and its client. A leased deletion removes the ref only at the leased commit; a plain
  creation only makes an absent ref, and reports success without a change when the ref is already
  at that commit (branch protection refuses every other update).
  */
  class Remote {
    const env: nat -> Step
    var refs: Refs
    var clock: nat
    ghost var writes: seq<Write>
    ghost var sent: nat

    constructor (env: nat -> Step, refs: Refs)
      ensures this.env == env && this.refs == refs && clock == 0 && writes == [] && sent == 0
    {
      this.env, this.refs, clock, writes, sent := env, refs, 0, [], 0;
    }

    method Read() returns (seen: Option<Refs>)
      modifies this
      ensures clock == old(clock) + 1 && writes == old(writes) && sent == old(sent)
      ensures refs == Moved(old(refs), env(old(clock)).rival)
      ensures seen == if env(old(clock)).readable then Some(Snapshot(refs)) else None
    {
      refs := Moved(refs, env(clock).rival);
      seen := if env(clock).readable then Some(Snapshot(refs)) else None;
      clock := clock + 1;
    }

    method Push(op: Op) returns (ok: bool)
      modifies this
      ensures clock == old(clock) + 1 && sent == old(sent) + 1
      ensures var step := env(old(clock));
              var found := Moved(old(refs), step.rival);
              var effective := Permitted(found, op) && (step.reply.Honest? || step.reply.LostReply?);
              && refs == (if effective then Effect(found, op) else found)
              && writes == old(writes) + (if effective then [WriteOf(op, old(clock), found)] else [])
              && (ok <==> step.reply.Phantom?
                          || (step.reply.Honest?
                              && (Permitted(found, op) || (op.Create? && Get(found, op.ref) == Some(op.sha)))))
    {
      var step := env(clock);
      refs := Moved(refs, step.rival);
      ok := step.reply.Phantom?;
      sent := sent + 1;
      if step.reply.Honest? || step.reply.LostReply? {
        if Permitted(refs, op) {
          ghost var found := refs;
          refs := Effect(refs, op);
          writes := writes + [WriteOf(op, clock, found)];
          ok := step.reply.Honest?;
        } else {
          ok := step.reply.Honest? && op.Create? && Get(refs, op.ref) == Some(op.sha);
        }
      }
      clock := clock + 1;
    }
  }

  /** The head of one ref as `_read_head` reports it. */
  datatype Head = Absent | At(sha: Sha) | Unreadable

  datatype Error =
    | NotReady
    | BadPlan(reason: PlanError)
    | RemoteUnreadable
    | Stale
    | DeletionUnchanged(ref: Ref, sha: Sha)
    | DeletionMoved(ref: Ref, sha: Sha, movedTo: Sha)
    | DeletionUncertain(ref: Ref, sha: Sha)
    | DeletionUnconfirmed(ref: Ref, sha: Sha)
    | CreationRefused(ref: Ref, sha: Sha)
    | CreationUnconfirmed(ref: Ref)
    | RecoveryReport(ref: Ref, oldHead: Sha, backup: Option<Ref>, certain: bool, restored: bool, head: Head,
                     cause: Error)

  datatype Outcome = Done | Raised(error: Error)

  method RequireState(remote: Remote, expected: Refs, error: Error) returns (outcome: Outcome)
    modifies remote
    ensures remote.clock == old(remote.clock) + 1
    ensures remote.writes == old(remote.writes) && remote.sent == old(remote.sent)
    ensures remote.refs == Moved(old(remote.refs), remote.env(old(remote.clock)).rival)
    ensures outcome.Done? <==> remote.env(old(remote.clock)).readable && Snapshot(remote.refs) == expected
    ensures outcome.Raised? ==>
              outcome.error == if remote.env(old(remote.clock)).readable then error else RemoteUnreadable
  {
    var seen := remote.Read();
    if seen.None? {
      return Raised(RemoteUnreadable);
    }
    return if seen.value == expected then Done else Raised(error);
  }

  method ReadHead(remote: Remote, ref: Ref) returns (head: Head)
    modifies remote
    ensures remote.clock == old(remote.clock) + 1
    ensures remote.writes == old(remote.writes) && remote.sent == old(remote.sent)
    ensures remote.refs == Moved(old(remote.refs), remote.env(old(remote.clock)).rival)
    ensures head.Unreadable? <==> !remote.env(old(remote.clock)).readable
    ensures !head.Unreadable? ==>
              head == match Get(Snapshot(remote.refs), ref) case None => Absent case Some(s) => At(s)
  {
    var seen := remote.Read();
    if seen.None? {
      return Unreadable;
    }
    match Get(seen.value, ref) {
      case None => return Absent;
      case Some(sha) => return At(sha);
    }
  }

  /** What one guarded push can do to the remote between two moments. */
  ghost predicate Guarded(env: nat -> Step, op: Op, before: Refs, beforeClock: nat, beforeWrites: seq<Write>,
                          after: Refs, afterClock: nat, afterWrites: seq<Write>)
  {
    && beforeClock <= afterClock
    && (forall r :: QuietOn(env, r, beforeClock) && (r != op.ref || afterWrites == beforeWrites)
                    ==> Get(after, r) == Get(before, r))
    && (afterWrites != beforeWrites ==>
          && |afterWrites| == |beforeWrites| + 1
          && afterWrites[..|beforeWrites|] == beforeWrites
          && var w := afterWrites[|beforeWrites|];
             && beforeClock <= w.at < afterClock
             && w == WriteOf(op, w.at, w.before)
             && Permitted(w.before, op)
             && (forall r :: QuietOn(env, r, beforeClock) ==> Get(w.before, r) == Get(before, r))
             && (QuietOn(env, op.ref, w.at + 1) ==> Get(after, op.ref) == Get(Effect(w.before, op), op.ref)))
  }

  lemma GuardedRead(env: nat -> Step, op: Op, r0: Refs, c0: nat, w0: seq<Write>, r1: Refs, c1: nat, w1: seq<Write>,
                    r2: Refs)
    requires Guarded(env, op, r0, c0, w0, r1, c1, w1)
    requires r2 == Moved(r1, env(c1).rival)
    ensures Guarded(env, op, r0, c0, w0, r2, c1 + 1, w1)
  {
  }

  lemma GuardedPush(env: nat -> Step, op: Op, r0: Refs, c0: nat, w0: seq<Write>, r1: Refs, c1: nat, r2: Refs,
                    w2: seq<Write>)
    requires Guarded(env, op, r0, c0, w0, r1, c1, w0)
    requires var found := Moved(r1, env(c1).rival);
             || (r2 == found && w2 == w0)
             || (Permitted(found, op) && r2 == Effect(found, op) && w2 == w0 + [WriteOf(op, c1, found)])
    ensures Guarded(env, op, r0, c0, w0, r2, c1 + 1, w2)
  {
  }

  lemma GuardedUnsent(env: nat -> Step, op: Op, r0: Refs, c0: nat, w0: seq<Write>)
    ensures Guarded(env, op, r0, c0, w0, Moved(r0, env(c0).rival), c0 + 1, w0)
  {
    GuardedRead(env, op, r0, c0, w0, r0, c0, w0, Moved(r0, env(c0).rival));
  }

  lemma GuardedSend(env: nat -> Step, op: Op, r0: Refs, c0: nat, w0: seq<Write>, r1: Refs, r2: Refs, w2: seq<Write>)
    requires r1 == Moved(r0, env(c0).rival)
    requires var found := Moved(r1, env(c0 + 1).rival);
             || (r2 == found && w2 == w0)
             || (Permitted(found, op) && r2 == Effect(found, op) && w2 == w0 + [WriteOf(op, c0 + 1, found)])
    ensures Guarded(env, op, r0, c0, w0, r2, c0 + 2, w2)
  {
    GuardedUnsent(env, op, r0, c0, w0);
    GuardedPush(env, op, r0, c0, w0, r1, c0 + 1, r2, w2);
  }

  /** The remote shows what is expected, and the operation is permitted there. */
  ghost predicate Agreed(refs: Refs, op: Op, expected: Refs) {
    Snapshot(refs) == expected && Permitted(expected, op) && !op.ref.Other?
  }

  /** An undisturbed read and push: the read shows what is expected, and the push takes effect. */
  lemma UndisturbedSend(env: nat -> Step, n: nat, refs: Refs, op: Op, expected: Refs)
    ensures Undisturbed(env, n) && Agreed(refs, op, expected) ==>
              var r1 := Moved(refs, env(n).rival);
              var r2 := Moved(r1, env(n + 1).rival);
              && Snapshot(r1) == expected && env(n).readable && env(n + 1).reply.Honest?
              && Permitted(r2, op) && Snapshot(Effect(r2, op)) == Effect(expected, op)
  {
    if Undisturbed(env, n) && Agreed(refs, op, expected) {
      var r1 := Moved(refs, env(n).rival);
      UndisturbedMove(env, n, n, refs);
      UndisturbedMove(env, n, n + 1, r1);
      VisibleEffect(Moved(r1, env(n + 1).rival), op);
    }
  }

  /** The read immediately before a push, and the push. */
  method Send(remote: Remote, op: Op, expected: Refs) returns (outcome: Outcome, ok: bool)
    modifies remote
    ensures remote.clock > old(remote.clock)
    ensures Guarded(remote.env, op, old(remote.refs), old(remote.clock), old(remote.writes),
                    remote.refs, remote.clock, remote.writes)
    ensures outcome.Raised? ==> remote.writes == old(remote.writes) && outcome.error in {RemoteUnreadable, Stale}
    ensures remote.sent == old(remote.sent) + if outcome.Done? then 1 else 0
    ensures Undisturbed(remote.env, old(remote.clock)) && Agreed(old(remote.refs), op, expected) ==>
              outcome.Done? && ok && Snapshot(remote.refs) == Effect(expected, op) &&
                remote.clock == old(remote.clock) + 2
  {
    UndisturbedSend(remote.env, remote.clock, remote.refs, op, expected);
    ghost var env, r0, c0, w0 := remote.env, remote.refs, remote.clock, remote.writes;
    ok := false;
    outcome := RequireState(remote, expected, Stale);
    ghost var r1 := remote.refs;
    if outcome.Raised? {
      GuardedUnsent(env, op, r0, c0, w0);
      return;
    }
    ok := remote.Push(op);
    GuardedSend(env, op, r0, c0, w0, r1, remote.refs, remote.writes);
  }

  /** What a failed deletion looks like afterwards: unreadable, gone, unchanged, or moved on by someone else. */
  function DeletionError(ref: Ref, sha: Sha, readable: bool, refs: Refs): Error {
    if !readable then RemoteUnreadable
    else match Get(Snapshot(refs), ref)
      case None => DeletionUncertain(ref, sha)
      case Some(s) => if s == sha then DeletionUnchanged(ref, sha) else DeletionMoved(ref, sha, s)
  }

  /** What the source reports when a push failed; a failed deletion is looked at once more. */
  method PushFailed(remote: Remote, op: Op) returns (error: Error)
    modifies remote
    ensures remote.writes == old(remote.writes) && remote.sent == old(remote.sent)
    ensures (remote.clock == old(remote.clock) && remote.refs == old(remote.refs))
            || (remote.clock == old(remote.clock) + 1
                && remote.refs == Moved(old(remote.refs), remote.env(old(remote.clock)).rival))
    ensures op.Create? ==> error == CreationRefused(op.ref, op.sha) && remote.clock == old(remote.clock)
    ensures op.Delete? ==> error == DeletionError(op.ref, op.sha, remote.env(old(remote.clock)).readable, remote.refs)
  {
    match op {
      case Create(ref, sha) =>
        return CreationRefused(ref, sha);
      case Delete(ref, sha) =>
        var head := ReadHead(remote, ref);
        match head {
          case Unreadable => return RemoteUnreadable;
          case Absent => return DeletionUncertain(ref, sha);
          case At(s) => return if s == sha then DeletionUnchanged(ref, sha) else DeletionMoved(ref, sha, s);
        }
    }
  }

  /** What can go wrong once a push has left: it names the operation, or the remote could not be read. */
  predicate SentError(op: Op, e: Error) {
    match e
    case RemoteUnreadable => true
    case CreationRefused(ref, sha) => op == Create(ref, sha)
    case CreationUnconfirmed(ref) => op.Create? && op.ref == ref
    case DeletionUnchanged(ref, sha) => op == Delete(ref, sha)
    case DeletionMoved(ref, sha, movedTo) => op == Delete(ref, sha) && movedTo != sha
    case DeletionUncertain(ref, sha) => op == Delete(ref, sha)
    case DeletionUnconfirmed(ref, sha) => op == Delete(ref, sha)
    case _ => false
  }

  /**
  One operation: read, push, read back. `sent` reports whether the push left; when the operation is
  done, the remote as read is what was expected with this one operation's effect.
  */
  method ApplyOperation(remote: Remote, op: Op, expected: Refs)
    returns (outcome: Outcome, next: Refs, attempted: bool)
    requires Permitted(expected, op)
    modifies remote
    ensures Guarded(remote.env, op, old(remote.refs), old(remote.clock), old(remote.writes),
                    remote.refs, remote.clock, remote.writes)
    ensures !attempted ==> remote.writes == old(remote.writes)
    ensures remote.sent == old(remote.sent) + if attempted then 1 else 0
    ensures outcome.Done? ==> attempted && next == Effect(expected, op) && Snapshot(remote.refs) == next
    ensures remote.clock > old(remote.clock)
    ensures outcome.Raised? ==>
              if attempted then SentError(op, outcome.error) else outcome.error in {RemoteUnreadable, Stale}
    ensures Undisturbed(remote.env, old(remote.clock)) && Agreed(old(remote.refs), op, expected) ==> outcome.Done?
  {
    ghost var env, r0, c0, w0 := remote.env, remote.refs, remote.clock, remote.writes;
    next, attempted := expected, false;
    var ok;
    outcome, ok := Send(remote, op, expected);
    if outcome.Raised? {
      return;
    }
    attempted := true;
    ghost var r2, c2, w2 := remote.refs, remote.clock, remote.writes;
    if Undisturbed(env, c0) {
      UndisturbedMove(env, c0, c2, r2);
    }
    if ok {
      next := Effect(expected, op);
      outcome := RequireState(remote, next, if op.Delete? then DeletionUnconfirmed(op.ref, op.sha)
                                            else CreationUnconfirmed(op.ref));
    } else {
      var error := PushFailed(remote, op);
      outcome := Raised(error);
    }
    GuardedRead(env, op, r0, c0, w0, r2, c2, w2, Moved(r2, env(c2).rival));
  }

  /** Nothing the rival leaves alone changed, except that `ref` was recreated at `oldHead` where it was absent. */
  ghost predicate OnlyRecreated(env: nat -> Step, ref: Ref, oldHead: Sha,
                                r0: Refs, c0: nat, w0: seq<Write>, r1: Refs, c1: nat, w1: seq<Write>)
  {
    && c0 <= c1
    && (w1 == w0
        || (|w1| == |w0| + 1 && w1[..|w0|] == w0 && w1[|w0|].Created? && c0 <= w1[|w0|].at < c1
            && w1[|w0|].ref == ref && w1[|w0|].sha == oldHead && ref !in w1[|w0|].before))
    && (forall r :: QuietOn(env, r, c0) && Get(r0, r).Some? ==> Get(r1, r) == Get(r0, r))
  }

  lemma RecreatedRead(env: nat -> Step, ref: Ref, oldHead: Sha, r0: Refs, c0: nat, w0: seq<Write>,
                      r1: Refs, c1: nat, w1: seq<Write>)
    requires OnlyRecreated(env, ref, oldHead, r0, c0, w0, r1, c1, w1)
    ensures OnlyRecreated(env, ref, oldHead, r0, c0, w0, Moved(r1, env(c1).rival), c1 + 1, w1)
  {
  }

  lemma RecreatedPush(env: nat -> Step, ref: Ref, oldHead: Sha, r0: Refs, c0: nat, w0: seq<Write>,
                      r1: Refs, c1: nat, r2: Refs, w2: seq<Write>)
    requires OnlyRecreated(env, ref, oldHead, r0, c0, w0, r1, c1, w0)
    requires var found := Moved(r1, env(c1).rival);
             || (r2 == found && w2 == w0)
             || (ref !in found && r2 == found[ref := oldHead] && w2 == w0 + [Created(c1, ref, oldHead, found)])
    ensures OnlyRecreated(env, ref, oldHead, r0, c0, w0, r2, c1 + 1, w2)
  {
  }

  /** The recovery push and the read that follows it. */
  method PushBack(remote: Remote, ref: Ref, oldHead: Sha, ghost r0: Refs, ghost c0: nat, ghost w0: seq<Write>)
    returns (ok: bool, head: Head)
    requires !ref.Other?
    requires OnlyRecreated(remote.env, ref, oldHead, r0, c0, w0, remote.refs, remote.clock, w0) && remote.writes == w0
    modifies remote
    ensures OnlyRecreated(remote.env, ref, oldHead, r0, c0, w0, remote.refs, remote.clock, remote.writes)
    ensures remote.sent == old(remote.sent) + 1 && remote.clock == old(remote.clock) + 2
    ensures head == At(oldHead) ==> Get(remote.refs, ref) == Some(oldHead)
    ensures ref !in old(remote.refs) && QuietOn(remote.env, ref, old(remote.clock)) &&
            CalmFrom(remote.env, old(remote.clock))
            ==> Get(remote.refs, ref) == Some(oldHead)
  {
    ghost var r1, c1 := remote.refs, remote.clock;
    ok := remote.Push(Create(ref, oldHead));
    ghost var r2, w2 := remote.refs, remote.writes;
    RecreatedPush(remote.env, ref, oldHead, r0, c0, w0, r1, c1, r2, w2);
    head := ReadHead(remote, ref);
    RecreatedRead(remote.env, ref, oldHead, r0, c0, w0, r2, c1 + 1, w2);
  }

  /**
  One recovery: nothing but the branch changed, and it is there if the rival leaves it alone and the remote is
  calm.
  */
  ghost predicate Recovered(env: nat -> Step, ref: Ref, oldHead: Sha,
                            r0: Refs, c0: nat, w0: seq<Write>, r1: Refs, c1: nat, w1: seq<Write>)
  {
    && OnlyRecreated(env, ref, oldHead, r0, c0, w0, r1, c1, w1)
    && (QuietOn(env, ref, c0) && CalmFrom(env, c0) ==> Get(r1, ref) == Some(if ref in r0 then r0[ref] else oldHead))
  }

  /**
  `_recover`: unless the branch is there, one push that makes it again at its old head, and a read. The result is
  the error to raise, which says what was seen.
  */
  method Recover(remote: Remote, ref: Ref, oldHead: Sha, backup: Option<Ref>, certain: bool, cause: Error)
    returns (error: Error)
    requires !ref.Other?
    modifies remote
    ensures OnlyRecreated(remote.env, ref, oldHead, old(remote.refs), old(remote.clock), old(remote.writes),
                          remote.refs, remote.clock, remote.writes)
    ensures old(remote.sent) <= remote.sent <= old(remote.sent) + 1 && remote.clock <= old(remote.clock) + 3
    ensures error.RecoveryReport? && error.ref == ref && error.oldHead == oldHead && error.backup == backup
    ensures error.certain == certain && error.cause == cause
    ensures error.restored ==> Get(remote.refs, ref) == Some(oldHead)
    ensures QuietOn(remote.env, ref, old(remote.clock)) && CalmFrom(remote.env, old(remote.clock))
            ==> Get(remote.refs, ref) == Some(if ref in old(remote.refs) then old(remote.refs)[ref] else oldHead)
  {
    ghost var env, r0, c0, w0 := remote.env, remote.refs, remote.clock, remote.writes;
    var head := ReadHead(remote, ref);
    RecreatedRead(env, ref, oldHead, r0, c0, w0, r0, c0, w0);
    var ok := false;
    if !head.At? {
      ok, head := PushBack(remote, ref, oldHead, r0, c0, w0);
    }
    error := RecoveryReport(ref, oldHead, backup, certain, ok && head == At(oldHead), head, cause);
  }

  /** The error is the report of a recovery. */
  predicate Reports(error: Error, ref: Ref, oldHead: Sha, backup: Option<Ref>, certain: bool, cause: Error) {
    && error.RecoveryReport? && error.ref == ref && error.oldHead == oldHead && error.backup == backup
    && error.certain == certain && error.cause == cause
  }

  /**
  The handler of a failed operation. It walks the branches awaiting recreation; `_recover` always raises, so
  the walk ends with the first of them, whichever that is.
  */
  method OnError(remote: Remote, awaiting: map<Ref, Sha>, op: Op, recreated: set<Ref>, attempted: bool,
                 backup: Option<Ref>, cause: Error)
    returns (error: Error, ghost ref: Ref, ghost oldHead: Sha)
    requires !op.ref.Other? && forall r :: r in awaiting ==> !r.Other?
    modifies remote
    ensures awaiting != map[] ==> ref in awaiting && oldHead == awaiting[ref]
    ensures awaiting == map[] ==> ref == op.ref && oldHead == op.sha
    ensures awaiting != map[] ==> Reports(error, ref, oldHead, backup, true, cause)
    ensures remote.writes != old(remote.writes) ==> error.RecoveryReport? && error.cause == cause
    ensures awaiting == map[] ==>
              error == cause || (op.Delete? && attempted && Reports(error, ref, oldHead, backup, false, cause))
    ensures OnlyRecreated(remote.env, ref, oldHead, old(remote.refs), old(remote.clock), old(remote.writes),
                          remote.refs, remote.clock, remote.writes)
    ensures old(remote.sent) <= remote.sent <= old(remote.sent) + 1 && remote.clock <= old(remote.clock) + 4
    ensures awaiting == map[] && !(op.Delete? && op.ref in recreated && attempted) ==>
              remote.writes == old(remote.writes)
    ensures awaiting != map[] || (op.Delete? && op.ref in recreated && attempted) ==>
              Recovered(remote.env, ref, oldHead, old(remote.refs), old(remote.clock), old(remote.writes),
                        remote.refs, remote.clock, remote.writes)
  {
    error, ref, oldHead := cause, op.ref, op.sha;
    var left, raised := awaiting.Keys, false;
    while left != {} && !raised
      invariant !raised ==>
                  left == awaiting.Keys && remote.refs == old(remote.refs) && remote.clock == old(remote.clock)
      invariant !raised ==> remote.writes == old(remote.writes) && remote.sent == old(remote.sent)
      invariant !raised ==> ref == op.ref && oldHead == op.sha
      invariant if raised then Reports(error, ref, oldHead, backup, true, cause) else error == cause
      invariant raised ==> ref in awaiting && oldHead == awaiting[ref] && remote.clock <= old(remote.clock) + 3
      invariant raised ==> Recovered(remote.env, ref, oldHead, old(remote.refs), old(remote.clock), old(remote.writes),
                                     remote.refs, remote.clock, remote.writes)
      invariant old(remote.sent) <= remote.sent <= old(remote.sent) + 1
    {
      var next :| next in left;
      left := left - {next};
      ref, oldHead := next, awaiting[next];
      error := Recover(remote, next, awaiting[next], backup, true, cause);
      raised := true;
    }
    if raised {
      return;
    }
    if op.Delete? && op.ref in recreated && attempted {
      var head := ReadHead(remote, op.ref);
      if !head.At? {
        error := Recover(remote, op.ref, op.sha, backup, false, cause);
      }
    }
  }
}
