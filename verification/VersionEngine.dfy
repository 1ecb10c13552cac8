/** The version engine (scripts/sdlc_version.py:212-346) over a commit graph. */
module VersionEngine {
  import opened Common
  import opened SemVer

  // ---- The repository ---------------------------------------------------------------------------------

  /** What the commit message grammar makes of a message. */
  datatype Message = MalformedMessage | Breaking | Feature | Fix | Other

  datatype Commit = Commit(parents: seq<nat>, message: Message, tree: map<string, string>)

  /** `v` and a digit: strictly stable, strictly a prerelease, or neither; any other tag is `Unrelated`. */
  datatype Tag =
    | Stable(version: Triple) | Prerelease(name: string) | MalformedTag(name: string) | Unrelated(name: string)

  /** The adoption record: what it names, if it is an object of the right form. */
  datatype Adoption = NoObject | Record(base: Option<Triple>, anchor: Option<nat>)

  /** Commits are numbered so that parents come first; `adoption` reads the text of a record. */
  datatype Repo = Repo(commits: seq<Commit>, tags: map<Tag, nat>, adoption: string -> Adoption)

  predicate WellFormed(repo: Repo) {
    && (forall c :: 0 <= c < |repo.commits| ==> forall p :: p in repo.commits[c].parents ==> p < c)
    && (forall tag :: tag in repo.tags ==> repo.tags[tag] < |repo.commits|)
  }

  /** A commit and everything it descends from. */
  function Ancestors(repo: Repo, c: nat): (all: set<nat>)
    requires WellFormed(repo) && c < |repo.commits|
    ensures c in all && forall a :: a in all ==> a <= c
    decreases c
  {
    {c} + set p, a | p in repo.commits[c].parents && a in Ancestors(repo, p) :: a
  }

  /** `rev-list from..to`. */
  function Range(repo: Repo, from: nat, to: nat): set<nat>
    requires WellFormed(repo) && from < |repo.commits| && to < |repo.commits|
  {
    Ancestors(repo, to) - Ancestors(repo, from)
  }

  /** `merge-base --all`: the common ancestors that no other common ancestor descends from. */
  function MergeBases(repo: Repo, m: nat, h: nat): set<nat>
    requires WellFormed(repo) && m < |repo.commits| && h < |repo.commits|
  {
    var common := Ancestors(repo, m) * Ancestors(repo, h);
    set c | c in common && !exists d :: d in common && d != c && c in Ancestors(repo, d)
  }

  /** From the one commit to the other by parents. */
  predicate Descends(repo: Repo, path: seq<nat>) {
    && path != [] && (forall i :: 0 <= i < |path| ==> path[i] < |repo.commits|)
    && forall i :: 0 <= i < |path| - 1 ==> path[i + 1] in repo.commits[path[i]].parents
  }

  /** The ancestors are the commits that a chain of parents leads to. */
  lemma {:induction false} AncestorsAre(repo: Repo, c: nat, a: nat)
    requires WellFormed(repo) && c < |repo.commits|
    ensures a in Ancestors(repo, c) <==> exists path :: Descends(repo, path) && path[0] == c && path[|path| - 1] == a
    decreases c
  {
    if a in Ancestors(repo, c) {
      var path := PathTo(repo, c, a);
    }
    if path :| Descends(repo, path) && path[0] == c && path[|path| - 1] == a {
      PathLeads(repo, path);
    }
  }

  lemma {:induction false} PathTo(repo: Repo, c: nat, a: nat) returns (path: seq<nat>)
    requires WellFormed(repo) && c < |repo.commits| && a in Ancestors(repo, c)
    ensures Descends(repo, path) && path[0] == c && path[|path| - 1] == a
    decreases c
  {
    if a == c {
      path := [c];
    } else {
      var p :| p in repo.commits[c].parents && a in Ancestors(repo, p);
      var rest := PathTo(repo, p, a);
      path := [c] + rest;
    }
  }

  lemma {:induction false} PathLeads(repo: Repo, path: seq<nat>)
    requires WellFormed(repo) && Descends(repo, path)
    ensures path[|path| - 1] in Ancestors(repo, path[0])
    decreases |path|
  {
    if |path| > 1 {
      PathLeads(repo, path[1..]);
      assert path[1] in repo.commits[path[0]].parents;
    }
  }

  lemma {:induction false} AncestorsClosed(repo: Repo, c: nat, a: nat)
    requires WellFormed(repo) && c < |repo.commits| && a in Ancestors(repo, c)
    ensures Ancestors(repo, a) <= Ancestors(repo, c)
    decreases c
  {
    if a != c {
      var p :| p in repo.commits[c].parents && a in Ancestors(repo, p);
      AncestorsClosed(repo, p, a);
    }
  }

  /** Where main is an ancestor of the head, main is the one merge base. */
  lemma MainIsTheMergeBase(repo: Repo, m: nat, h: nat)
    requires WellFormed(repo) && m < |repo.commits| && h < |repo.commits| && m in Ancestors(repo, h)
    ensures MergeBases(repo, m, h) == {m}
  {
  }

  /** Nothing lies between two commits exactly when the later one is an ancestor of the earlier. */
  lemma RangeEmpty(repo: Repo, b: nat, h: nat)
    requires WellFormed(repo) && b < |repo.commits| && h < |repo.commits|
    ensures Range(repo, b, h) == {} <==> h in Ancestors(repo, b)
  {
  }

  lemma RangeGrows(repo: Repo, b: nat, h: nat, k: nat)
    requires WellFormed(repo) && b < |repo.commits| && k < |repo.commits| && h in Ancestors(repo, k)
    ensures Range(repo, b, h) <= Range(repo, b, k)
    ensures h != k && b in Ancestors(repo, h) ==> |Range(repo, b, h)| < |Range(repo, b, k)|
  {
    AncestorsClosed(repo, k, h);
    if h != k && b in Ancestors(repo, h) {
      assert k in Range(repo, b, k) && k !in Range(repo, b, h);
      ProperSubset(Range(repo, b, h), Range(repo, b, k), k);
    }
  }

  lemma ProperSubset(less: set<nat>, more: set<nat>, x: nat)
    requires less <= more && x in more && x !in less
    ensures |less| < |more|
  {
    assert more == less + (more - less) && x in more - less;
  }

  lemma {:induction false} NewestCommon(common: set<nat>) returns (c: nat)
    requires common != {}
    ensures c in common && forall d :: d in common ==> d <= c
  {
    var some :| some in common;
    var rest := common - {some};
    assert forall d :: d in common ==> d == some || d in rest;
    if rest == {} {
      c := some;
    } else {
      var newest := NewestCommon(rest);
      c := if newest > some then newest else some;
    }
  }

  /** There is a merge base whenever there is a common ancestor. */
  lemma SomeMergeBase(repo: Repo, m: nat, h: nat)
    requires WellFormed(repo) && m < |repo.commits| && h < |repo.commits|
    ensures MergeBases(repo, m, h) == {} <==> Ancestors(repo, m) * Ancestors(repo, h) == {}
  {
    var common := Ancestors(repo, m) * Ancestors(repo, h);
    if common != {} {
      var c := NewestCommon(common);
      forall d | d in common && c in Ancestors(repo, d) ensures d == c {
      }
      assert c in MergeBases(repo, m, h);
    }
  }

  // ---- Impact -------------------------------------------------------------------------------------------

  function Impact(message: Message): nat {
    match message
    case Breaking => 3
    case Feature => 2
    case Fix => 1
    case _ => 0
  }

  /** `log --no-merges from..to`. */
  function Log(repo: Repo, from: nat, to: nat): set<nat>
    requires WellFormed(repo) && from < |repo.commits| && to < |repo.commits|
  {
    set c | c in Range(repo, from, to) && |repo.commits[c].parents| < 2
  }

  ghost predicate SomeBreaking(repo: Repo, log: set<nat>)
    requires forall c :: c in log ==> c < |repo.commits|
  {
    exists c :: c in log && repo.commits[c].message.Breaking?
  }

  ghost predicate SomeFeature(repo: Repo, log: set<nat>)
    requires forall c :: c in log ==> c < |repo.commits|
  {
    exists c :: c in log && repo.commits[c].message.Feature?
  }

  ghost predicate SomeFix(repo: Repo, log: set<nat>)
    requires forall c :: c in log ==> c < |repo.commits|
  {
    exists c :: c in log && repo.commits[c].message.Fix?
  }

  /** Three for a breaking change, else two for a feature, else one for a fix. */
  ghost predicate IsHighest(repo: Repo, log: set<nat>, highest: nat)
    requires forall c :: c in log ==> c < |repo.commits|
  {
    highest == if SomeBreaking(repo, log) then 3
               else if SomeFeature(repo, log) then 2
               else if SomeFix(repo, log) then 1 else 0
  }

  /** May every message of the log be there? A hotfix accepts fixes only. */
  ghost predicate LogPermitted(repo: Repo, log: set<nat>, hotfix: bool)
    requires forall c :: c in log ==> c < |repo.commits|
  {
    && (forall c :: c in log ==> !repo.commits[c].message.MalformedMessage?)
    && (hotfix ==> !SomeBreaking(repo, log) && !SomeFeature(repo, log))
  }

  /** The larger of two impacts over a larger log. */
  lemma HighestGrows(repo: Repo, less: set<nat>, more: set<nat>, x: nat, y: nat)
    requires less <= more && forall c :: c in more ==> c < |repo.commits|
    requires IsHighest(repo, less, x) && IsHighest(repo, more, y)
    ensures x <= y
  {
  }
}
