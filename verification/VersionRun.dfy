/** One computation of the version engine (scripts/sdlc_version.py:126-346), step by step. */
module VersionRun {
  import opened Common
  import opened SemVer
  import opened VersionEngine

  datatype VersionError =
    | BadBranch | BadIgnoreTags | GitError | BadBootstrapCut | BadRef | NoMergeBase | MultipleMergeBases | RecutRequired
    | InvalidStableTag | AmbiguousStableTag | BadAdoption | HotfixScope | AdoptionUnratified | BadGaDecision
    | MissingTags | BadBootstrap | BootstrapMismatch | MalformedCommit

  const ADOPTION := "release/ADOPTION.json"
  const GA_DECISION := "release/GA-DECISION"

  /** The recorded cut of a first release: absent, not a full SHA, or a SHA that names a commit or nothing. */
  datatype Cut = NoCut | NotASha | Sha(commit: Option<nat>)

  datatype Bootstrap = Bootstrap(cut: Cut, target: Option<Triple>)

  datatype Ratification = NotGiven | Valid | Invalid

  /** The refs are given as what they resolve to. */
  datatype Request = Request(head: Option<nat>, main: Option<nat>, branch: string, bootstrap: Option<Bootstrap>,
                             first: Ratification, extension: Ratification, dryRun: bool, ignoreTags: set<Tag>,
                             shallow: bool)

  datatype Computed = Computed(base: Option<Triple>, B: nat, H: nat, M: nat, n: nat, target: Triple, candidate: Version,
                               promotable: bool)

  // ---- The cut ----------------------------------------------------------------------------------------

  /** The merge base of main and the head must be main itself. */
  method FindCut(repo: Repo, m: nat, h: nat) returns (cut: Result<nat, VersionError>)
    requires WellFormed(repo) && m < |repo.commits| && h < |repo.commits|
    ensures cut.Ok? <==> m in Ancestors(repo, h)
    ensures cut.Ok? ==> cut.value == m
    ensures cut == Err(NoMergeBase) <==> Ancestors(repo, m) * Ancestors(repo, h) == {}
    ensures cut == Err(RecutRequired) <==> |MergeBases(repo, m, h)| == 1 && m !in Ancestors(repo, h)
    ensures cut.Err? ==> cut.error in {NoMergeBase, MultipleMergeBases, RecutRequired}
    ensures cut == Err(MultipleMergeBases) ==> |MergeBases(repo, m, h)| > 1
  {
    var bases := MergeBases(repo, m, h);
    SomeMergeBase(repo, m, h);
    if m in Ancestors(repo, h) {
      MainIsTheMergeBase(repo, m, h);
    }
    RangeEmpty(repo, h, m);
    if bases == {} {
      return Err(NoMergeBase);
    }
    if |bases| != 1 {
      return Err(MultipleMergeBases);
    }
    var b :| b in bases;
    if Range(repo, h, m) != {} {
      return Err(RecutRequired);
    }
    OneMember(bases, b, m);
    return Ok(b);
  }

  lemma OneMember<T>(s: set<T>, x: T, y: T)
    requires |s| <= 1 && x in s && y in s
    ensures x == y
  {
    assert |s - {x}| == 0;
  }

  // ---- The base ------------------------------------------------------------------------------------------

  /** The stable versions tagged on a commit. */
  function StableAt(repo: Repo, b: nat): set<Triple> {
    set tag | tag in repo.tags && repo.tags[tag] == b && tag.Stable? :: tag.version
  }

  /** The released versions: all stable tags that are not ignored. */
  function Released(repo: Repo, ignore: set<Tag>): set<Triple> {
    set tag | tag in repo.tags && tag.Stable? && tag !in ignore :: tag.version
  }

  predicate IsNewest(versions: set<Triple>, v: Triple) {
    v in versions && forall u :: u in versions ==> !Below(v, u)
  }

  /** The adoption record on the cut is in order and names this base. */
  predicate Adopts(repo: Repo, b: nat, ignore: set<Tag>, base: Triple)
    requires WellFormed(repo) && b < |repo.commits|
  {
    var cut := repo.commits[b];
    && ADOPTION in cut.tree && (forall tag :: tag in repo.tags ==> !tag.MalformedTag?)
    && var record := repo.adoption(cut.tree[ADOPTION]);
       && record.Record? && record.base == Some(base) && IsNewest(Released(repo, ignore), base)
       && Stable(base) in repo.tags && repo.tags[Stable(base)] in Ancestors(repo, b)
       && record.anchor.Some? && record.anchor.value < |repo.commits| && cut.parents == [record.anchor.value]
       && var anchor := repo.commits[record.anchor.value];
          && ADOPTION !in anchor.tree && cut.tree == anchor.tree[ADOPTION := cut.tree[ADOPTION]]
          && Range(repo, repo.tags[Stable(base)], record.anchor.value) != {}
  }

  /**
  What a computation counts from: the one stable tag of the cut, else what the adoption record names, else
  nothing.
  */
  ghost predicate Based(repo: Repo, b: nat, ignore: set<Tag>, base: Option<Triple>)
    requires WellFormed(repo) && b < |repo.commits|
  {
    && (forall tag :: tag in repo.tags && repo.tags[tag] == b ==> !tag.MalformedTag? && !(tag.Stable? && tag in ignore))
    && (if base.None? then StableAt(repo, b) == {} && ADOPTION !in repo.commits[b].tree
        else StableAt(repo, b) == {base.value} || (StableAt(repo, b) == {} && Adopts(repo, b, ignore, base.value)))
  }

  /** A cut has at most one base, whatever tags are ignored. */
  lemma OneBase(repo: Repo, b: nat, ignore: set<Tag>, other: set<Tag>, x: Option<Triple>, y: Option<Triple>)
    requires WellFormed(repo) && b < |repo.commits| && Based(repo, b, ignore, x) && Based(repo, b, other, y)
    ensures x == y
  {
  }

  /** `_adoption_base`. */
  method AdoptionBase(repo: Repo, b: nat, ignore: set<Tag>) returns (base: Result<Option<Triple>, VersionError>)
    requires WellFormed(repo) && b < |repo.commits|
    ensures base == Ok(None) <==> ADOPTION !in repo.commits[b].tree
    ensures forall v :: base == Ok(Some(v)) <==> Adopts(repo, b, ignore, v)
    ensures base == Err(InvalidStableTag) <==>
              ADOPTION in repo.commits[b].tree && exists tag :: tag in repo.tags && tag.MalformedTag?
    ensures base.Err? ==> base.error == InvalidStableTag || base.error == BadAdoption
  {
    var cut := repo.commits[b];
    if ADOPTION !in cut.tree {
      return Ok(None);
    }
    if exists tag :: tag in repo.tags && tag.MalformedTag? {
      return Err(InvalidStableTag);
    }
    var record := repo.adoption(cut.tree[ADOPTION]);
    if record.NoObject? || record.base.None? {
      return Err(BadAdoption);
    }
    var v := record.base.value;
    if !IsNewest(Released(repo, ignore), v) || Stable(v) !in repo.tags || repo.tags[Stable(v)] !in Ancestors(repo, b) {
      return Err(BadAdoption);
    }
    if record.anchor.None? || record.anchor.value >= |repo.commits| {
      return Err(BadAdoption);
    }
    var anchor := repo.commits[record.anchor.value];
    if cut.parents != [record.anchor.value] || ADOPTION in anchor.tree {
      return Err(BadAdoption);
    }
    if Range(repo, repo.tags[Stable(v)], record.anchor.value) == {} {
      return Err(BadAdoption);
    }
    if cut.tree != anchor.tree[ADOPTION := cut.tree[ADOPTION]] {
      return Err(BadAdoption);
    }
    return Ok(Some(v));
  }

  ghost predicate FindErrorMeans(repo: Repo, b: nat, ignore: set<Tag>, e: VersionError)
    requires WellFormed(repo) && b < |repo.commits|
  {
    match e
    case InvalidStableTag => exists tag :: tag in repo.tags && tag.MalformedTag?
    case BadIgnoreTags => exists tag :: tag in ignore && tag in repo.tags && repo.tags[tag] == b
    case AmbiguousStableTag => |StableAt(repo, b)| > 1
    case BadAdoption =>
      && StableAt(repo, b) == {} && ADOPTION in repo.commits[b].tree
      && (forall tag :: tag in repo.tags ==> !tag.MalformedTag?) && forall v :: !Adopts(repo, b, ignore, v)
    case _ => false
  }

  /** The base of a cut, or why there is none. */
  method FindBase(repo: Repo, b: nat, ignore: set<Tag>) returns (base: Result<Option<Triple>, VersionError>)
    requires WellFormed(repo) && b < |repo.commits|
    ensures base.Ok? ==> Based(repo, b, ignore, base.value)
    ensures base.Err? ==> forall v :: !Based(repo, b, ignore, v)
    ensures base.Err? ==> FindErrorMeans(repo, b, ignore, base.error)
  {
    if exists tag :: tag in repo.tags && repo.tags[tag] == b && tag.MalformedTag? {
      return Err(InvalidStableTag);
    }
    if exists tag :: tag in repo.tags && repo.tags[tag] == b && tag.Stable? && tag in ignore {
      return Err(BadIgnoreTags);
    }
    var stable := StableAt(repo, b);
    if |stable| > 1 {
      return Err(AmbiguousStableTag);
    }
    if stable != {} {
      var v :| v in stable;
      assert stable == {v} by {
        forall u | u in stable ensures u == v {
          OneMember(stable, u, v);
        }
      }
      return Ok(Some(v));
    }
    base := AdoptionBase(repo, b, ignore);
  }

  // ---- Impact and target ---------------------------------------------------------------------------------

  /** The loop over the commit messages between `from` and `to`. */
  method HighestImpact(repo: Repo, from: nat, to: nat, hotfix: bool) returns (highest: Result<nat, VersionError>)
    requires WellFormed(repo) && from < |repo.commits| && to < |repo.commits|
    ensures highest.Ok? <==> LogPermitted(repo, Log(repo, from, to), hotfix)
    ensures highest.Ok? ==> IsHighest(repo, Log(repo, from, to), highest.value) && (hotfix ==> highest.value <= 1)
    ensures highest.Err? ==> highest.error == MalformedCommit || highest.error == HotfixScope
    ensures highest == Err(MalformedCommit) ==>
              exists c :: c in Log(repo, from, to) && repo.commits[c].message.MalformedMessage?
    ensures highest == Err(HotfixScope) ==>
              hotfix && (SomeBreaking(repo, Log(repo, from, to)) || SomeFeature(repo, Log(repo, from, to)))
  {
    var log := Log(repo, from, to);
    var most: nat := 0;
    var left := log;
    while left != {}
      invariant left <= log
      invariant LogPermitted(repo, log - left, hotfix) && IsHighest(repo, log - left, most) && (hotfix ==> most <= 1)
    {
      var c :| c in left;
      var impact := Impact(repo.commits[c].message);
      if repo.commits[c].message.MalformedMessage? {
        return Err(MalformedCommit);
      }
      if hotfix && impact > 1 {
        return Err(HotfixScope);
      }
      Raise(repo, log - left, c, most);
      most := if impact > most then impact else most;
      assert log - (left - {c}) == (log - left) + {c};
      left := left - {c};
    }
    assert log - left == log;
    return Ok(most);
  }

  lemma Raise(repo: Repo, done: set<nat>, c: nat, most: nat)
    requires (forall d :: d in done ==> d < |repo.commits|) && c < |repo.commits| && IsHighest(repo, done, most)
    ensures var impact := Impact(repo.commits[c].message);
            IsHighest(repo, done + {c}, if impact > most then impact else most)
  {
  }

  /** The next version after `base`: before 1.0.0 a breaking change raises the minor, and GA ends that time. */
  function Next(base: Triple, highest: nat, ga: bool): Triple {
    if base.major == 0 && ga then Triple(1, 0, 0)
    else if highest == 3 then (if base.major > 0 then Triple(base.major + 1, 0, 0) else Triple(0, base.minor + 1, 0))
    else if highest == 2 && base.major > 0 then Triple(base.major, base.minor + 1, 0)
    else Triple(base.major, base.minor, base.patch + 1)
  }

  /**
  The next version is above its base, and grows with the impact; only a GA decision that is withdrawn before
  version 1 takes it back.
  */
  lemma NextRises(base: Triple, x: nat, y: nat, ga: bool, later: bool)
    requires x <= y <= 3
    ensures Below(base, Next(base, x, ga))
    ensures !Below(Next(base, y, later), Next(base, x, ga)) <==> !(base.major == 0 && ga && !later)
  {
  }

  // ---- The whole computation -------------------------------------------------------------------------------

  predicate IsHotfix(req: Request) {
    req.branch == "hotfix/new"
  }

  /** The GA decision of the head, which only release/new reads. */
  predicate GaApproved(repo: Repo, req: Request, h: nat)
    requires h < |repo.commits|
  {
    !IsHotfix(req) && GA_DECISION in repo.commits[h].tree && repo.commits[h].tree[GA_DECISION] == "approved"
  }

  /** Where the impact is read from: the cut, or the base's tag on the adoption route. */
  function StartOf(repo: Repo, b: nat, base: Option<Triple>): nat
    requires WellFormed(repo) && b < |repo.commits|
    requires base.Some? && StableAt(repo, b) == {} ==> Stable(base.value) in repo.tags
  {
    if base.Some? && StableAt(repo, b) == {} then repo.tags[Stable(base.value)] else b
  }

  predicate GaReadable(repo: Repo, req: Request, h: nat)
    requires h < |repo.commits|
  {
    !IsHotfix(req) && GA_DECISION in repo.commits[h].tree ==> repo.commits[h].tree[GA_DECISION] == "approved"
  }

  /** On the adoption route both ratifications must be in order, unless it is only tried out. */
  predicate RatifiedEnough(req: Request) {
    req.first != Invalid && req.extension != Invalid && (req.dryRun || (req.first == Valid && req.extension == Valid))
  }

  /** A first release is the recorded one. */
  predicate Bootstraps(repo: Repo, req: Request, b: nat, ga: bool) {
    && Released(repo, req.ignoreTags) == {} && req.bootstrap.Some? && req.bootstrap.value.target.Some?
    && req.bootstrap.value.cut == Sha(Some(b))
    && (req.bootstrap.value.target.value == Triple(0, 1, 0) ||
        (req.bootstrap.value.target.value == Triple(1, 0, 0) && ga))
  }

  predicate RequestOk(repo: Repo, req: Request) {
    && (req.branch == "release/new" || req.branch == "hotfix/new")
    && (forall tag :: tag in req.ignoreTags ==> tag.Stable?) && !req.shallow
    && !(req.bootstrap.Some? && req.bootstrap.value.cut.NotASha?)
    && req.head.Some? && req.head.value < |repo.commits| && req.main.Some? && req.main.value < |repo.commits|
  }

  /** When the computation succeeds, given the base of the cut. */
  ghost predicate Computable(repo: Repo, req: Request, base: Option<Triple>)
    requires WellFormed(repo)
  {
    && RequestOk(repo, req)
    && var b, h := req.main.value, req.head.value;
       && b in Ancestors(repo, h) && Based(repo, b, req.ignoreTags, base)
       && (IsHotfix(req) ==> StableAt(repo, b) != {} && IsNewest(Released(repo, req.ignoreTags), base.value))
       && (base.Some? && StableAt(repo, b) == {} ==> RatifiedEnough(req))
       && GaReadable(repo, req, h)
       && (base.None? ==> Bootstraps(repo, req, b, GaApproved(repo, req, h)))
       && LogPermitted(repo, Log(repo, StartOf(repo, b, base), h), IsHotfix(req))
  }

  /** The target follows from the base, the highest impact in the log, and the GA decision. */
  ghost predicate TargetFrom(repo: Repo, base: Triple, log: set<nat>, ga: bool, target: Triple)
    requires forall c :: c in log ==> c < |repo.commits|
  {
    exists highest :: IsHighest(repo, log, highest) && target == Next(base, highest, ga)
  }

  /** What a success says. */
  ghost predicate Answers(repo: Repo, req: Request, v: Computed)
    requires WellFormed(repo)
  {
    && Computable(repo, req, v.base)
    && v.H == req.head.value && v.M == req.main.value && v.B == v.M && v.n == |Range(repo, v.B, v.H)|
    && (if v.base.None? then v.target == req.bootstrap.value.target.value
        else TargetFrom(repo, v.base.value, Log(repo, StartOf(repo, v.B, v.base), v.H), GaApproved(repo, req, v.H),
                        v.target))
    && v.candidate == Candidate(v.target, IsHotfix(req), v.n)
    && (v.promotable <==>
          v.n > 0 && ADOPTION !in repo.commits[v.H].tree
          && (v.base.Some? && StableAt(repo, v.B) == {} ==> req.first == Valid && req.extension == Valid))
  }

  /** What an error about the request says. */
  ghost predicate RequestErrorMeans(repo: Repo, req: Request, e: VersionError) {
    match e
    case BadBranch => req.branch != "release/new" && req.branch != "hotfix/new"
    case BadIgnoreTags => exists tag :: tag in req.ignoreTags && !tag.Stable?
    case GitError => req.shallow
    case BadBootstrapCut => req.bootstrap.Some? && req.bootstrap.value.cut.NotASha?
    case BadRef => req.head.None? || req.head.value >= |repo.commits| || req.main.None? ||
      req.main.value >= |repo.commits|
    case _ => false
  }

  /** A hotfix whose cut does not carry the newest released version as its one stable tag. */
  ghost predicate NoHotfixBase(repo: Repo, req: Request, b: nat) {
    IsHotfix(req) && forall v :: StableAt(repo, b) == {v} ==> !IsNewest(Released(repo, req.ignoreTags), v)
  }

  /** A valid adoption record is in effect and lacks a ratification. */
  ghost predicate Unratified(repo: Repo, req: Request, b: nat)
    requires WellFormed(repo) && b < |repo.commits|
  {
    StableAt(repo, b) == {} && (exists v :: Adopts(repo, b, req.ignoreTags, v)) && !RatifiedEnough(req)
  }

  /** What any other error says, of a request whose refs resolve. */
  ghost predicate ErrorMeans(repo: Repo, req: Request, b: nat, h: nat, e: VersionError)
    requires WellFormed(repo) && b < |repo.commits| && h < |repo.commits|
  {
    match e
    case NoMergeBase => Ancestors(repo, b) * Ancestors(repo, h) == {}
    case MultipleMergeBases => |MergeBases(repo, b, h)| > 1
    case RecutRequired => b !in Ancestors(repo, h)
    case HotfixScope => NoHotfixBase(repo, req, b) ||
      (IsHotfix(req) && exists c :: c in Ancestors(repo, h)
                                    && (repo.commits[c].message.Breaking? || repo.commits[c].message.Feature?))
    case AdoptionUnratified => Unratified(repo, req, b)
    case BadGaDecision => !GaReadable(repo, req, h)
    case MissingTags => StableAt(repo, b) == {} && Released(repo, req.ignoreTags) != {}
    case BadBootstrap => StableAt(repo, b) == {} && !Bootstraps(repo, req, b, GaApproved(repo, req, h))
    case BootstrapMismatch => StableAt(repo, b) == {} && req.bootstrap.Some? && req.bootstrap.value.cut != Sha(Some(b))
    case MalformedCommit => exists c :: c in Ancestors(repo, h) && repo.commits[c].message.MalformedMessage?
    case _ => FindErrorMeans(repo, b, req.ignoreTags, e)
  }

  /** The checks on the request and the refs, up to the cut. */
  method CheckRequest(repo: Repo, req: Request) returns (problem: Option<VersionError>)
    ensures problem.None? <==> RequestOk(repo, req)
    ensures problem.Some? ==> RequestErrorMeans(repo, req, problem.value)
  {
    if req.branch != "release/new" && req.branch != "hotfix/new" {
      return Some(BadBranch);
    }
    if exists tag :: tag in req.ignoreTags && !tag.Stable? {
      return Some(BadIgnoreTags);
    }
    if req.shallow {
      return Some(GitError);
    }
    if req.bootstrap.Some? && req.bootstrap.value.cut.NotASha? {
      return Some(BadBootstrapCut);
    }
    if req.head.None? || req.head.value >= |repo.commits| || req.main.None? || req.main.value >= |repo.commits| {
      return Some(BadRef);
    }
    return None;
  }

  /** What may be asked of a base that has been found. */
  ghost predicate BaseFits(repo: Repo, req: Request, b: nat, base: Option<Triple>)
    requires WellFormed(repo) && b < |repo.commits|
  {
    && (IsHotfix(req) ==> StableAt(repo, b) != {} && base.Some? && IsNewest(Released(repo, req.ignoreTags), base.value))
    && (base.Some? && StableAt(repo, b) == {} ==> RatifiedEnough(req))
  }

  ghost predicate BaseErrorMeans(repo: Repo, req: Request, b: nat, e: VersionError)
    requires WellFormed(repo) && b < |repo.commits|
  {
    match e
    case HotfixScope => NoHotfixBase(repo, req, b)
    case AdoptionUnratified => Unratified(repo, req, b)
    case _ => FindErrorMeans(repo, b, req.ignoreTags, e)
  }

  method CheckBase(repo: Repo, req: Request, b: nat) returns (base: Result<Option<Triple>, VersionError>)
    requires WellFormed(repo) && b < |repo.commits|
    ensures base.Ok? ==> Based(repo, b, req.ignoreTags, base.value) && BaseFits(repo, req, b, base.value)
    ensures base.Err? ==> forall v :: Based(repo, b, req.ignoreTags, v) ==> !BaseFits(repo, req, b, v)
    ensures base.Err? ==> BaseErrorMeans(repo, req, b, base.error)
  {
    base := FindBase(repo, b, req.ignoreTags);
    if base.Err? {
      return;
    }
    ghost var found := base.value;
    forall v | Based(repo, b, req.ignoreTags, v) ensures v == found {
      OneBase(repo, b, req.ignoreTags, req.ignoreTags, found, v);
    }
    var stable := StableAt(repo, b);
    if IsHotfix(req) && (stable == {} || !IsNewest(Released(repo, req.ignoreTags), base.value.value)) {
      return Err(HotfixScope);
    }
    if base.value.Some? && stable == {} {
      if req.first == Invalid || req.extension == Invalid {
        return Err(AdoptionUnratified);
      }
      if (req.first == NotGiven || req.extension == NotGiven) && !req.dryRun {
        return Err(AdoptionUnratified);
      }
    }
  }

  /** The GA decision, and the bootstrap record where there is no base. */
  method CheckHead(repo: Repo, req: Request, b: nat, h: nat, base: Option<Triple>)
    returns (ga: Result<bool, VersionError>)
    requires b < |repo.commits| && h < |repo.commits|
    ensures ga.Ok? <==> GaReadable(repo, req, h) && (base.None? ==> Bootstraps(repo, req, b, GaApproved(repo, req, h)))
    ensures ga.Ok? ==> ga.value == GaApproved(repo, req, h)
    ensures ga.Err? ==>
              || (ga.error == BadGaDecision && !GaReadable(repo, req, h))
              || (base.None? && ga.error == MissingTags && Released(repo, req.ignoreTags) != {})
              || (base.None? && ga.error == BadBootstrap && !Bootstraps(repo, req, b, GaApproved(repo, req, h)))
              || (base.None? && ga.error == BootstrapMismatch && req.bootstrap.Some? &&
                  req.bootstrap.value.cut != Sha(Some(b)))
  {
    var approved := false;
    if req.branch != "hotfix/new" && GA_DECISION in repo.commits[h].tree {
      if repo.commits[h].tree[GA_DECISION] != "approved" {
        return Err(BadGaDecision);
      }
      approved := true;
    }
    if base.None? {
      if Released(repo, req.ignoreTags) != {} {
        return Err(MissingTags);
      }
      if req.bootstrap.None? || req.bootstrap.value.cut.NoCut? || req.bootstrap.value.target.None? {
        return Err(BadBootstrap);
      }
      var target := req.bootstrap.value.target.value;
      if target != Triple(0, 1, 0) && target != Triple(1, 0, 0) {
        return Err(BadBootstrap);
      }
      if target == Triple(1, 0, 0) && !approved {
        return Err(BadBootstrap);
      }
      if req.bootstrap.value.cut != Sha(Some(b)) {
        return Err(BootstrapMismatch);
      }
    }
    return Ok(approved);
  }

  lemma ComputableParts(repo: Repo, req: Request, base: Option<Triple>)
    requires WellFormed(repo) && Computable(repo, req, base)
    ensures var b, h := req.main.value, req.head.value;
            && Based(repo, b, req.ignoreTags, base) && BaseFits(repo, req, b, base) && GaReadable(repo, req, h)
            && (base.None? ==> Bootstraps(repo, req, b, GaApproved(repo, req, h)))
  {
  }

  /** `compute_version`: an answer as promised, or an error when there is none. */
  method ComputeVersion(repo: Repo, req: Request) returns (outcome: Result<Computed, VersionError>)
    requires WellFormed(repo)
    ensures outcome.Ok? ==> Answers(repo, req, outcome.value)
    ensures outcome.Err? ==> forall base :: !Computable(repo, req, base)
    ensures outcome.Err? ==>
              if RequestOk(repo, req) then ErrorMeans(repo, req, req.main.value, req.head.value, outcome.error)
              else RequestErrorMeans(repo, req, outcome.error)
  {
    var problem := CheckRequest(repo, req);
    if problem.Some? {
      return Err(problem.value);
    }
    var h, m := req.head.value, req.main.value;
    var cut := FindCut(repo, m, h);
    if cut.Err? {
      return Err(cut.error);
    }
    var base := CheckBase(repo, req, cut.value);
    if base.Err? {
      forall v ensures !Computable(repo, req, v) {
        if Computable(repo, req, v) {
          ComputableParts(repo, req, v);
        }
      }
      return Err(base.error);
    }
    outcome := Derive(repo, req, base.value);
  }

  /** From the base on: the GA decision, the count, the impact and the target. */
  method Derive(repo: Repo, req: Request, base: Option<Triple>) returns (outcome: Result<Computed, VersionError>)
    requires WellFormed(repo) && RequestOk(repo, req) && req.main.value in Ancestors(repo, req.head.value)
    requires Based(repo, req.main.value, req.ignoreTags, base) && BaseFits(repo, req, req.main.value, base)
    ensures outcome.Ok? ==> Answers(repo, req, outcome.value)
    ensures outcome.Err? ==> forall v :: !Computable(repo, req, v)
    ensures outcome.Err? ==> ErrorMeans(repo, req, req.main.value, req.head.value, outcome.error)
  {
    var h, b := req.head.value, req.main.value;
    forall v | Computable(repo, req, v) ensures v == base {
      ComputableParts(repo, req, v);
      OneBase(repo, b, req.ignoreTags, req.ignoreTags, base, v);
    }
    var ga := CheckHead(repo, req, b, h, base);
    if ga.Err? {
      return Err(ga.error);
    }
    var highest := HighestImpact(repo, StartOf(repo, b, base), h, IsHotfix(req));
    if highest.Err? {
      return Err(highest.error);
    }
    assert Computable(repo, req, base);
    var answer := Conclude(repo, req, base, ga.value, highest.value);
    return Ok(answer);
  }

  /** The result, when every check has passed. */
  method Conclude(repo: Repo, req: Request, base: Option<Triple>, ga: bool, highest: nat) returns (v: Computed)
    requires WellFormed(repo) && Computable(repo, req, base) && ga == GaApproved(repo, req, req.head.value)
    requires IsHighest(repo, Log(repo, StartOf(repo, req.main.value, base), req.head.value), highest)
    ensures Answers(repo, req, v)
  {
    var h, b := req.head.value, req.main.value;
    var count := |Range(repo, b, h)|;
    var target := if base.None? then req.bootstrap.value.target.value else Next(base.value, highest, ga);
    assert base.Some? ==> TargetFrom(repo, base.value, Log(repo, StartOf(repo, b, base), h), ga, target);
    var retired := ADOPTION !in repo.commits[h].tree;
    var adoption := base.Some? && StableAt(repo, b) == {};
    var ratified := req.first == Valid && req.extension == Valid;
    return Computed(base, b, h, b, count, target, Candidate(target, IsHotfix(req), count),
                    count > 0 && retired && (!adoption || ratified));
  }

  // ---- What the answers promise --------------------------------------------------------------------------------

  lemma ImpactsAreSmall(repo: Repo, log: set<nat>, highest: nat)
    requires (forall c :: c in log ==> c < |repo.commits|) && IsHighest(repo, log, highest)
    ensures highest <= 3
  {
  }

  /**
  A successful computation counts from main itself, counts nothing exactly when the head is the cut, and its
  candidate lies between the base and the release of the target.
  */
  lemma AnswersLieAboveTheBase(repo: Repo, req: Request, v: Computed)
    requires WellFormed(repo) && Answers(repo, req, v)
    ensures v.B == v.M && MergeBases(repo, v.M, v.H) == {v.B} && (v.n == 0 <==> v.H == v.B)
    ensures v.base.Some? ==> Below(v.base.value, v.target) && Precedes(Release(v.base.value), v.candidate)
    ensures Precedes(v.candidate, Release(v.target))
  {
    MainIsTheMergeBase(repo, v.M, v.H);
    RangeEmpty(repo, v.B, v.H);
    if v.base.Some? {
      TargetRises(repo, v.base.value, Log(repo, StartOf(repo, v.B, v.base), v.H), GaApproved(repo, req, v.H), v.target);
    }
  }

  /** A stable tag on the commit. */
  predicate TaggedAt(repo: Repo, c: nat, v: Triple) {
    Stable(v) in repo.tags && repo.tags[Stable(v)] == c
  }

  /** The version is tagged and not ignored, and no other such tag is above it. */
  ghost predicate NewestTag(repo: Repo, ignore: set<Tag>, v: Triple) {
    && Stable(v) in repo.tags && Stable(v) !in ignore
    && forall u :: Stable(u) in repo.tags && Stable(u) !in ignore ==> u == v || Below(u, v)
  }

  /**
  What a version is counted from: the only stable tag of the cut; without one, what the adoption record of the
  cut names, which is the newest tag; without that, nothing, and no stable tag is there at all. A hotfix is
  counted from the tag of the cut, and that is the newest.
  */
  lemma BaseMeans(repo: Repo, req: Request, v: Computed)
    requires WellFormed(repo) && Answers(repo, req, v)
    ensures v.B < |repo.commits|
    ensures v.base.Some? ==>
              || (TaggedAt(repo, v.B, v.base.value) && forall u :: TaggedAt(repo, v.B, u) ==> u == v.base.value)
              || (&& (forall u :: !TaggedAt(repo, v.B, u)) && NewestTag(repo, req.ignoreTags, v.base.value)
                  && "release/ADOPTION.json" in repo.commits[v.B].tree
                  && var record := repo.adoption(repo.commits[v.B].tree["release/ADOPTION.json"]);
                     record.Record? && record.base == v.base)
    ensures v.base.None? ==>
              && "release/ADOPTION.json" !in repo.commits[v.B].tree
              && forall u :: Stable(u) in repo.tags ==> Stable(u) in req.ignoreTags
    ensures req.branch == "hotfix/new" ==>
              v.base.Some? && TaggedAt(repo, v.B, v.base.value) && NewestTag(repo, req.ignoreTags, v.base.value)
  {
    var here := StableAt(repo, v.B);
    forall u ensures u in here <==> TaggedAt(repo, v.B, u) {
      TagsAt(repo, v.B, u);
    }
    forall u ensures u in Released(repo, req.ignoreTags) <==> Stable(u) in repo.tags && Stable(u) !in req.ignoreTags {
      assert Stable(u).version == u;
    }
    forall u, w ensures !Below(u, w) ==> u == w || Below(w, u) {
      NotBelowIsAbove(w, u);
    }
  }

  lemma TagsAt(repo: Repo, c: nat, u: Triple)
    ensures u in StableAt(repo, c) <==> TaggedAt(repo, c, u)
  {
    if u in StableAt(repo, c) {
      var tag :| tag in repo.tags && repo.tags[tag] == c && tag.Stable? && tag.version == u;
      assert tag == Stable(u);
    }
    if TaggedAt(repo, c, u) {
      assert Stable(u).version == u;
    }
  }

  /** A commit whose message decides the target: not a merge, behind the head, and not behind the start of the count. */
  ghost predicate Decides(repo: Repo, v: Computed, c: nat)
    requires WellFormed(repo) && v.H < |repo.commits| && v.B < |repo.commits| && v.base.Some?
    requires StableAt(repo, v.B) == {} ==> Stable(v.base.value) in repo.tags
  {
    && c < |repo.commits| && |repo.commits[c].parents| <= 1 && c in Ancestors(repo, v.H)
    && c !in Ancestors(repo, if StableAt(repo, v.B) == {} then repo.tags[Stable(v.base.value)] else v.B)
  }

  ghost predicate DecidesBreaking(repo: Repo, v: Computed)
    requires WellFormed(repo) && v.H < |repo.commits| && v.B < |repo.commits| && v.base.Some?
    requires StableAt(repo, v.B) == {} ==> Stable(v.base.value) in repo.tags
  {
    exists c: nat :: Decides(repo, v, c) && repo.commits[c].message.Breaking?
  }

  ghost predicate DecidesFeature(repo: Repo, v: Computed)
    requires WellFormed(repo) && v.H < |repo.commits| && v.B < |repo.commits| && v.base.Some?
    requires StableAt(repo, v.B) == {} ==> Stable(v.base.value) in repo.tags
  {
    exists c: nat :: Decides(repo, v, c) && repo.commits[c].message.Feature?
  }

  /**
  Which version follows the base. From version 1 on: the next major if a deciding commit is breaking, else the
  next minor if one is a feature, else the next patch. Before: 1.0.0 with an approved GA decision on release/new,
  else the next minor if one is breaking, else the next patch. The candidate is its numbered prerelease.
  */
  lemma TargetMeans(repo: Repo, req: Request, v: Computed)
    requires WellFormed(repo) && Answers(repo, req, v) && v.base.Some?
    ensures v.H < |repo.commits| && v.B < |repo.commits| &&
            (StableAt(repo, v.B) == {} ==> Stable(v.base.value) in repo.tags)
    ensures var b, tree := v.base.value, repo.commits[v.H].tree;
            var ga := req.branch != "hotfix/new" && "release/GA-DECISION" in tree &&
              tree["release/GA-DECISION"] == "approved";
            && (b.major > 0 ==>
                  v.target == if DecidesBreaking(repo, v) then Triple(b.major + 1, 0, 0)
                              else if DecidesFeature(repo, v) then Triple(b.major, b.minor + 1, 0)
                              else Triple(b.major, b.minor, b.patch + 1))
            && (b.major == 0 && ga ==> v.target == Triple(1, 0, 0))
            && (b.major == 0 && !ga ==>
                  v.target == if DecidesBreaking(repo, v) then Triple(0, b.minor + 1, 0)
                              else Triple(0, b.minor, b.patch + 1))
    ensures v.candidate.core == v.target
    ensures v.candidate.prerelease == (if req.branch == "hotfix/new" then [Alphanumeric("hotfix")] else [])
                                      + [Alphanumeric("rc"), Numeric(v.n)]
  {
    var start := AnswerIsDerived(repo, req, v);
    var log := Log(repo, start, v.H);
    LogDecides(repo, v, start);
    var highest :| IsHighest(repo, log, highest)
      && v.target == Next(v.base.value, highest, GaApproved(repo, req, v.H));
  }

  lemma LogDecides(repo: Repo, v: Computed, start: nat)
    requires WellFormed(repo) && v.H < |repo.commits| && v.B < |repo.commits| && v.base.Some?
    requires StableAt(repo, v.B) == {} ==> Stable(v.base.value) in repo.tags
    requires start < |repo.commits|
    requires start == if StableAt(repo, v.B) == {} then repo.tags[Stable(v.base.value)] else v.B
    ensures SomeBreaking(repo, Log(repo, start, v.H)) <==> DecidesBreaking(repo, v)
    ensures SomeFeature(repo, Log(repo, start, v.H)) <==> DecidesFeature(repo, v)
  {
    forall c: nat ensures c in Log(repo, start, v.H) <==> Decides(repo, v, c) {
    }
  }

  lemma TargetRises(repo: Repo, base: Triple, log: set<nat>, ga: bool, target: Triple)
    requires (forall c :: c in log ==> c < |repo.commits|) && TargetFrom(repo, base, log, ga, target)
    ensures Below(base, target)
  {
    var highest :| IsHighest(repo, log, highest) && target == Next(base, highest, ga);
    ImpactsAreSmall(repo, log, highest);
    NextRises(base, highest, highest, ga, ga);
  }

  /** A larger log gives no lower target, except where a GA decision has been withdrawn before version 1. */
  lemma TargetsGrow(repo: Repo, base: Triple, less: set<nat>, more: set<nat>, ga: bool, later: bool, t: Triple,
                    u: Triple)
    requires less <= more && (forall c :: c in more ==> c < |repo.commits|)
    requires TargetFrom(repo, base, less, ga, t) && TargetFrom(repo, base, more, later, u)
    ensures !Below(u, t) <==> !(base.major == 0 && ga && !later)
  {
    var x :| IsHighest(repo, less, x) && t == Next(base, x, ga);
    var y :| IsHighest(repo, more, y) && u == Next(base, y, later);
    HighestGrows(repo, less, more, x, y);
    ImpactsAreSmall(repo, more, y);
    NextRises(base, x, y, ga, later);
  }

  /** Two requests that differ only in the head, in what is ratified and in the tags ignored. */
  predicate SameCut(r: Request, s: Request) {
    r.main == s.main && r.branch == s.branch && r.bootstrap == s.bootstrap
  }

  /** Before version 1 a GA decision approved at the earlier head is gone at the later one. */
  predicate Withdrawn(repo: Repo, r: Request, v: Computed, s: Request, w: Computed)
    requires v.H < |repo.commits| && w.H < |repo.commits|
  {
    v.base.Some? && v.base.value.major == 0 && GaApproved(repo, r, v.H) && !GaApproved(repo, s, w.H)
  }

  lemma HeadsGrow(repo: Repo, base: Triple, start: nat, h: nat, k: nat, ga: bool, later: bool, t: Triple, u: Triple)
    requires WellFormed(repo) && start < |repo.commits| && k < |repo.commits| && h in Ancestors(repo, k)
    requires TargetFrom(repo, base, Log(repo, start, h), ga, t) && TargetFrom(repo, base, Log(repo, start, k), later, u)
    ensures !Below(u, t) <==> !(base.major == 0 && ga && !later)
  {
    RangeGrows(repo, start, h, k);
    TargetsGrow(repo, base, Log(repo, start, h), Log(repo, start, k), ga, later, t, u);
  }

  lemma SameBase(repo: Repo, r: Request, v: Computed, s: Request, w: Computed)
    requires WellFormed(repo) && Answers(repo, r, v) && Answers(repo, s, w) && SameCut(r, s)
    ensures v.base == w.base && v.B == w.B && (v.base.None? ==> v.target == w.target)
  {
    OneBase(repo, v.B, r.ignoreTags, s.ignoreTags, v.base, w.base);
  }

  /** The part of an answer that concerns the target of a version with a base. */
  ghost predicate Derived(repo: Repo, req: Request, v: Computed, start: nat)
    requires WellFormed(repo)
  {
    && v.H < |repo.commits| && start < |repo.commits| && v.base.Some?
    && TargetFrom(repo, v.base.value, Log(repo, start, v.H), GaApproved(repo, req, v.H), v.target)
  }

  lemma AnswerIsDerived(repo: Repo, req: Request, v: Computed) returns (start: nat)
    requires WellFormed(repo) && Answers(repo, req, v) && v.base.Some?
    ensures Derived(repo, req, v, start) && v.B < |repo.commits|
    ensures Stable(v.base.value) in repo.tags || StableAt(repo, v.B) != {}
    ensures start == if StableAt(repo, v.B) == {} then repo.tags[Stable(v.base.value)] else v.B
  {
    start := StartOf(repo, v.B, v.base);
  }

  lemma DerivedNeverFalls(repo: Repo, r: Request, v: Computed, s: Request, w: Computed, start: nat)
    requires WellFormed(repo) && Derived(repo, r, v, start) && Derived(repo, s, w, start)
    requires v.base == w.base && v.H in Ancestors(repo, w.H)
    ensures !Below(w.target, v.target) <==> !Withdrawn(repo, r, v, s, w)
  {
    HeadsGrow(repo, v.base.value, start, v.H, w.H, GaApproved(repo, r, v.H), GaApproved(repo, s, w.H), v.target,
              w.target);
  }

  lemma TargetNeverFalls(repo: Repo, r: Request, v: Computed, s: Request, w: Computed)
    requires WellFormed(repo) && Answers(repo, r, v) && Answers(repo, s, w) && SameCut(r, s) &&
             v.H in Ancestors(repo, w.H)
    ensures !Below(w.target, v.target) <==> !Withdrawn(repo, r, v, s, w)
  {
    SameBase(repo, r, v, s, w);
    if v.base.Some? {
      var start := AnswerIsDerived(repo, r, v);
      var again := AnswerIsDerived(repo, s, w);
      DerivedNeverFalls(repo, r, v, s, w, start);
    }
  }

  lemma NotBelowIsAbove(a: Triple, b: Triple)
    ensures !Below(b, a) <==> a == b || Below(a, b)
  {
  }

  /**
  Along descendants of one cut the count strictly rises. The target never falls, and so every candidate
  precedes the next, if and only if no GA decision has been withdrawn before version 1.
  */
  lemma CandidatesRise(repo: Repo, r: Request, v: Computed, s: Request, w: Computed)
    requires WellFormed(repo) && Answers(repo, r, v) && Answers(repo, s, w) && SameCut(r, s)
    requires v.H in Ancestors(repo, w.H) && v.H != w.H
    ensures v.n < w.n
    ensures !Below(w.target, v.target) <==> !Withdrawn(repo, r, v, s, w)
    ensures Precedes(v.candidate, w.candidate) <==> !Withdrawn(repo, r, v, s, w)
  {
    TargetNeverFalls(repo, r, v, s, w);
    SameBase(repo, r, v, s, w);
    RangeGrows(repo, v.B, v.H, w.H);
    NotBelowIsAbove(v.target, w.target);
    CandidatesOrder(v.target, v.n, w.target, w.n, IsHotfix(r));
  }

  // ---- A withdrawn GA decision ---------------------------------------------------------------------------------

  /** v0.1.0 on the first commit; a GA decision on the second, a fix each, which the third withdraws. */
  function WithdrawnRepo(): Repo {
    Repo([Commit([], Other, map[]), Commit([0], Fix, map[GA_DECISION := "approved"]), Commit([1], Fix, map[])],
         map[Stable(Triple(0, 1, 0)) := 0], text => NoObject)
  }

  function RequestAt(head: nat): Request {
    Request(Some(head), Some(0), "release/new", None, NotGiven, NotGiven, false, {}, false)
  }

  lemma WithdrawnCommits()
    ensures var repo := WithdrawnRepo();
            && WellFormed(repo) && |repo.commits| == 3
            && Ancestors(repo, 0) == {0} && Ancestors(repo, 1) == {0, 1} && Ancestors(repo, 2) == {0, 1, 2}
            && |repo.commits[1].parents| == |repo.commits[2].parents| == 1
  {
    var repo := WithdrawnRepo();
    assert repo.commits[0].parents == [] && repo.commits[1].parents == [0] && repo.commits[2].parents == [1];
    assert Ancestors(repo, 0) == {0};
    assert 0 in repo.commits[1].parents && 1 in repo.commits[2].parents;
    assert Ancestors(repo, 1) == {0, 1};
    assert Ancestors(repo, 2) == {0, 1, 2};
  }

  lemma WithdrawnBase(head: nat)
    requires 0 < head < 3
    ensures WellFormed(WithdrawnRepo()) && Computable(WithdrawnRepo(), RequestAt(head), Some(Triple(0, 1, 0)))
    ensures StableAt(WithdrawnRepo(), 0) == {Triple(0, 1, 0)}
  {
    var repo := WithdrawnRepo();
    WithdrawnCommits();
    assert Stable(Triple(0, 1, 0)) in repo.tags;
    assert StableAt(repo, 0) == {Triple(0, 1, 0)};
  }

  /** The commits after the tag. */
  function Fixes(head: nat): set<nat> {
    if head == 1 then {1} else {1, 2}
  }

  lemma FixesCount()
    ensures |Fixes(1)| == 1 && |Fixes(2)| == 2
  {
  }

  lemma RangeIs(repo: Repo, from: nat, to: nat, log: set<nat>)
    requires WellFormed(repo) && from < |repo.commits| && to < |repo.commits|
    requires log == Ancestors(repo, to) - Ancestors(repo, from) && forall c :: c in log ==>
               |repo.commits[c].parents| == 1
    ensures Range(repo, from, to) == log && Log(repo, from, to) == log
  {
  }

  lemma WithdrawnLog(head: nat)
    requires head == 1 || head == 2
    ensures var repo := WithdrawnRepo();
            WellFormed(repo) && Range(repo, 0, head) == Fixes(head) && Log(repo, 0, head) == Fixes(head) &&
              |Fixes(head)| == head
  {
    FixesCount();
    if head == 1 {
      OneFix();
    } else {
      TwoFixes();
    }
  }

  lemma OneFix()
    ensures WellFormed(WithdrawnRepo()) && Range(WithdrawnRepo(), 0, 1) == {1} && Log(WithdrawnRepo(), 0, 1) == {1}
  {
    WithdrawnCommits();
    RangeIs(WithdrawnRepo(), 0, 1, {1});
  }

  lemma TwoFixes()
    ensures WellFormed(WithdrawnRepo()) && Range(WithdrawnRepo(), 0, 2) == {1, 2} &&
            Log(WithdrawnRepo(), 0, 2) == {1, 2}
  {
    WithdrawnCommits();
    RangeIs(WithdrawnRepo(), 0, 2, {1, 2});
  }

  lemma WithdrawnTarget(head: nat, target: Triple)
    requires head == 1 || head == 2
    requires TargetFrom(WithdrawnRepo(), Triple(0, 1, 0), Fixes(head), head == 1, target)
    ensures target == if head == 1 then Triple(1, 0, 0) else Triple(0, 1, 1)
  {
    var log, repo := Fixes(head), WithdrawnRepo();
    var highest :| IsHighest(repo, log, highest) && target == Next(Triple(0, 1, 0), highest, head == 1);
    assert repo.commits[1].message == repo.commits[2].message == Fix && 1 in log;
  }

  lemma WithdrawnAnswer(head: nat, v: Computed)
    requires head == 1 || head == 2
    requires WellFormed(WithdrawnRepo()) && Answers(WithdrawnRepo(), RequestAt(head), v)
    ensures v.candidate == Candidate(if head == 1 then Triple(1, 0, 0) else Triple(0, 1, 1), false, head)
  {
    var repo := WithdrawnRepo();
    WithdrawnBase(head);
    OneBase(repo, 0, {}, {}, v.base, Some(Triple(0, 1, 0)));
    WithdrawnLog(head);
    assert GaApproved(repo, RequestAt(head), head) <==> head == 1;
    WithdrawnTarget(head, v.target);
  }

  /** The answer at either head. */
  method ComputeWithdrawn(head: nat) returns (v: Computed)
    requires head == 1 || head == 2
    ensures WellFormed(WithdrawnRepo()) && Answers(WithdrawnRepo(), RequestAt(head), v)
  {
    WithdrawnBase(head);
    var outcome := ComputeVersion(WithdrawnRepo(), RequestAt(head));
    v := outcome.value;
  }

  /** The failing input: both heads are computed, and the later candidate precedes the earlier. */
  method WithdrawnDecision() returns (earlier: Computed, later: Computed)
    ensures WellFormed(WithdrawnRepo()) && 1 in Ancestors(WithdrawnRepo(), 2)
    ensures Answers(WithdrawnRepo(), RequestAt(1), earlier) && Answers(WithdrawnRepo(), RequestAt(2), later)
    ensures earlier.candidate == Candidate(Triple(1, 0, 0), false, 1) &&
            later.candidate == Candidate(Triple(0, 1, 1), false, 2)
    ensures Precedes(later.candidate, earlier.candidate)
  {
    WithdrawnCommits();
    earlier := ComputeWithdrawn(1);
    later := ComputeWithdrawn(2);
    WithdrawnAnswer(1, earlier);
    WithdrawnAnswer(2, later);
  }

  /** A hotfix raises the patch alone, from the newest released version. */
  lemma HotfixRaisesThePatch(repo: Repo, req: Request, v: Computed)
    requires WellFormed(repo) && Answers(repo, req, v) && IsHotfix(req)
    ensures v.base.Some? && IsNewest(Released(repo, req.ignoreTags), v.base.value)
    ensures v.target == Triple(v.base.value.major, v.base.value.minor, v.base.value.patch + 1)
  {
  }
}
