/** Consult and gate (src/data_olympus/tools_enforce.py:94-302) over the ledger and the classifier. */
module Gate {
  import opened Common
  import opened Ledger
  import opened LedgerStore
  import opened Classifier
  import opened Clearance
  import opened Suggestion
  import opened Excerpts

  const MAX_CONSULT_INTENT_CHARS := 4000

  /** `kb_consult`: classify the head of the intent and record what it covers. */
  method Consult(v: Vocabulary, ledger: ConsultationLedger, key: Pair, intent: string, ruleIds: seq<string>, now: real,
                 trigger: string)
    returns (ghost r: Record)
    requires ledger.Sound()
    modifies ledger
    ensures r.key == key && r.now == now && r.ruleIds == ruleIds && (r.explicit <==> trigger != "prompt_hook")
    ensures forall sig :: sig in r.signals <==> Covers(v, intent[..if |intent| < 4000 then |intent| else 4000], sig)
    ensures ledger.history == old(ledger.history) + [r] && ledger.Saved() && ledger.Sound()
    ensures old(ledger.Exact()) && Nondecreasing(ledger.history) ==> ledger.Exact()
    ensures old(ledger.dropped) <= ledger.dropped
    ensures !r.explicit ==> NoMorePermissive(old(ledger.entries), ledger.entries)
    ensures UnderCap(ledger.history, |old(ledger.history)|, ledger.retention, ledger.maxEntries) ==>
              ledger.dropped == old(ledger.dropped)
  {
    var head := intent[..if |intent| < MAX_CONSULT_INTENT_CHARS then |intent| else MAX_CONSULT_INTENT_CHARS];
    var coverage := Coverage(v, head);
    r := Record(key, ruleIds, now, trigger != "prompt_hook", coverage);
    ledger.Note(Record(key, ruleIds, now, trigger != "prompt_hook", coverage));
  }

  /** Every signal of the action is cleared by some explicit consult of the pair within the time to live. */
  ghost predicate Backed(history: seq<Record>, key: Pair, now: real, ttl: real, signals: seq<string>) {
    forall sig :: sig in signals ==> exists c :: Covered(history, key, now, ttl, c) && Cleared({c}, sig)
  }

  lemma ClearedByOne(coverage: set<string>, sig: string)
    ensures Cleared(coverage, sig) <==> exists c :: c in coverage && Cleared({c}, sig)
  {
  }

  /** The ledger's signals clear an action if the history backs it, and only then where they agree. */
  lemma ClearedIsBacked(history: seq<Record>, current: set<string>, key: Pair, now: real, ttl: real,
                        signals: seq<string>)
    requires forall sig :: sig in current ==> Covered(history, key, now, ttl, sig)
    ensures (forall sig :: sig in signals ==> Cleared(current, sig)) ==> Backed(history, key, now, ttl, signals)
    ensures (forall sig :: sig in current <==> Covered(history, key, now, ttl, sig)) ==>
              ((forall sig :: sig in signals ==> Cleared(current, sig)) <==> Backed(history, key, now, ttl, signals))
  {
  }

  /** The ledger is exact for this pair and time. */
  ghost predicate Current(ledger: ConsultationLedger, key: Pair, now: real, ttl: real)
    reads ledger
  {
    && ledger.Exact() && key !in ledger.dropped && ttl <= ledger.retention
    && (ledger.history != [] ==> now >= ledger.history[|ledger.history| - 1].now)
  }

  /**
  What the gate finds uncovered: the signals no fresh consult clears, or all of them without a fresh consult
  of the pair.
  */
  function LeftUncovered(v: Vocabulary, entries: Entries, key: Pair, path: Option<string>, diff: string, now: real,
                         ttl: real, byPair: bool): seq<string> {
    var signals := ActionSignals(v, path, diff);
    if byPair then if Fresh(entries, key, now, ttl, true) then [] else signals
    else Uncovered(signals, Signals(entries, key, now, ttl))
  }

  /**
  `kb_gate_check`: a governed action passes only on explicit consults that back it, and where the ledger is
  exact it passes whenever they do.
  */
  method GateCheck(v: Vocabulary, ledger: ConsultationLedger, key: Pair, path: Option<string>, diff: string, now: real,
                   ttl: real, byPair: bool) returns (allow: bool, uncovered: seq<string>)
    requires ledger.Sound()
    ensures var signals := ActionSignals(v, path, diff);
            && allow == (uncovered == [])
            && uncovered == LeftUncovered(v, ledger.entries, key, path, diff, now, ttl, byPair)
            && (allow && signals != [] ==>
                  if byPair then EverFresh(ledger.history, key, now, ttl, true)
                  else Backed(ledger.history, key, now, ttl, signals))
            && (Sane(v) && ledger.history == [] ==> (allow <==> !Governed(v, path, diff)))
            && (Current(ledger, key, now, ttl) ==>
                  (allow <==> signals == [] || if byPair then EverFresh(ledger.history, key, now, ttl, true)
                                               else Backed(ledger.history, key, now, ttl, signals)))
  {
    var signals := Classify(v, "", path, diff);
    if byPair {
      var yes := ledger.IsFresh(key, now, ttl, true);
      uncovered := if yes then [] else signals;
    } else {
      var covered := ledger.FreshSignals(key, now, ttl);
      uncovered := UncoveredSignals(signals, covered);
      UncoveredMeans(signals, covered);
      ClearedIsBacked(ledger.history, covered, key, now, ttl, signals);
    }
    allow := uncovered == [];
    if Sane(v) && ledger.history == [] {
      UngovernedMeans(v, path, diff);
      NothingYet(v, ledger.entries, key, path, diff, now, ttl, byPair);
    }
  }

  /** An empty ledger leaves every signal uncovered. */
  lemma NothingYet(v: Vocabulary, entries: Entries, key: Pair, path: Option<string>, diff: string, now: real, ttl: real,
                   byPair: bool)
    requires Justified([], entries)
    ensures LeftUncovered(v, entries, key, path, diff, now, ttl, byPair) == [] <==> ActionSignals(v, path, diff) == []
  {
    AnswersAreSound([], entries, key, now, ttl, true);
    assert Signals(entries, key, now, ttl) == {};
    UncoveredMeans(ActionSignals(v, path, diff), {});
    if ActionSignals(v, path, diff) != [] {
      assert ActionSignals(v, path, diff)[0] in ActionSignals(v, path, diff);
    }
  }

  // ---- Every governed action is clearable ------------------------------------------------------------

  /** The record of an explicit consult of the pair with this intent, of which a consult reads the head. */
  ghost predicate ExplicitConsult(v: Vocabulary, key: Pair, now: real, ruleIds: seq<string>, intent: string,
                                  r: Record) {
    && r.key == key && r.now == now && r.explicit && r.ruleIds == ruleIds
    && forall sig :: sig in r.signals <==>
         Covers(v, intent[..if |intent| < MAX_CONSULT_INTENT_CHARS then |intent| else MAX_CONSULT_INTENT_CHARS], sig)
  }

  /** The `i`-th consultation is an explicit one of this pair with this intent. */
  ghost predicate Consulted(v: Vocabulary, history: seq<Record>, i: nat, key: Pair, intent: string, at: real) {
    && i < |history| && history[i].key == key && history[i].explicit && history[i].now == at
    && forall sig :: Covers(v, intent, sig) ==> sig in history[i].signals
  }

  lemma ConsultBacks(v: Vocabulary, intent: string, path: Option<string>, diff: string, history: seq<Record>, i: nat,
                     key: Pair, at: real, now: real, ttl: real)
    requires CoversAction(v, intent, path, diff) && Consulted(v, history, i, key, intent, at) && now - at <= ttl
    ensures Backed(history, key, now, ttl, ActionSignals(v, path, diff)) && EverFresh(history, key, now, ttl, true)
  {
    forall sig | sig in ActionSignals(v, path, diff)
      ensures exists c :: Covered(history, key, now, ttl, c) && Cleared({c}, sig)
    {
      assert Covered(history, key, now, ttl, sig);
      assert Cleared({sig}, sig);
    }
  }

  method ConsultThenRun(v: Vocabulary, ledger: ConsultationLedger, key: Pair, intent: string, ruleIds: seq<string>,
                        at: real, run: seq<Event>) returns (ghost i: nat, ghost r: Record)
    requires |intent| <= MAX_CONSULT_INTENT_CHARS && ledger.Saved() && ledger.Exact()
    modifies ledger
    ensures Consulted(v, ledger.history, i, key, intent, at) && ledger.Sound()
    ensures ExplicitConsult(v, key, at, ruleIds, intent, r)
    ensures ledger.history == old(ledger.history) + [r] + Recorded(run)
    ensures Nondecreasing(ledger.history) ==> ledger.Exact()
    ensures UnderCap(ledger.history, |old(ledger.history)|, ledger.retention, ledger.maxEntries) ==>
              ledger.dropped == old(ledger.dropped)
  {
    i := |ledger.history|;
    r := Consult(v, ledger, key, intent, ruleIds, at, "explicit");
    assert intent[..|intent|] == intent;
    ghost var consulted := ledger.history;
    Play(ledger, run);
    HistoryGrows(consulted, Recorded(run));
    assert ledger.history[i] == r;
    if UnderCap(ledger.history, i, ledger.retention, ledger.maxEntries) {
      UnderCapBefore(consulted, Recorded(run), i, ledger.retention, ledger.maxEntries);
    }
  }

  /**
  After an explicit consult whose intent covers the action, the gate lets the action pass for the whole time
  to live, whatever prompt-hook or other records and restarts come between, in both clearance modes: at a time
  not before the last record, if the records came in order and no more pairs than the cap were active at a time.
  */
  method ConsultThenAct(v: Vocabulary, ledger: ConsultationLedger, key: Pair, intent: string, ruleIds: seq<string>,
                        at: real, run: seq<Event>, path: Option<string>, diff: string, now: real, ttl: real,
                        byPair: bool)
    returns (allow: bool, ghost r: Record)
    requires CoversAction(v, intent, path, diff) && |intent| <= MAX_CONSULT_INTENT_CHARS
    requires ledger.Saved() && ledger.Exact() && ttl <= ledger.retention && at <= now <= at + ttl
    modifies ledger
    ensures ExplicitConsult(v, key, at, ruleIds, intent, r)
    ensures ledger.history == old(ledger.history) + [r] + Recorded(run)
    ensures allow <==> LeftUncovered(v, ledger.entries, key, path, diff, now, ttl, byPair) == []
    ensures UnderCap(ledger.history, |old(ledger.history)|, ledger.retention, ledger.maxEntries) ==>
              ledger.dropped == old(ledger.dropped)
    ensures NotBefore(ledger.history, now) && key !in ledger.dropped ==> allow
  {
    ghost var i;
    i, r := ConsultThenRun(v, ledger, key, intent, ruleIds, at, run);
    var uncovered;
    allow, uncovered := GateCheck(v, ledger, key, path, diff, now, ttl, byPair);
    ConsultBacks(v, intent, path, diff, ledger.history, i, key, at, now, ttl);
  }

  // ---- The denial's advice --------------------------------------------------------------------------------

  lemma StillCovered(history: seq<Record>, r: Record, key: Pair, now: real, ttl: real, sig: string)
    requires Covered(history, key, now, ttl, sig)
    ensures Covered(history + [r], key, now, ttl, sig)
  {
    var i :| 0 <= i < |history| && history[i].key == key && history[i].explicit && sig in history[i].signals
      && now - history[i].now <= ttl;
    assert (history + [r])[i] == history[i];
  }

  /** What was covered and what the consult adds together back the action. */
  lemma AdviceBacks(history: seq<Record>, r: Record, now: real, ttl: real, signals: seq<string>, covered: set<string>)
    requires r.explicit && r.now == now && ttl >= 0.0
    requires forall sig :: sig in covered ==> Covered(history, r.key, now, ttl, sig)
    requires forall sig :: sig in Uncovered(signals, covered) ==> sig in r.signals
    ensures Backed(history + [r], r.key, now, ttl, signals)
  {
    var all := history + [r];
    UncoveredMeans(signals, covered);
    forall sig | sig in signals ensures exists c :: Covered(all, r.key, now, ttl, c) && Cleared({c}, sig) {
      if Cleared(covered, sig) {
        ClearedByOne(covered, sig);
        var c :| c in covered && Cleared({c}, sig);
        StillCovered(history, r, r.key, now, ttl, c);
      } else {
        assert all[|history|] == r;
        assert Covered(all, r.key, now, ttl, sig) && Cleared({sig}, sig);
      }
    }
  }

  /** The consult the denial advises. */
  method AdvisedConsult(v: Vocabulary, ledger: ConsultationLedger, key: Pair, path: Option<string>, diff: string,
                        now: real, ttl: real, ruleIds: seq<string>, uncovered: seq<string>, ghost covered: set<string>)
    returns (intent: string, ghost r: Record)
    requires Advisable(v, path) && ledger.Exact() && NotBefore(ledger.history, now) && ttl >= 0.0
    requires uncovered == Uncovered(ActionSignals(v, path, diff), covered)
    requires forall sig :: sig in covered ==> Covered(ledger.history, key, now, ttl, sig)
    modifies ledger
    ensures intent == Suggested(v, uncovered, path)
    ensures ExplicitConsult(v, key, now, ruleIds, intent, r) && ledger.history == old(ledger.history) + [r]
    ensures |intent| <= MAX_CONSULT_INTENT_CHARS ==> Backed(ledger.history, key, now, ttl, ActionSignals(v, path, diff))
    ensures ledger.Exact() && NotBefore(ledger.history, now)
    ensures UnderCap(ledger.history, |old(ledger.history)|, ledger.retention, ledger.maxEntries) ==>
              ledger.dropped == old(ledger.dropped)
  {
    ghost var history := ledger.history;
    intent := SuggestIntent(v, uncovered, path);
    r := Consult(v, ledger, key, intent, ruleIds, now, "explicit");
    StillInOrder(history, r);
    if |intent| <= MAX_CONSULT_INTENT_CHARS {
      assert intent[..|intent|] == intent;
      AdviceCovers(v, uncovered, path, diff, covered, intent, r);
      AdviceBacks(history, r, now, ttl, ActionSignals(v, path, diff), covered);
    }
  }

  /** The clock has not run backwards, and is not behind the last record. */
  ghost predicate NotBefore(history: seq<Record>, now: real) {
    Nondecreasing(history) && (history != [] ==> history[|history| - 1].now <= now)
  }

  lemma StillInOrder(history: seq<Record>, r: Record)
    requires NotBefore(history, r.now)
    ensures NotBefore(history + [r], r.now)
  {
  }

  /**
  Following the advice of a denial: the suggested intent is consulted once, and the retry passes, if the intent
  is not longer than a consult reads and no more pairs than the cap are active.
  */
  method FollowAdvice(v: Vocabulary, ledger: ConsultationLedger, key: Pair, path: Option<string>, diff: string,
                      now: real, ttl: real, ruleIds: seq<string>)
    returns (allow: bool, intent: string, ghost advised: seq<Record>)
    requires Advisable(v, path) && ledger.Exact() && NotBefore(ledger.history, now) && 0.0 <= ttl <= ledger.retention
    modifies ledger
    ensures ledger.history == old(ledger.history) + advised
    ensures var left := old(LeftUncovered(v, ledger.entries, key, path, diff, now, ttl, false));
            if left == [] then intent == "" && advised == [] && ledger.entries == old(ledger.entries)
            else intent == Suggested(v, left, path) && |advised| == 1 &&
                 ExplicitConsult(v, key, now, ruleIds, intent, advised[0])
    ensures allow <==> LeftUncovered(v, ledger.entries, key, path, diff, now, ttl, false) == []
    ensures UnderCap(ledger.history, |old(ledger.history)|, ledger.retention, ledger.maxEntries) ==>
              ledger.dropped == old(ledger.dropped)
    ensures |intent| <= MAX_CONSULT_INTENT_CHARS && key !in ledger.dropped ==> allow
  {
    var uncovered;
    AnswersAreSound(ledger.history, ledger.entries, key, now, ttl, true);
    allow, uncovered := GateCheck(v, ledger, key, path, diff, now, ttl, false);
    intent, advised := "", [];
    if !allow {
      ghost var covered := Signals(ledger.entries, key, now, ttl);
      ghost var r;
      intent, r := AdvisedConsult(v, ledger, key, path, diff, now, ttl, ruleIds, uncovered, covered);
      advised := [r];
      allow, uncovered := GateCheck(v, ledger, key, path, diff, now, ttl, false);
    }
  }

  lemma AdviceCovers(v: Vocabulary, uncovered: seq<string>, path: Option<string>, diff: string, covered: set<string>,
                     intent: string, r: Record)
    requires Advisable(v, path)
    requires uncovered == Uncovered(ActionSignals(v, path, diff), covered) && intent == Suggested(v, uncovered, path)
    requires forall sig :: sig in r.signals <==> Covers(v, intent, sig)
    ensures forall sig :: sig in uncovered ==> sig in r.signals
  {
    UncoveredMeans(ActionSignals(v, path, diff), covered);
    forall sig | sig in uncovered ensures sig in r.signals {
      SuggestionCovers(v, uncovered, path, diff, sig);
    }
  }
}
