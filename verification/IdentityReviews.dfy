/**
 What every resolution of a history was reviewed on: the ruling that stood when its
 statement ran, and the observations its case put under review.
 */
module IdentityReviews {
  import opened Options
  import opened IdentityTables
  import opened IdentityGuards
  import opened IdentityCommit
  import opened IdentityInvariant
  import opened IdentityTheorems
  import opened IdentityRules
  import opened IdentityAcceptance

  /** After any history at all, governed or not, the tables hold what they declare. */
  lemma {:induction false} HistoryIsDeclared(transactions: seq<seq<Step>>)
    ensures Declared(History(transactions)) && ParticipantsHold(History(transactions))
  {
    if transactions != [] {
      var t, steps := History(transactions[..|transactions| - 1]), transactions[|transactions| - 1];
      HistoryIsDeclared(transactions[..|transactions| - 1]);
      if Commits(t, steps) {
        CommitsIff(t, steps);
        RunKeepsDeclared(t, steps);
      }
    }
  }

  /** In any history at all each resolution was asked for by its case and accepted, and no decision carries two. */
  lemma EveryResolutionWasReviewed(transactions: seq<seq<Step>>)
    ensures var t := History(transactions);
            && (forall r | 0 <= r < |t.log| :: ResolutionDeclared(t, t.log[r]))
            && (forall r, s | 0 <= r < s < |t.log| :: t.log[r].decision != t.log[s].decision)
  {
    HistoryIsDeclared(transactions);
  }

  /** So after any history a transaction commits exactly when its statements all run and it leaves what it resolved settled. */
  lemma HistoryCommitsIff(transactions: seq<seq<Step>>, steps: seq<Step>)
    ensures Commits(History(transactions), steps)
            <==> Run(History(transactions), steps).Some? && Settled(History(transactions), Run(History(transactions), steps).value)
  {
    HistoryIsDeclared(transactions);
    if Run(History(transactions), steps).Some? {
      CommitsIff(History(transactions), steps);
    }
  }

  // ----- runs, cut and joined -----------------------------------------------------------------

  lemma {:induction false} RunsCompose(t: Tables, first: seq<Step>, then_: seq<Step>)
    requires |t.log| == |t.named| && Run(t, first).Some?
    ensures Run(t, first + then_) == Run(Run(t, first).value, then_)
    decreases |first|
  {
    if first == [] {
      assert first + then_ == then_;
    } else {
      assert (first + then_)[0] == first[0] && (first + then_)[1..] == first[1..] + then_;
      RunsCompose(Effect(t, first[0]), first[1..], then_);
    }
  }

  /** The statements of `after` that committed, in order, when it follows `before`. */
  function Later(before: seq<seq<Step>>, after: seq<seq<Step>>): seq<Step> {
    if after == [] then []
    else
      var last := |after| - 1;
      Later(before, after[..last])
      + if Commits(History(before + after[..last]), after[last]) then after[last] else []
  }

  lemma HistoryThen(transactions: seq<seq<Step>>, steps: seq<Step>)
    ensures History(transactions + [steps]) == Transact(History(transactions), steps)
  {
    assert (transactions + [steps])[..|transactions|] == transactions;
  }

  lemma LaterThen(before: seq<seq<Step>>, init: seq<seq<Step>>, steps: seq<Step>)
    ensures Later(before, init + [steps])
            == Later(before, init) + if Commits(History(before + init), steps) then steps else []
  {
    assert (init + [steps])[..|init|] == init;
  }

  lemma LaterRuns(t: Tables, first: seq<Step>, mid: Tables, steps: seq<Step>)
    requires |t.log| == |t.named| && |mid.log| == |mid.named| && Run(t, first) == Some(mid)
    ensures Run(t, first + if Commits(mid, steps) then steps else []) == Some(Transact(mid, steps))
  {
    if Commits(mid, steps) {
      RunsCompose(t, first, steps);
    } else {
      assert first + [] == first;
    }
  }

  lemma GoesOnByOne(before: seq<seq<Step>>, init: seq<seq<Step>>, steps: seq<Step>)
    requires Run(History(before), Later(before, init)) == Some(History(before + init))
    ensures Run(History(before), Later(before, init + [steps])) == Some(History((before + init) + [steps]))
  {
    HistoryThen(before + init, steps);
    LaterThen(before, init, steps);
    LaterRuns(History(before), Later(before, init), History(before + init), steps);
  }

  lemma LastOfBoth(before: seq<seq<Step>>, after: seq<seq<Step>>)
    requires after != []
    ensures after == after[..|after| - 1] + [after[|after| - 1]]
    ensures before + after == (before + after[..|after| - 1]) + [after[|after| - 1]]
  {
  }

  lemma {:induction false} HistoryGoesOn(before: seq<seq<Step>>, after: seq<seq<Step>>)
    ensures Run(History(before), Later(before, after)) == Some(History(before + after))
    decreases |after|
  {
    if after == [] {
      assert before + after == before;
    } else {
      HistoryGoesOn(before, after[..|after| - 1]);
      GoesOnByOne(before, after[..|after| - 1], after[|after| - 1]);
      LastOfBoth(before, after);
    }
  }

  lemma {:induction false} LogOnlyGrows(t: Tables, steps: seq<Step>)
    requires |t.log| == |t.named| && Run(t, steps).Some?
    ensures t.log <= Run(t, steps).value.log
    decreases |steps|
  {
    if steps != [] {
      LogOnlyGrows(Effect(t, steps[0]), steps[1..]);
    }
  }

  // ----- the ruling a resolution stood on -------------------------------------------------------

  /** In `m` the decision accepts, and no decision of the same case comes after it. */
  ghost predicate StoodOnItsRuling(m: Tables, x: Resolution) {
    && Standing(m, x.reviewCase, x.decision)
    && m.decisions[x.decision].disposition == Accept
    && x.reviewCase in m.cases && m.cases[x.reviewCase].action == x.action
    && (x.action != LinkObservation ==>
          m.cases[x.reviewCase].retained == Some(x.retained) && m.cases[x.reviewCase].prior == x.prior)
  }

  lemma RunOfPrefix(t: Tables, steps: seq<Step>, i: nat)
    requires |t.log| == |t.named| && 0 < i <= |steps| && Admits(t, steps[0])
    ensures Run(t, steps[..i]) == Run(Effect(t, steps[0]), steps[1..][..i - 1])
  {
    assert steps[..i][0] == steps[0] && steps[..i][1..] == steps[1..][..i - 1];
  }

  lemma FirstResolves(t: Tables, steps: seq<Step>)
    requires |t.log| == |t.named| && Run(t, steps).Some? && steps != [] && steps[0].Resolve?
    ensures |t.log| < |Run(t, steps).value.log| && steps[0] == Resolve(Run(t, steps).value.log[|t.log|])
  {
    LogOnlyGrows(Effect(t, steps[0]), steps[1..]);
    assert Effect(t, steps[0]).log[|t.log|] == steps[0].resolution;
  }

  /** The statement that inserted resolution `r`, and the tables it met. */
  lemma {:induction false} RunResolves(t: Tables, steps: seq<Step>, r: nat) returns (i: nat)
    requires |t.log| == |t.named| && Run(t, steps).Some? && |t.log| <= r < |Run(t, steps).value.log|
    ensures i < |steps| && steps[i] == Resolve(Run(t, steps).value.log[r])
    ensures Run(t, steps[..i]).Some? && |Run(t, steps[..i]).value.log| == r
    ensures Admits(Run(t, steps[..i]).value, steps[i])
    decreases |steps|
  {
    if |t.log| == r && steps[0].Resolve? {
      i := 0;
      FirstResolves(t, steps);
    } else {
      i := RunResolves(Effect(t, steps[0]), steps[1..], r);
      i := i + 1;
      RunOfPrefix(t, steps, i);
    }
  }

  lemma AdmittedStoodOnItsRuling(m: Tables, x: Resolution)
    requires Declared(m) && Admits(m, Resolve(x))
    ensures StoodOnItsRuling(m, x)
  {
    AcceptedIff(m, Resolve(x));
    ResolvedRowIsDeclared(m, x);
  }

  lemma ResolvedRowIsDeclared(m: Tables, x: Resolution)
    requires LogDeclared(Effect(m, Resolve(x)))
    ensures ResolutionDeclared(m, x)
  {
    var u := Effect(m, Resolve(x));
    assert u.log[|m.log|] == x;
    ResolutionDeclaredIn(m, u, x);
  }

  lemma RunStoodOnItsRuling(t: Tables, steps: seq<Step>, r: nat) returns (i: nat)
    requires Declared(t) && Run(t, steps).Some? && |t.log| <= r < |Run(t, steps).value.log|
    ensures i < |steps| && steps[i] == Resolve(Run(t, steps).value.log[r])
    ensures Run(t, steps[..i]).Some? && |Run(t, steps[..i]).value.log| == r
    ensures StoodOnItsRuling(Run(t, steps[..i]).value, Run(t, steps).value.log[r])
  {
    i := RunResolves(t, steps, r);
    RunKeepsDeclared(t, steps[..i]);
    AdmittedStoodOnItsRuling(Run(t, steps[..i]).value, Run(t, steps).value.log[r]);
  }

  /**
   Statement `i` of transaction `j` inserted `x` as resolution `r`: that transaction
   committed, and in the tables the statement met the decision of `x` accepted and stood.
   */
  ghost predicate ResolvedAt(transactions: seq<seq<Step>>, x: Resolution, r: nat, j: nat, i: nat) {
    && j < |transactions| && Commits(History(transactions[..j]), transactions[j])
    && i < |transactions[j]| && transactions[j][i] == Resolve(x)
    && var m := Run(History(transactions[..j]), transactions[j][..i]);
    && m.Some? && |m.value.log| == r && StoodOnItsRuling(m.value, x)
  }

  lemma ResolvedBefore(transactions: seq<seq<Step>>, x: Resolution, r: nat, j: nat, i: nat)
    requires j < |transactions| - 1 && ResolvedAt(transactions[..|transactions| - 1], x, r, j, i)
    ensures ResolvedAt(transactions, x, r, j, i)
  {
    PrefixesAgree(transactions, j);
  }

  lemma OlderEntriesStay(t: Tables, steps: seq<Step>, r: nat)
    requires |t.log| == |t.named| && r < |t.log|
    ensures r < |Transact(t, steps).log| && Transact(t, steps).log[r] == t.log[r]
  {
    if Commits(t, steps) {
      LogOnlyGrows(t, steps);
    }
  }

  lemma ResolvedLast(transactions: seq<seq<Step>>, r: nat) returns (i: nat)
    requires transactions != []
    requires |History(transactions[..|transactions| - 1]).log| <= r < |History(transactions).log|
    ensures ResolvedAt(transactions, History(transactions).log[r], r, |transactions| - 1, i)
  {
    var t, steps := History(transactions[..|transactions| - 1]), transactions[|transactions| - 1];
    HistoryIsDeclared(transactions[..|transactions| - 1]);
    LogGrowsByCommit(t, steps);
    i := RunStoodOnItsRuling(t, steps, r);
  }

  /**
   Every resolution of any history was inserted, by a transaction that committed, while
   its own decision accepted and stood as the last ruling of its case.
   */
  lemma {:induction false} EveryResolutionStoodOnItsRuling(transactions: seq<seq<Step>>, r: nat) returns (j: nat, i: nat)
    requires r < |History(transactions).log|
    ensures ResolvedAt(transactions, History(transactions).log[r], r, j, i)
  {
    var init := transactions[..|transactions| - 1];
    if r < |History(init).log| {
      j, i := EveryResolutionStoodOnItsRuling(init, r);
      ResolvedBefore(transactions, History(init).log[r], r, j, i);
      OlderEntriesStay(History(init), transactions[|transactions| - 1], r);
    } else {
      j := |transactions| - 1;
      i := ResolvedLast(transactions, r);
    }
  }

  /** Some statement rules on case `k`. */
  ghost predicate RulesOn(steps: seq<Step>, k: CaseId) {
    exists s | s in steps :: s.Decide? && s.ruling.reviewCase == k
  }

  lemma StepKeepsStanding(t: Tables, s: Step, k: CaseId, d: DecisionId)
    requires Finds(t, s) && Standing(t, k, d) && !(s.Decide? && s.ruling.reviewCase == k)
    ensures Standing(Effect(t, s), k, d) && Effect(t, s).decisions[d] == t.decisions[d]
  {
    assert s.Decide? ==> Effect(t, s).decisions == t.decisions[s.decision := s.ruling];
  }

  lemma AdmittedFinds(t: Tables, s: Step)
    requires Admits(t, s)
    ensures Finds(t, s)
  {
  }

  lemma {:induction false} RunKeepsStanding(t: Tables, steps: seq<Step>, k: CaseId, d: DecisionId)
    requires |t.log| == |t.named| && Standing(t, k, d) && Run(t, steps).Some? && !RulesOn(steps, k)
    ensures Standing(Run(t, steps).value, k, d) && Run(t, steps).value.decisions[d] == t.decisions[d]
    decreases |steps|
  {
    if steps != [] {
      assert steps[0] in steps && forall w | w in steps[1..] :: w in steps;
      AdmittedFinds(t, steps[0]);
      StepKeepsStanding(t, steps[0], k, d);
      RunKeepsStanding(Effect(t, steps[0]), steps[1..], k, d);
    }
  }

  /** While the last ruling of a case does not accept, and none follows it, nothing is resolved on that case. */
  lemma OverruledIsNotResolved(t: Tables, steps: seq<Step>, k: CaseId, d: DecisionId)
    requires Declared(t) && Standing(t, k, d) && t.decisions[d].disposition != Accept
    requires Run(t, steps).Some? && !RulesOn(steps, k)
    ensures forall r | |t.log| <= r < |Run(t, steps).value.log| :: Run(t, steps).value.log[r].reviewCase != k
  {
    var u := Run(t, steps).value;
    forall r | |t.log| <= r < |u.log| ensures u.log[r].reviewCase != k {
      var i := RunStoodOnItsRuling(t, steps, r);
      assert forall w | w in steps[..i] :: w in steps;
      RunKeepsStanding(t, steps[..i], k, d);
    }
  }

  /** The same over whatever commits later. */
  lemma OverruledStaysUnresolved(before: seq<seq<Step>>, after: seq<seq<Step>>, k: CaseId, d: DecisionId)
    requires Standing(History(before), k, d) && History(before).decisions[d].disposition != Accept
    requires !RulesOn(Later(before, after), k)
    ensures var t, u := History(before), History(before + after);
            forall r | |t.log| <= r < |u.log| :: u.log[r].reviewCase != k
  {
    HistoryIsDeclared(before);
    HistoryGoesOn(before, after);
    OverruledIsNotResolved(History(before), Later(before, after), k, d);
  }

  // ----- the observations a resolution was reviewed for -------------------------------------------

  /** What the statements name under resolution `r`. */
  function NamedIn(steps: seq<Step>, r: nat): set<ObservationId> {
    set s | s in steps && s.NameObservation? && s.position == r :: s.observation
  }

  /** What the statements add to candidate set `k`. */
  function AddedIn(steps: seq<Step>, k: SetId): set<ObservationId> {
    set s | s in steps && s.AddObservationCandidate? && s.set_ == k :: s.observation
  }

  lemma FirstAndRest(steps: seq<Step>, r: nat, k: SetId)
    requires steps != []
    ensures NamedIn(steps, r) == NamedIn([steps[0]], r) + NamedIn(steps[1..], r)
    ensures AddedIn(steps, k) == AddedIn([steps[0]], k) + AddedIn(steps[1..], k)
  {
    assert forall s :: s in steps <==> s == steps[0] || s in steps[1..];
  }

  lemma StepNames(t: Tables, s: Step, r: nat, k: SetId)
    requires Finds(t, s) && r < |t.named| && k in t.candidates
    ensures r < |Effect(t, s).named| && Effect(t, s).named[r] == t.named[r] + NamedIn([s], r)
    ensures k in Effect(t, s).candidates
    ensures Effect(t, s).candidates[k].observations == t.candidates[k].observations + AddedIn([s], k)
    ensures t.named[r] !! NamedIn([s], r) && t.candidates[k].observations !! AddedIn([s], k)
    ensures forall c | c in t.cases :: c in Effect(t, s).cases && Effect(t, s).cases[c] == t.cases[c]
  {
    assert [s][0] == s;
    assert s.NameObservation? && s.position == r ==> NamedIn([s], r) == {s.observation};
    assert s.AddObservationCandidate? && s.set_ == k ==> AddedIn([s], k) == {s.observation};
  }

  /** A resolution's names, and a set's members, grow by just what the statements name and add. */
  lemma {:induction false} RunNames(t: Tables, steps: seq<Step>, r: nat, k: SetId)
    requires |t.log| == |t.named| && Run(t, steps).Some? && r < |t.named| && k in t.candidates
    ensures var u := Run(t, steps).value;
            && r < |u.named| && u.named[r] == t.named[r] + NamedIn(steps, r)
            && k in u.candidates && u.candidates[k].observations == t.candidates[k].observations + AddedIn(steps, k)
            && t.named[r] !! NamedIn(steps, r) && t.candidates[k].observations !! AddedIn(steps, k)
            && forall c | c in t.cases :: c in u.cases && u.cases[c] == t.cases[c]
    decreases |steps|
  {
    if steps != [] {
      AdmittedFinds(t, steps[0]);
      StepNames(t, steps[0], r, k);
      RunNames(Effect(t, steps[0]), steps[1..], r, k);
      FirstAndRest(steps, r, k);
    }
  }

  /** A resolution that names what was reviewed goes on doing so exactly while names and candidates are added alike. */
  lemma StillNamesTheReviewedIff(t: Tables, steps: seq<Step>, r: nat)
    requires |t.log| == |t.named| && Run(t, steps).Some? && r < |t.log| && NamesTheReviewed(t, r)
    ensures var u := Run(t, steps).value;
            && r < |u.log| && r < |u.named| && u.log[r] == t.log[r]
            && (NamesTheReviewed(u, r) <==> NamedIn(steps, r) == AddedIn(steps, t.cases[t.log[r].reviewCase].candidates))
  {
    var u, k := Run(t, steps).value, t.cases[t.log[r].reviewCase].candidates;
    RunNames(t, steps, r, k);
    LogOnlyGrows(t, steps);
    GrowAlike(t.named[r], NamedIn(steps, r), AddedIn(steps, k));
    var o :| o in t.named[r];
    assert o in u.named[r];
  }

  lemma GrowAlike(base: set<ObservationId>, x: set<ObservationId>, y: set<ObservationId>)
    requires base !! x && base !! y
    ensures base + x == base + y <==> x == y
  {
    if base + x == base + y {
      forall o ensures o in x <==> o in y {
        assert o in x ==> o in base + y;
        assert o in y ==> o in base + x;
      }
    }
  }

  /**
   Every resolution of any history named just what was under review when its transaction
   committed, and still does exactly if as much was named under it since as was added to its set.
   */
  lemma {:induction false} EveryResolutionNamedTheReviewed(transactions: seq<seq<Step>>, r: nat) returns (j: nat)
    requires r < |History(transactions).log|
    ensures j < |transactions| && Commits(History(transactions[..j]), transactions[j])
    ensures |History(transactions[..j]).log| <= r < |History(transactions[..j + 1]).log|
    ensures NamesTheReviewed(History(transactions[..j + 1]), r)
    ensures var t, later := History(transactions[..j + 1]), Later(transactions[..j + 1], transactions[j + 1..]);
            NamesTheReviewed(History(transactions), r)
            <==> NamedIn(later, r) == AddedIn(later, t.cases[t.log[r].reviewCase].candidates)
  {
    j := CommittedBy(transactions, r);
    var before, after := transactions[..j + 1], transactions[j + 1..];
    assert before[..j] == transactions[..j] && before + after == transactions;
    CommitNamesTheReviewed(History(transactions[..j]), transactions[j]);
    HistoryGoesOn(before, after);
    StillNamesTheReviewedIff(History(before), Later(before, after), r);
  }

  lemma LogGrowsByCommit(t: Tables, steps: seq<Step>)
    requires |t.log| == |t.named| && |Transact(t, steps).log| != |t.log|
    ensures Commits(t, steps)
  {
  }

  lemma PrefixesAgree(transactions: seq<seq<Step>>, j: nat)
    requires j < |transactions| - 1
    ensures var init := transactions[..|transactions| - 1];
            transactions[j] == init[j] && transactions[..j] == init[..j] && transactions[..j + 1] == init[..j + 1]
  {
  }

  lemma {:induction false} CommittedBy(transactions: seq<seq<Step>>, r: nat) returns (j: nat)
    requires r < |History(transactions).log|
    ensures j < |transactions| && Commits(History(transactions[..j]), transactions[j])
    ensures |History(transactions[..j]).log| <= r < |History(transactions[..j + 1]).log|
  {
    var init := transactions[..|transactions| - 1];
    if r < |History(init).log| {
      j := CommittedBy(init, r);
      PrefixesAgree(transactions, j);
    } else {
      j := |transactions| - 1;
      assert transactions[..j + 1] == transactions;
      LogGrowsByCommit(History(init), transactions[j]);
    }
  }

  // ----- in a governed history -----------------------------------------------------------------------

  lemma GovernedNamesNothingOld(from: nat, steps: seq<Step>, r: nat)
    requires AllGoverned(from, steps) && r < from
    ensures NamedIn(steps, r) == {}
  {
    forall s | s in steps ensures Governed(from, s) {
      var i :| 0 <= i < |steps| && steps[i] == s;
    }
  }

  lemma {:induction false} GovernedLaterNamesNothingOld(before: seq<seq<Step>>, after: seq<seq<Step>>, r: nat)
    requires GovernedHistory(before + after) && r < |History(before).log|
    ensures NamedIn(Later(before, after), r) == {}
    decreases |after|
  {
    if after != [] {
      var init, steps := after[..|after| - 1], after[|after| - 1];
      assert (before + after)[..|before + after| - 1] == before + init && (before + after)[|before + after| - 1] == steps;
      GovernedLaterNamesNothingOld(before, init, r);
      HistoryGoesOn(before, init);
      LogOnlyGrows(History(before), Later(before, init));
      GovernedNamesNothingOld(|History(before + init).log|, steps, r);
    }
  }

  /** In a governed history a resolution goes on naming what was reviewed exactly while nothing is added to its set. */
  lemma GovernedNamesTheReviewedIff(before: seq<seq<Step>>, after: seq<seq<Step>>, r: nat)
    requires GovernedHistory(before + after) && r < |History(before).log| && NamesTheReviewed(History(before), r)
    ensures var t, u := History(before), History(before + after);
            && r < |u.log| && u.named[r] == t.named[r]
            && (NamesTheReviewed(u, r) <==> AddedIn(Later(before, after), t.cases[t.log[r].reviewCase].candidates) == {})
  {
    var t, later := History(before), Later(before, after);
    HistoryGoesOn(before, after);
    GovernedLaterNamesNothingOld(before, after, r);
    RunNames(t, later, r, t.cases[t.log[r].reviewCase].candidates);
    StillNamesTheReviewedIff(t, later, r);
  }
}
