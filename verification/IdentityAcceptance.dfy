/**
 What a commit of the identity plane must meet, table by table: the deferred checks
 accept exactly the transactions that settle what they resolved.
 */
module IdentityAcceptance {
  import opened Options
  import opened IdentityTables
  import opened IdentityGuards
  import opened IdentityCommit
  import opened IdentityInvariant
  import opened IdentityRules

  // ----- handing on to a later correction ---------------------------------------------------

  /** The position of the last correction of `log` with `p` as one of its people. */
  function LastCorrection(log: seq<Resolution>, p: PersonId): Option<nat> {
    if log == [] then None
    else
      var x := log[|log| - 1];
      if p in Pair(x) then Some(|log| - 1) else LastCorrection(log[..|log| - 1], p)
  }

  /** The position of the last correction of `log` over just the two people of `pair`. */
  function LastOver(log: seq<Resolution>, pair: set<PersonId>): Option<nat> {
    if log == [] then None
    else if Pair(log[|log| - 1]) == pair then Some(|log| - 1)
    else LastOver(log[..|log| - 1], pair)
  }

  lemma {:induction false} LastCorrectionIff(log: seq<Resolution>, p: PersonId, k: nat)
    ensures LastCorrection(log, p) == Some(k)
            <==> k < |log| && p in Pair(log[k]) && forall s | k < s < |log| :: p !in Pair(log[s])
  {
    if log != [] {
      var init := log[..|log| - 1];
      LastCorrectionIff(init, p, k);
      assert forall s | 0 <= s < |init| :: init[s] == log[s];
    }
  }

  lemma {:induction false} LastOverIff(log: seq<Resolution>, pair: set<PersonId>, k: nat)
    ensures LastOver(log, pair) == Some(k)
            <==> k < |log| && Pair(log[k]) == pair && forall s | k < s < |log| :: Pair(log[s]) != pair
  {
    if log != [] {
      var init := log[..|log| - 1];
      LastOverIff(init, pair, k);
      assert forall s | 0 <= s < |init| :: init[s] == log[s];
    }
  }

  /**
   Resolution `r` leaves its observations to the last correction of its person, when it
   is a link, or of its two people, when it is a correction itself: that one came later,
   names the same observations, and in the second case undoes `r` and bears them all.
   */
  ghost predicate HandedOn(t: Tables, r: nat)
    requires r < |t.log| == |t.named|
  {
    var x := t.log[r];
    var last := if x.action == LinkObservation then LastCorrection(t.log, x.retained) else LastOver(t.log, Pair(x));
    && last.Some? && r < last.value < |t.log| && t.named[last.value] == t.named[r]
    && (x.action != LinkObservation ==>
          && t.log[last.value].action != x.action
          && Some(t.log[last.value].retained) == x.prior
          && t.named[r] <= Bearing(t, last.value))
  }

  lemma InvolvedIff(t: Tables, s: nat, p: PersonId)
    requires LogDeclared(t) && s < |t.log|
    ensures Involves(t.log[s], p) <==> p in Pair(t.log[s])
  {
    assert ResolutionDeclared(t, t.log[s]);
  }

  lemma LinkHandsOnIff(t: Tables, r: nat, later: nat)
    requires LogDeclared(t) && r < |t.log| && later < |t.log|
    ensures LinkYieldsTo(t, r, later)
            <==> && LastCorrection(t.log, t.log[r].retained) == Some(later)
                 && r < later && t.named[later] == t.named[r]
  {
    forall s | 0 <= s < |t.log| ensures Involves(t.log[s], t.log[r].retained) <==> t.log[r].retained in Pair(t.log[s]) {
      InvolvedIff(t, s, t.log[r].retained);
    }
    LastCorrectionIff(t.log, t.log[r].retained, later);
  }

  lemma BearingIff(t: Tables, r: nat, on: set<ObservationId>)
    requires LinksDeclared(t) && r < |t.log|
    ensures (forall o | o in on :: o in t.links && t.links[o] == Link(t.log[r].retained, r)) <==> on <= Bearing(t, r)
  {
    if on <= Bearing(t, r) {
      assert forall o | o in on :: o in Bearing(t, r);
    }
  }

  lemma CorrectionHandsOnIff(t: Tables, r: nat, later: nat)
    requires LogDeclared(t) && LinksDeclared(t) && r < |t.log| && later < |t.log| && t.log[r].action != LinkObservation
    ensures CorrectionYieldsTo(t, r, later)
            <==> && LastOver(t.log, Pair(t.log[r])) == Some(later)
                 && r < later && t.named[later] == t.named[r]
                 && t.log[later].action != t.log[r].action
                 && Some(t.log[later].retained) == t.log[r].prior
                 && t.named[r] <= Bearing(t, later)
  {
    assert ResolutionDeclared(t, t.log[r]) && ResolutionDeclared(t, t.log[later]);
    LastOverIff(t.log, Pair(t.log[r]), later);
    BearingIff(t, later, t.named[r]);
    PairsAgree(t.log[r], t.log[later]);
    if t.log[later].prior.Some? {
      LatestIff(t, later);
    }
  }

  lemma HandedOnIff(t: Tables, r: nat)
    requires LogDeclared(t) && LinksDeclared(t) && r < |t.log|
    ensures Skipped(t, r) <==> HandedOn(t, r)
  {
    forall later: nat | later < |t.log|
      ensures YieldsTo(t, r, later) ==> HandedOn(t, r)
    {
      if t.log[r].action == LinkObservation {
        LinkHandsOnIff(t, r, later);
      } else {
        CorrectionHandsOnIff(t, r, later);
      }
    }
    if HandedOn(t, r) {
      var x := t.log[r];
      var last := if x.action == LinkObservation then LastCorrection(t.log, x.retained) else LastOver(t.log, Pair(x));
      if x.action == LinkObservation {
        LinkHandsOnIff(t, r, last.value);
      } else {
        CorrectionHandsOnIff(t, r, last.value);
      }
      assert YieldsTo(t, r, last.value);
    }
  }

  // ----- what a resolution that is not handed on leaves behind ----------------------------------

  /** The people of resolution `r`: the retained one is live, and `r` is what it or the merged one last took. */
  ghost predicate PeopleTookIt(t: Tables, r: nat)
    requires r < |t.log|
  {
    var x := t.log[r];
    && x.retained in t.people && (x.prior.Some? ==> x.prior.value in t.people)
    && match x.action
       case LinkObservation => t.people[x.retained] == Person(None, Some(r))
       case MergePerson =>
         && t.people[x.retained].supersededBy == None
         && x.prior.Some? && t.people[x.prior.value] == Person(Some(x.retained), Some(r))
       case SplitPerson =>
         && t.people[x.retained] == Person(None, Some(r))
         && x.prior.Some? && t.people[x.prior.value].supersededBy == None
  }

  /** It bears just what it names, for its retained person; the merged person owns nothing, and any other retained person just that. */
  ghost predicate LinksTookIt(t: Tables, r: nat)
    requires r < |t.log| && r < |t.named|
  {
    && Bearing(t, r) == t.named[r] && t.named[r] <= Owned(t, t.log[r].retained)
    && if t.log[r].action == MergePerson
       then t.log[r].prior.Some? ==> Owned(t, t.log[r].prior.value) == {}
       else Owned(t, t.log[r].retained) == t.named[r]
  }

  lemma FinalPeopleIff(t: Tables, r: nat)
    requires LogDeclared(t) && r < |t.log|
    ensures FinalPeople(t, r) <==> PeopleTookIt(t, r)
  {
    assert ResolutionDeclared(t, t.log[r]);
  }

  lemma FinalLinksIff(t: Tables, r: nat)
    requires LogDeclared(t) && r < |t.log|
    ensures FinalLinks(t, r) <==> LinksTookIt(t, r)
  {
    assert ResolutionDeclared(t, t.log[r]);
    assert forall o :: o in Bearing(t, r) <==> o in t.links && t.links[o].resolution == r;
    assert forall p, o :: o in Owned(t, p) <==> o in t.links && t.links[o].person == p;
    if LinksTookIt(t, r) {
      assert forall o | o in t.named[r] :: o in Bearing(t, r) && o in Owned(t, t.log[r].retained);
      if t.log[r].action == MergePerson {
        assert forall o | o in t.links && t.links[o].person == t.log[r].prior.value :: o in Owned(t, t.log[r].prior.value);
      } else {
        assert forall o | o in t.links && t.links[o].person == t.log[r].retained :: o in Owned(t, t.log[r].retained);
      }
    }
  }

  /** A link resolution has source-observation evidence of its person for each observation, resting on it. */
  ghost predicate EvidenceOfIt(t: Tables, r: nat)
    requires r < |t.log| && r < |t.named|
  {
    t.log[r].action == LinkObservation ==>
      forall o | o in t.named[r] ::
        && SourceOf(o) in t.evidence
        && t.evidence[SourceOf(o)].person == t.log[r].retained && t.evidence[SourceOf(o)].authority == SourceObservation
        && o in CitedBy(t, SourceOf(o))
  }

  // ----- what the whole tables must show ---------------------------------------------------------

  /** Evidence, affiliations and participants rest on what their own person owns, and aliases follow the links. */
  ghost predicate DependentsOwned(t: Tables) {
    && (forall e | e in t.evidence :: CitedBy(t, e) <= Owned(t, t.evidence[e].person))
    && (forall f | f in t.affiliations :: t.affiliations[f].observation in Owned(t, t.affiliations[f].person))
    && AliasesFollowLinks(t)
    && SupportOwned(t)
  }

  /** A linked observation with a name has its owner's alias of that name; one without has no alias of its owner. */
  ghost predicate AliasesFollowLinks(t: Tables) {
    && (forall o | o in t.links && Called(t, o) ::
          && o in t.aliases && t.aliases[o].person == t.links[o].person
          && Some(t.aliases[o].value) == t.observations[o].name)
    && (forall o | o in t.links && o in t.observations && !Called(t, o) && o in t.aliases ::
          t.aliases[o].person != t.links[o].person)
  }

  /** The observation carries a name with something in it. */
  ghost predicate Called(t: Tables, o: ObservationId) {
    o in t.observations && t.observations[o].name.Some? && exists c | c in t.observations[o].name.value :: c != ' '
  }

  ghost predicate SupportOwned(t: Tables) {
    forall p | p in t.participants && t.participants[p].person.Some? ::
      Supporting(t, p) <= Owned(t, t.participants[p].person.value)
  }

  /** Every link rests on the last naming of its observation, and on its person. */
  ghost predicate LinksCurrent(t: Tables) {
    forall o | o in t.links ::
      && NamedLast(t, o)
      && t.links[o].resolution < |t.log| && t.links[o].resolution < |t.named|
      && o in t.named[t.links[o].resolution]
      && t.links[o].person == t.log[t.links[o].resolution].retained
  }

  /** Every participant is supported, and by its own person's observations once it is resolved. */
  ghost predicate ParticipantsHold(t: Tables) {
    (forall p | p in t.participants :: Supporting(t, p) != {}) && SupportOwned(t)
  }

  /** What supports a participant known by a mention comes from that mention's source version. */
  ghost predicate MentionsHold(t: Tables) {
    forall s, m | s in t.support && s.0 in t.participants && t.participants[s.0].mention == Some(m) && m in t.mentions ::
      s.1 in t.observations && t.mentions[m] == t.observations[s.1].source
  }

  lemma DeclaredMentionsHold(t: Tables)
    requires SupportDeclared(t)
    ensures MentionsHold(t)
  {
  }

  lemma EvidenceOfItIff(t: Tables, r: nat)
    requires LogDeclared(t) && r < |t.log|
    ensures SourceEvidence(t, r) <==> EvidenceOfIt(t, r)
  {
    forall o ensures (SourceOf(o), o) in t.citations <==> o in CitedBy(t, SourceOf(o)) {
    }
  }

  lemma EvidenceOwnedIff(t: Tables)
    requires EvidenceDeclared(t)
    ensures EvidenceFollows(t) <==> forall e | e in t.evidence :: CitedBy(t, e) <= Owned(t, t.evidence[e].person)
  {
    if EvidenceFollows(t) {
      forall e, o | e in t.evidence && o in CitedBy(t, e) ensures o in Owned(t, t.evidence[e].person) {
        assert (e, o) in t.citations;
      }
    }
    if forall e | e in t.evidence :: CitedBy(t, e) <= Owned(t, t.evidence[e].person) {
      forall c | c in t.citations ensures OwnedBy(t, c.1, t.evidence[c.0].person) {
        assert c == (c.0, c.1) && c.1 in CitedBy(t, c.0);
        assert c.1 in Owned(t, t.evidence[c.0].person);
      }
    }
  }

  lemma SupportOwnedIff(t: Tables)
    ensures ResolvedSupportFollows(t) <==> SupportOwned(t)
  {
    if ResolvedSupportFollows(t) {
      forall p, o | p in t.participants && t.participants[p].person.Some? && o in Supporting(t, p)
        ensures o in Owned(t, t.participants[p].person.value)
      {
        assert (p, o) in t.support;
      }
    }
    if SupportOwned(t) {
      forall s | s in t.support && s.0 in t.participants && t.participants[s.0].person.Some?
        ensures OwnedBy(t, s.1, t.participants[s.0].person.value)
      {
        assert s == (s.0, s.1) && s.1 in Supporting(t, s.0);
        assert s.1 in Owned(t, t.participants[s.0].person.value);
      }
    }
  }

  lemma CalledIff(t: Tables, o: ObservationId)
    requires o in t.observations
    ensures HasName(t.observations[o]) <==> Called(t, o)
  {
    if t.observations[o].name.Some? {
      NonBlankIff(t.observations[o].name.value);
    }
  }

  lemma AliasesFollowIff(t: Tables)
    ensures AliasesFollow(t) <==> AliasesFollowLinks(t)
  {
    forall o | o in t.observations ensures HasName(t.observations[o]) <==> Called(t, o) {
      CalledIff(t, o);
    }
  }

  lemma DependentsOwnedIff(t: Tables)
    requires Declared(t)
    ensures DependentsFollow(t) <==> DependentsOwned(t)
  {
    EvidenceOwnedIff(t);
    AliasesFollowIff(t);
    SupportOwnedIff(t);
  }

  lemma LinksCurrentIff(t: Tables)
    requires |t.log| == |t.named|
    ensures LinksAreLatest(t) <==> LinksCurrent(t)
  {
  }

  lemma ParticipantsHoldIff(t: Tables)
    ensures ParticipantsSupported(t) <==> ParticipantsHold(t) && MentionsHold(t)
  {
    SupportOwnedIff(t);
    forall p | p in t.participants ensures (exists s | s in t.support :: s.0 == p) <==> Supporting(t, p) != {} {
      if s :| s in t.support && s.0 == p {
        assert s.1 in Supporting(t, p);
      }
      if o :| o in Supporting(t, p) {
        assert (p, o) in t.support && (p, o).0 == p;
      }
    }
  }

  // ----- the commit accepts exactly what settles ------------------------------------------------

  /** The resolution names just what its case put under review, and that is something. */
  ghost predicate NamesTheReviewed(t: Tables, r: nat)
    requires r < |t.log| && r < |t.named|
  {
    && t.log[r].reviewCase in t.cases
    && var k := t.cases[t.log[r].reviewCase].candidates;
    && k in t.candidates && t.candidates[k].observations == t.named[r]
    && exists o :: o in t.named[r]
  }

  ghost predicate TakesHold(t: Tables, r: nat)
    requires r < |t.log| && r < |t.named|
  {
    PeopleTookIt(t, r) && LinksTookIt(t, r) && EvidenceOfIt(t, r) && DependentsOwned(t) && LinksCurrent(t)
  }

  /** The person's row cites a link or a split that retains it. */
  ghost predicate Introduced(t: Tables, p: PersonId)
    requires p in t.people
  {
    exists r | 0 <= r < |t.log| ::
      t.people[p].state == Some(r) && t.log[r].retained == p && t.log[r].action in {LinkObservation, SplitPerson}
  }

  /** Every resolution from position `from` on names what was reviewed, and is handed on or takes hold. */
  ghost predicate ResolutionsHold(from: nat, t: Tables)
    requires |t.log| == |t.named|
  {
    forall r | from <= r < |t.log| :: NamesTheReviewed(t, r) && (HandedOn(t, r) || TakesHold(t, r))
  }

  /** What a transaction from `a` to `b` has to have settled. */
  ghost predicate Settled(a: Tables, b: Tables)
    requires |b.log| == |b.named|
  {
    && ResolutionsHold(|a.log|, b)
    && (forall p | p in b.people && p !in a.people :: Introduced(b, p))
    && ParticipantsHold(b) && MentionsHold(b)
  }

  lemma ExactIff(t: Tables, r: nat)
    requires r < |t.log| && r < |t.named|
    ensures ExactObservations(t, r) <==> NamesTheReviewed(t, r)
  {
  }

  lemma CompleteIff(t: Tables, r: nat)
    requires Declared(t) && r < |t.log|
    ensures CompleteFinalState(t, r) <==> HandedOn(t, r) || TakesHold(t, r)
  {
    HandedOnIff(t, r);
    FinalPeopleIff(t, r);
    FinalLinksIff(t, r);
    EvidenceOfItIff(t, r);
    DependentsOwnedIff(t);
    LinksCurrentIff(t);
  }

  lemma IntroducedIff(t: Tables, p: PersonId)
    requires p in t.people
    ensures CanonicalPerson(t, p) <==> Introduced(t, p)
  {
  }

  lemma ResolutionHoldsIff(t: Tables, r: nat)
    requires Declared(t) && r < |t.log|
    ensures ExactObservations(t, r) && CompleteFinalState(t, r)
            <==> NamesTheReviewed(t, r) && (HandedOn(t, r) || TakesHold(t, r))
  {
    ExactIff(t, r);
    CompleteIff(t, r);
  }

  lemma ResolutionsHoldIff(from: nat, t: Tables)
    requires Declared(t)
    ensures ResolutionsSettled(from, t) <==> ResolutionsHold(from, t)
  {
    forall r | from <= r < |t.log|
      ensures ExactObservations(t, r) && CompleteFinalState(t, r)
              <==> NamesTheReviewed(t, r) && (HandedOn(t, r) || TakesHold(t, r))
    {
      ResolutionHoldsIff(t, r);
    }
  }

  lemma CommitAcceptsIff(a: Tables, b: Tables)
    requires Declared(b)
    ensures CommitAccepts(a, b, true) <==> Settled(a, b)
  {
    ResolutionsHoldIff(|a.log|, b);
    forall p | p in b.people ensures CanonicalPerson(b, p) <==> Introduced(b, p) {
      IntroducedIff(b, p);
    }
    ParticipantsHoldIff(b);
  }

  // ----- over a run ----------------------------------------------------------------------------------

  lemma {:induction false} RunKeepsDeclared(t: Tables, steps: seq<Step>)
    requires Declared(t) && Run(t, steps).Some?
    ensures Declared(Run(t, steps).value)
    decreases |steps|
  {
    if steps != [] {
      AcceptedIff(t, steps[0]);
      RunKeepsDeclared(Effect(t, steps[0]), steps[1..]);
    }
  }

  lemma {:induction false} UntouchedHold(t: Tables, steps: seq<Step>)
    requires |t.log| == |t.named| && Run(t, steps).Some? && !Touched(steps) && ParticipantsHold(t)
    ensures ParticipantsHold(Run(t, steps).value)
    decreases |steps|
  {
    if steps != [] {
      TouchedSplits(steps);
      UntouchedStepHolds(t, steps[0]);
      UntouchedHold(Effect(t, steps[0]), steps[1..]);
    }
  }

  lemma UntouchedStepHolds(t: Tables, s: Step)
    requires !TouchesParticipants(s) && ParticipantsHold(t)
    ensures ParticipantsHold(Effect(t, s))
  {
    var u := Effect(t, s);
    assert u.participants == t.participants && u.support == t.support && u.links == t.links;
    forall p ensures Supporting(u, p) == Supporting(t, p) && forall q :: Owned(u, q) == Owned(t, q) {
    }
  }

  /** A transaction whose statements all ran commits exactly when it leaves what it resolved settled. */
  lemma CommitsIff(t: Tables, steps: seq<Step>)
    requires Declared(t) && ParticipantsHold(t) && Run(t, steps).Some?
    ensures |Run(t, steps).value.log| == |Run(t, steps).value.named|
    ensures Commits(t, steps) <==> Settled(t, Run(t, steps).value)
  {
    var u := Run(t, steps).value;
    RunKeepsDeclared(t, steps);
    CommitAcceptsIff(t, u);
    ParticipantsHoldIff(u);
    if !Touched(steps) {
      DeclaredMentionsHold(u);
      UntouchedHold(t, steps);
    }
  }

  /** Whatever a committing transaction resolves names just what was put under review. */
  lemma CommitNamesTheReviewed(t: Tables, steps: seq<Step>)
    requires |t.log| == |t.named| && Commits(t, steps)
    ensures var u := Transact(t, steps); forall r | |t.log| <= r < |u.log| :: NamesTheReviewed(u, r)
  {
    var u := Transact(t, steps);
    forall r | |t.log| <= r < |u.log| ensures NamesTheReviewed(u, r) {
      ExactIff(u, r);
    }
  }
}
