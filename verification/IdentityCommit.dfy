/** The `DEFERRABLE INITIALLY DEFERRED` checks of the identity plane, run at commit. */
module IdentityCommit {
  import opened Options
  import opened IdentityTables
  import opened IdentityGuards

  /** `identity_resolution_has_exact_observations`. */
  predicate ExactObservations(t: Tables, r: nat)
    requires r < |t.log| && r < |t.named|
  {
    && t.log[r].reviewCase in t.cases
    && t.cases[t.log[r].reviewCase].candidates in t.candidates
    && t.named[r] == t.candidates[t.cases[t.log[r].reviewCase].candidates].observations
    && t.named[r] != {}
  }

  // ----- identity_correction_has_complete_final_state -----------------------------------

  /** `later` is the last correction touching the linked person and names the same observations. */
  predicate LinkYieldsTo(t: Tables, r: nat, later: nat)
    requires r < |t.log| == |t.named|
  {
    && r < later < |t.log|
    && Involves(t.log[later], t.log[r].retained)
    && (forall s | 0 <= s < |t.log| :: Involves(t.log[s], t.log[r].retained) ==> s <= later)
    && t.named[later] == t.named[r]
  }

  /** `later` is the exact inverse of the correction `r`, last of its pair, and fully linked. */
  predicate CorrectionYieldsTo(t: Tables, r: nat, later: nat)
    requires r < |t.log| == |t.named|
  {
    && r < later < |t.log|
    && IsCorrection(t.log[r])
    && t.log[later].action == (if t.log[r].action == MergePerson then SplitPerson else MergePerson)
    && Some(t.log[later].retained) == t.log[r].prior
    && t.log[later].prior == Some(t.log[r].retained)
    && LatestOfPair(t, later)
    && t.named[later] == t.named[r]
    && forall o | o in t.named[r] :: o in t.links && t.links[o] == Link(t.log[later].retained, later)
  }

  predicate YieldsTo(t: Tables, r: nat, later: nat)
    requires r < |t.log| == |t.named|
  {
    if t.log[r].action == LinkObservation then LinkYieldsTo(t, r, later) else CorrectionYieldsTo(t, r, later)
  }

  /** The validator returns early because a later correction is left to validate. */
  predicate Skipped(t: Tables, r: nat)
    requires r < |t.log| == |t.named|
  {
    exists later | 0 <= later < |t.log| :: YieldsTo(t, r, later)
  }

  predicate FinalPeople(t: Tables, r: nat)
    requires r < |t.log|
  {
    var x := t.log[r];
    && x.retained in t.people
    && t.people[x.retained].supersededBy.None?
    && match x.action
       case LinkObservation => t.people[x.retained].state == Some(r)
       case MergePerson =>
         && x.prior.Some? && x.prior.value in t.people
         && t.people[x.prior.value] == Person(Some(x.retained), Some(r))
       case SplitPerson =>
         && x.prior.Some? && x.prior.value in t.people
         && t.people[x.prior.value].supersededBy.None?
         && t.people[x.retained].state == Some(r)
  }

  predicate FinalLinks(t: Tables, r: nat)
    requires r < |t.log| == |t.named|
  {
    var x := t.log[r];
    && (forall o | o in t.named[r] :: o in t.links && t.links[o] == Link(x.retained, r))
    && (forall o | o in t.links :: t.links[o].resolution == r ==> o in t.named[r])
    && match x.action
       case MergePerson => forall o | o in t.links :: Some(t.links[o].person) != x.prior
       case _ => forall o | o in t.links :: t.links[o].person == x.retained ==> o in t.named[r]
  }

  /** Every evidence item rests on observations its own person owns. */
  predicate EvidenceFollows(t: Tables) {
    forall c | c in t.citations :: c.0 in t.evidence ==> OwnedBy(t, c.1, t.evidence[c.0].person)
  }

  /** `a` is the alias the link of `o` calls for. */
  predicate AliasOf(t: Tables, o: ObservationId, a: Alias)
    requires o in t.links && o in t.observations
  {
    a.person == t.links[o].person && Some(a.value) == t.observations[o].name
  }

  predicate AliasesFollow(t: Tables) {
    forall o | o in t.links && o in t.observations ::
      && (HasName(t.observations[o]) ==> o in t.aliases && AliasOf(t, o, t.aliases[o]))
      && (!HasName(t.observations[o]) ==> !(o in t.aliases && t.aliases[o].person == t.links[o].person))
  }

  predicate AffiliationsFollow(t: Tables) {
    forall f | f in t.affiliations :: OwnedBy(t, t.affiliations[f].observation, t.affiliations[f].person)
  }

  predicate ResolvedSupportFollows(t: Tables) {
    forall s | s in t.support ::
      s.0 in t.participants && t.participants[s.0].person.Some? ==>
        OwnedBy(t, s.1, t.participants[s.0].person.value)
  }

  predicate DependentsFollow(t: Tables) {
    EvidenceFollows(t) && AliasesFollow(t) && AffiliationsFollow(t) && ResolvedSupportFollows(t)
  }

  /** A link resolution leaves source-observation evidence behind for everything it names. */
  predicate SourceEvidence(t: Tables, r: nat)
    requires r < |t.log| == |t.named|
  {
    t.log[r].action == LinkObservation ==>
      forall o | o in t.named[r] ::
        && SourceOf(o) in t.evidence
        && t.evidence[SourceOf(o)] == Evidence(t.log[r].retained, SourceObservation)
        && (SourceOf(o), o) in t.citations
  }

  predicate LinksAreLatest(t: Tables)
    requires |t.log| == |t.named|
  {
    forall o | o in t.links ::
      && LatestNaming(t, t.links[o].resolution, o)
      && t.log[t.links[o].resolution].retained == t.links[o].person
  }

  predicate CompleteFinalState(t: Tables, r: nat)
    requires r < |t.log| == |t.named|
  {
    || Skipped(t, r)
    || (FinalPeople(t, r) && FinalLinks(t, r) && DependentsFollow(t) && SourceEvidence(t, r) && LinksAreLatest(t))
  }

  // ----- the other deferred checks --------------------------------------------------------

  /** `canonical_person_is_reviewed`. */
  predicate CanonicalPerson(t: Tables, p: PersonId)
    requires p in t.people
  {
    && t.people[p].state.Some?
    && t.people[p].state.value < |t.log|
    && t.log[t.people[p].state.value].retained == p
    && t.log[t.people[p].state.value].action != MergePerson
  }

  /** `conversation_participant_state_is_valid`. */
  predicate ParticipantsSupported(t: Tables) {
    && (forall p | p in t.participants :: exists s | s in t.support :: s.0 == p)
    && ResolvedSupportFollows(t)
    && forall s | s in t.support ::
         s.0 in t.participants && t.participants[s.0].mention.Some?
         && t.participants[s.0].mention.value in t.mentions ==>
           s.1 in t.observations && t.observations[s.1].source == t.mentions[t.participants[s.0].mention.value]
  }

  predicate ResolutionsSettled(from: nat, t: Tables)
    requires |t.log| == |t.named|
  {
    forall r | from <= r < |t.log| :: ExactObservations(t, r) && CompleteFinalState(t, r)
  }

  /** Every queued constraint trigger of a transaction that took `a` to `b` returns. */
  predicate CommitAccepts(a: Tables, b: Tables, touched: bool)
    requires |b.log| == |b.named|
  {
    && ResolutionsSettled(|a.log|, b)
    && (forall p | p in b.people :: p !in a.people ==> CanonicalPerson(b, p))
    && (touched ==> ParticipantsSupported(b))
  }
}
