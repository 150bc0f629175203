/**
 One SQL statement against the identity plane: which rows the `BEFORE` row
 triggers, CHECKs, unique keys and foreign keys let through, and what an admitted
 statement writes.
 */
module IdentityGuards {
  import opened Options
  import opened IdentityTables

  datatype Step =
    | RecordObservation(observation: ObservationId, row: Observation)
    | RecordMention(mention: MentionId, source: SourceVersion)
    | OpenSet(set_: SetId, kind: CandidateKind)
    | AddPersonCandidate(set_: SetId, person: PersonId)
    | AddObservationCandidate(set_: SetId, observation: ObservationId)
    | OpenCase(reviewCase: CaseId, review: ReviewCase)
    | Decide(decision: DecisionId, ruling: Decision)
    | InsertPerson(person: PersonId, supersededBy: Option<PersonId>, state: Option<nat>)
    | UpdatePerson(person: PersonId, supersededBy: Option<PersonId>, state: Option<nat>)
    | Resolve(resolution: Resolution)
    | NameObservation(position: nat, observation: ObservationId)
    | WriteLink(observation: ObservationId, person: PersonId, position: nat)
    | RekeyLink(observation: ObservationId, onto: ObservationId, person: PersonId, position: nat)
    | InsertAlias(observation: ObservationId, alias: Alias)
    | MoveAlias(observation: ObservationId, person: PersonId)
    | InsertAffiliation(affiliation: AffiliationId, person: PersonId, observation: ObservationId)
    | MoveAffiliation(affiliation: AffiliationId, person: PersonId)
    | InsertEvidence(evidence: EvidenceId, item: Evidence)
    | MoveEvidence(evidence: EvidenceId, person: PersonId)
    | Cite(evidence: EvidenceId, observation: ObservationId)
    | InsertParticipant(participant: ParticipantId, entry: Participant)
    | MoveParticipant(participant: ParticipantId, person: PersonId)
    | SupportParticipant(participant: ParticipantId, observation: ObservationId)

  // ----- row guards -----------------------------------------------------------------

  /** `identity_review_has_honest_candidate_set`, with the case's own CHECKs and unique key. */
  predicate HonestCase(t: Tables, c: ReviewCase) {
    && c.candidates in t.candidates
    && (forall k | k in t.cases :: t.cases[k].candidates != c.candidates)
    && (c.retained.Some? ==> c.retained.value in t.people)
    && (c.prior.Some? ==> c.prior.value in t.people)
    && (c.action != LinkObservation) == (c.retained.Some? && c.prior.Some?)
    && (c.retained.None? || c.retained != c.prior)
    && var s := t.candidates[c.candidates];
    && |s.people| + |s.observations| >= 1
    && (c.action != LinkObservation ==>
          && s.kind == Duplicate
          && |s.people| + |s.observations| >= 2
          && s.people == {c.retained.value, c.prior.value})
  }

  /** `identity_resolution_is_reviewed`. */
  predicate Reviewed(t: Tables, r: Resolution) {
    && r.reviewCase in t.cases
    && r.decision in t.decisions
    && var c := t.cases[r.reviewCase];
    && var d := t.decisions[r.decision];
    && d.reviewCase == r.reviewCase
    && d.disposition == Accept
    && (forall k | k in t.decisions :: t.decisions[k].reviewCase == r.reviewCase ==> t.decisions[k].sequence <= d.sequence)
    && c.action == r.action
    && (r.action == LinkObservation || (c.retained == Some(r.retained) && c.prior == r.prior))
  }

  predicate ResolutionRow(t: Tables, r: Resolution) {
    && r.retained in t.people
    && (r.prior.Some? ==> r.prior.value in t.people)
    && (r.action == LinkObservation) == r.prior.None?
    && r.prior != Some(r.retained)
    && forall k | 0 <= k < |t.log| :: t.log[k].decision != r.decision
  }

  /** The foreign keys and the two unique keys of `relationship_people`. */
  predicate PersonRow(t: Tables, p: PersonId, row: Person) {
    && (row.supersededBy.Some? ==>
          && row.supersededBy.value in t.people.Keys + {p}
          && forall q | q in t.people && q != p :: t.people[q].supersededBy != row.supersededBy)
    && (row.state.Some? ==>
          && row.state.value < |t.log|
          && forall q | q in t.people && q != p :: t.people[q].state != row.state)
  }

  /** `person_merge_is_reviewed`: `was` becomes `row`. */
  predicate PersonChange(t: Tables, p: PersonId, was: Person, row: Person) {
    && row.state.Some?
    && row.state.value < |t.log|
    && var r := t.log[row.state.value];
    if was.state.None? then
      && row.supersededBy == was.supersededBy
      && r.action == LinkObservation
      && r.retained == p
    else
      && row.state != was.state
      && row.supersededBy != was.supersededBy
      && LatestOfPair(t, row.state.value)
      && (|| (r.action == MergePerson && Some(r.retained) == row.supersededBy && r.prior == Some(p))
          || (r.action == SplitPerson && r.retained == p && r.prior == was.supersededBy && row.supersededBy.None?))
  }

  /** `observation_link_is_current_resolution` for INSERT and UPDATE. */
  predicate CurrentLink(t: Tables, o: ObservationId, p: PersonId, r: nat) {
    && r < |t.log|
    && t.log[r].retained == p
    && LatestNaming(t, r, o)
  }

  /** `relationship_alias_matches_observation`. */
  predicate AliasMatches(t: Tables, o: ObservationId, a: Alias) {
    && o in t.observations
    && HasName(t.observations[o])
    && t.observations[o].name == Some(a.value)
    && OwnedBy(t, o, a.person)
  }

  /** The person a correction moves a dependent row to, given the observations it rests on. */
  predicate MovedBy(t: Tables, from: PersonId, to: PersonId, on: set<ObservationId>) {
    && on != {}
    && exists r | 0 <= r < |t.log| ::
         && IsCorrection(t.log[r])
         && t.log[r].prior == Some(from)
         && t.log[r].retained == to
         && forall o | o in on :: o in t.links && t.links[o] == Link(to, r)
  }

  function CitedBy(t: Tables, e: EvidenceId): set<ObservationId> {
    set c | c in t.citations && c.0 == e :: c.1
  }

  function Supporting(t: Tables, p: ParticipantId): set<ObservationId> {
    set s | s in t.support && s.0 == p :: s.1
  }

  predicate ParticipantRow(t: Tables, p: ParticipantId, row: Participant) {
    && row.person.None? != row.mention.None?
    && (row.person.Some? ==> row.person.value in t.people)
    && (row.mention.Some? ==> row.mention.value in t.mentions)
    && forall q | q in t.participants && q != p && t.participants[q].conversation == row.conversation ::
         && (row.person.Some? ==> t.participants[q].person != row.person)
         && (row.mention.Some? ==> t.participants[q].mention != row.mention)
  }

  /** `conversation_support_matches_participant` for INSERT. */
  predicate SupportMatches(t: Tables, p: Participant, o: ObservationId) {
    && o in t.observations
    && (p.person.Some? ==> OwnedBy(t, o, p.person.value))
    && (p.mention.Some? ==> p.mention.value in t.mentions && t.mentions[p.mention.value] == t.observations[o].source)
  }

  predicate Admits(t: Tables, s: Step) {
    match s
    case RecordObservation(o, row) =>
      && o !in t.observations
      && forall k | k in t.observations :: !(t.observations[k].origin == row.origin && t.observations[k].source == row.source)
    case RecordMention(m, _) => m !in t.mentions
    case OpenSet(k, _) => k !in t.candidates
    case AddPersonCandidate(k, p) => k in t.candidates && p in t.people && p !in t.candidates[k].people
    case AddObservationCandidate(k, o) =>
      k in t.candidates && o in t.observations && o !in t.candidates[k].observations
    case OpenCase(k, c) => k !in t.cases && HonestCase(t, c)
    case Decide(k, d) =>
      && k !in t.decisions
      && d.reviewCase in t.cases
      && d.sequence >= 1
      && forall e | e in t.decisions :: !(t.decisions[e].reviewCase == d.reviewCase && t.decisions[e].sequence == d.sequence)
    case InsertPerson(p, q, r) => p !in t.people && PersonRow(t, p, Person(q, r))
    case UpdatePerson(p, q, r) =>
      p in t.people && PersonRow(t, p, Person(q, r)) && PersonChange(t, p, t.people[p], Person(q, r))
    case Resolve(r) => ResolutionRow(t, r) && Reviewed(t, r)
    case NameObservation(r, o) => r < |t.named| && o in t.observations && o !in t.named[r]
    case WriteLink(o, p, r) => CurrentLink(t, o, p, r)
    case RekeyLink(o, onto, p, r) => o in t.links && onto !in t.links && CurrentLink(t, onto, p, r)
    case InsertAlias(o, a) =>
      && o !in t.aliases
      && (forall k | k in t.aliases :: t.aliases[k].id != a.id)
      && AliasMatches(t, o, a)
    case MoveAlias(o, p) => o in t.aliases && AliasMatches(t, o, t.aliases[o].(person := p))
    case InsertAffiliation(f, p, o) => f !in t.affiliations && OwnedBy(t, o, p)
    case MoveAffiliation(f, p) => f in t.affiliations && OwnedBy(t, t.affiliations[f].observation, p)
    case InsertEvidence(e, item) => e !in t.evidence && item.person in t.people
    case MoveEvidence(e, p) =>
      && e in t.evidence
      && p in t.people
      && (t.evidence[e].person == p || MovedBy(t, t.evidence[e].person, p, CitedBy(t, e)))
    case Cite(e, o) => e in t.evidence && o in t.observations && (e, o) !in t.citations
    case InsertParticipant(p, row) => p !in t.participants && ParticipantRow(t, p, row)
    case MoveParticipant(p, to) =>
      && p in t.participants
      && var was := t.participants[p];
      && ParticipantRow(t, p, was.(person := Some(to)))
      && (|| was.person == Some(to)
          || (was.person.Some? && MovedBy(t, was.person.value, to, Supporting(t, p))))
    case SupportParticipant(p, o) =>
      p in t.participants && (p, o) !in t.support && SupportMatches(t, t.participants[p], o)
  }

  // ----- what a statement writes, table by table ---------------------------------

  function CandidatesAfter(t: Tables, s: Step): map<SetId, CandidateSet> {
    match s
    case OpenSet(k, kind) => t.candidates[k := CandidateSet(kind, {}, {})]
    case AddPersonCandidate(k, p) =>
      if k in t.candidates then t.candidates[k := t.candidates[k].(people := t.candidates[k].people + {p})] else t.candidates
    case AddObservationCandidate(k, o) =>
      if k in t.candidates
      then t.candidates[k := t.candidates[k].(observations := t.candidates[k].observations + {o})]
      else t.candidates
    case _ => t.candidates
  }

  function PeopleAfter(t: Tables, s: Step): map<PersonId, Person> {
    if s.InsertPerson? || s.UpdatePerson? then t.people[s.person := Person(s.supersededBy, s.state)] else t.people
  }

  function LogAfter(t: Tables, s: Step): seq<Resolution> {
    if s.Resolve? then t.log + [s.resolution] else t.log
  }

  function NamedAfter(t: Tables, s: Step): seq<set<ObservationId>> {
    if s.Resolve? then t.named + [{}]
    else if s.NameObservation? && s.position < |t.named| then
      t.named[s.position := t.named[s.position] + {s.observation}]
    else t.named
  }

  function LinksAfter(t: Tables, s: Step): map<ObservationId, Link> {
    if s.WriteLink? then t.links[s.observation := Link(s.person, s.position)]
    else if s.RekeyLink? then (t.links - {s.observation})[s.onto := Link(s.person, s.position)]
    else t.links
  }

  function AliasesAfter(t: Tables, s: Step): map<ObservationId, Alias> {
    if s.InsertAlias? then t.aliases[s.observation := s.alias]
    else if s.MoveAlias? && s.observation in t.aliases then
      t.aliases[s.observation := t.aliases[s.observation].(person := s.person)]
    else t.aliases
  }

  function AffiliationsAfter(t: Tables, s: Step): map<AffiliationId, Affiliation> {
    if s.InsertAffiliation? then t.affiliations[s.affiliation := Affiliation(s.person, s.observation)]
    else if s.MoveAffiliation? && s.affiliation in t.affiliations then
      t.affiliations[s.affiliation := t.affiliations[s.affiliation].(person := s.person)]
    else t.affiliations
  }

  function EvidenceAfter(t: Tables, s: Step): map<EvidenceId, Evidence> {
    if s.InsertEvidence? then t.evidence[s.evidence := s.item]
    else if s.MoveEvidence? && s.evidence in t.evidence then
      t.evidence[s.evidence := t.evidence[s.evidence].(person := s.person)]
    else t.evidence
  }

  function ParticipantsAfter(t: Tables, s: Step): map<ParticipantId, Participant> {
    if s.InsertParticipant? then t.participants[s.participant := s.entry]
    else if s.MoveParticipant? && s.participant in t.participants then
      t.participants[s.participant := t.participants[s.participant].(person := Some(s.person))]
    else t.participants
  }

  /** The tables with the statement's row written, whatever the guards say. */
  function Effect(t: Tables, s: Step): (r: Tables)
    ensures |t.log| == |t.named| ==> |r.log| == |r.named|
  {
    Tables(
      observations := if s.RecordObservation? then t.observations[s.observation := s.row] else t.observations,
      mentions := if s.RecordMention? then t.mentions[s.mention := s.source] else t.mentions,
      candidates := CandidatesAfter(t, s),
      cases := if s.OpenCase? then t.cases[s.reviewCase := s.review] else t.cases,
      decisions := if s.Decide? then t.decisions[s.decision := s.ruling] else t.decisions,
      people := PeopleAfter(t, s),
      log := LogAfter(t, s),
      named := NamedAfter(t, s),
      links := LinksAfter(t, s),
      aliases := AliasesAfter(t, s),
      affiliations := AffiliationsAfter(t, s),
      evidence := EvidenceAfter(t, s),
      citations := if s.Cite? then t.citations + {(s.evidence, s.observation)} else t.citations,
      participants := ParticipantsAfter(t, s),
      support := if s.SupportParticipant? then t.support + {(s.participant, s.observation)} else t.support)
  }

  /** The statements that queue the deferred participant check. */
  predicate TouchesParticipants(s: Step) {
    || s.WriteLink? || s.RekeyLink?
    || s.InsertParticipant? || s.MoveParticipant? || s.SupportParticipant?
  }
}
