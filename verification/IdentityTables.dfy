/**
 The tables of the relationship identity plane, as one snapshot value.

 A resolution is identified by its position in `log`, so `resolution_id` and the
 `resolution_sequence` identity column are the same number, and `named[r]` holds
 the rows of `relationship_resolution_observations` that carry resolution `r`.
 */
module IdentityTables {
  import opened Options

  datatype PersonId = Per(n: nat)
  datatype ObservationId = Obs(n: nat)
  datatype MentionId = Mention(n: nat)
  datatype SetId = Set(n: nat)
  datatype CaseId = Case(n: nat)
  datatype DecisionId = Dec(n: nat)
  datatype AliasId = AliasKey(n: nat)
  datatype AffiliationId = AffiliationKey(n: nat)
  datatype EvidenceId = SourceOf(observation: ObservationId) | OtherEvidence(n: nat)
  datatype ParticipantId = Part(n: nat)
  datatype ConversationId = Conv(n: nat)
  datatype SourceId = Origin(n: nat)
  datatype SourceVersion = Source(n: nat)

  datatype Action = LinkObservation | MergePerson | SplitPerson
  datatype Disposition = Accept | Defer | Reject
  datatype CandidateKind = IdentityResolution | Duplicate
  datatype Authority = SourceObservation | OtherAuthority(n: nat)

  datatype Observation = Observation(name: Option<string>, origin: SourceId, source: SourceVersion)
  datatype CandidateSet =
    CandidateSet(kind: CandidateKind, people: set<PersonId>, observations: set<ObservationId>)
  datatype ReviewCase =
    ReviewCase(candidates: SetId, action: Action, retained: Option<PersonId>, prior: Option<PersonId>)
  datatype Decision = Decision(reviewCase: CaseId, sequence: nat, disposition: Disposition)
  datatype Resolution =
    Resolution(action: Action, reviewCase: CaseId, decision: DecisionId,
               retained: PersonId, prior: Option<PersonId>)
  datatype Person = Person(supersededBy: Option<PersonId>, state: Option<nat>)
  datatype Link = Link(person: PersonId, resolution: nat)
  datatype Alias = Alias(id: AliasId, person: PersonId, value: string)
  datatype Affiliation = Affiliation(person: PersonId, observation: ObservationId)
  datatype Evidence = Evidence(person: PersonId, authority: Authority)
  datatype Participant =
    Participant(conversation: ConversationId, person: Option<PersonId>, mention: Option<MentionId>)

  datatype Tables = Tables(
    observations: map<ObservationId, Observation>,
    mentions: map<MentionId, SourceVersion>,
    candidates: map<SetId, CandidateSet>,
    cases: map<CaseId, ReviewCase>,
    decisions: map<DecisionId, Decision>,
    people: map<PersonId, Person>,
    log: seq<Resolution>,
    named: seq<set<ObservationId>>,
    links: map<ObservationId, Link>,
    aliases: map<ObservationId, Alias>,
    affiliations: map<AffiliationId, Affiliation>,
    evidence: map<EvidenceId, Evidence>,
    citations: set<(EvidenceId, ObservationId)>,
    participants: map<ParticipantId, Participant>,
    support: set<(ParticipantId, ObservationId)>)

  const EMPTY: Tables :=
    Tables(map[], map[], map[], map[], map[], map[], [], [], map[], map[], map[], map[], {}, map[], {})

  /** `length(trim(name)) > 0`: SQL `trim` removes spaces and nothing else. */
  predicate NonBlank(name: string) {
    exists i | 0 <= i < |name| :: name[i] != ' '
  }

  predicate HasName(o: Observation) {
    o.name.Some? && NonBlank(o.name.value)
  }

  predicate IsCorrection(r: Resolution) {
    r.action != LinkObservation
  }

  predicate SamePair(r: Resolution, s: Resolution) {
    && r.prior.Some? && s.prior.Some?
    && (|| (r.retained == s.retained && r.prior == s.prior)
        || (r.retained == s.prior.value && r.prior.value == s.retained))
  }

  predicate Involves(r: Resolution, p: PersonId) {
    IsCorrection(r) && (r.retained == p || r.prior == Some(p))
  }

  /** `r` carries the highest sequence of its unordered pair of people. */
  predicate LatestOfPair(t: Tables, r: nat)
    requires r < |t.log|
  {
    && t.log[r].prior.Some?
    && forall s | 0 <= s < |t.log| :: SamePair(t.log[s], t.log[r]) ==> s <= r
  }

  /** `r` names `o` and no later resolution does. */
  predicate LatestNaming(t: Tables, r: nat, o: ObservationId) {
    && r < |t.named|
    && o in t.named[r]
    && forall s | 0 <= s < |t.named| :: o in t.named[s] ==> s <= r
  }

  predicate OwnedBy(t: Tables, o: ObservationId, p: PersonId) {
    o in t.links && t.links[o].person == p
  }

  function Owned(t: Tables, p: PersonId): set<ObservationId> {
    set o | o in t.links && t.links[o].person == p
  }
}
