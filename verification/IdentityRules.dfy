/**
 The rules of the identity plane, column by column: what its tables hold at any
 time, what each statement must meet beyond that, and what a commit must meet. The
 guards and the deferred checks are shown to accept exactly what these rules allow.
 */
module IdentityRules {
  import opened Options
  import opened IdentityTables
  import opened IdentityGuards
  import opened IdentityCommit
  import opened IdentityInvariant

  // ----- what the tables hold at any time ---------------------------------------------------

  ghost predicate ObservationsDeclared(t: Tables) {
    forall o, k | o in t.observations && k in t.observations && o != k ::
      t.observations[o].origin == t.observations[k].origin ==> t.observations[o].source != t.observations[k].source
  }

  ghost predicate CandidatesDeclared(t: Tables) {
    forall k | k in t.candidates ::
      t.candidates[k].people <= t.people.Keys && t.candidates[k].observations <= t.observations.Keys
  }

  ghost predicate CaseDeclared(t: Tables, c: ReviewCase) {
    && c.candidates in t.candidates
    && (c.retained != None ==> c.retained.value in t.people && c.prior != c.retained)
    && (c.prior != None ==> c.prior.value in t.people)
    && (c.action == LinkObservation <==> c.retained == None || c.prior == None)
  }

  ghost predicate CasesDeclared(t: Tables) {
    && (forall k | k in t.cases :: CaseDeclared(t, t.cases[k]))
    && (forall k, l | k in t.cases && l in t.cases && k != l :: t.cases[k].candidates != t.cases[l].candidates)
  }

  ghost predicate DecisionsDeclared(t: Tables) {
    && (forall d | d in t.decisions :: t.decisions[d].reviewCase in t.cases && t.decisions[d].sequence > 0)
    && (forall d, e | d in t.decisions && e in t.decisions && d != e ::
          t.decisions[d].reviewCase == t.decisions[e].reviewCase ==> t.decisions[d].sequence != t.decisions[e].sequence)
  }

  /** A pointer and a state resolution exist, and no two people share either. */
  ghost predicate PeopleDeclared(t: Tables) {
    && (forall p | p in t.people ::
          && (t.people[p].supersededBy.Some? ==> t.people[p].supersededBy.value in t.people)
          && (t.people[p].state.Some? ==> t.people[p].state.value < |t.log|))
    && (forall p, q | p in t.people && q in t.people && p != q :: Apart(t.people[p], t.people[q]))
  }

  /** Neither pointer nor state is shared, unless it is NULL. */
  predicate Apart(x: Person, y: Person) {
    && (x.supersededBy != y.supersededBy || x.supersededBy == None)
    && (x.state != y.state || x.state == None)
  }

  /** A resolution does what its own case asked for, on an accepting decision of that case. */
  ghost predicate ResolutionDeclared(t: Tables, x: Resolution) {
    && x.retained in t.people
    && (x.prior != None ==> x.prior.value in t.people && x.prior.value != x.retained)
    && (x.prior == None <==> x.action == LinkObservation)
    && x.reviewCase in t.cases && x.decision in t.decisions
    && t.decisions[x.decision].reviewCase == x.reviewCase
    && t.decisions[x.decision].disposition == Accept
    && t.cases[x.reviewCase].action == x.action
    && (x.action in {MergePerson, SplitPerson} ==>
          t.cases[x.reviewCase].retained == Some(x.retained) && t.cases[x.reviewCase].prior == x.prior)
  }

  ghost predicate LogDeclared(t: Tables) {
    && |t.named| == |t.log|
    && (forall r | 0 <= r < |t.log| :: ResolutionDeclared(t, t.log[r]))
    && (forall r, s | 0 <= r < s < |t.log| :: t.log[r].decision != t.log[s].decision)
    && (forall r | 0 <= r < |t.named| :: t.named[r] <= t.observations.Keys)
  }

  /** A link rests on a resolution that names its observation and retains its person. */
  ghost predicate LinksDeclared(t: Tables) {
    forall o | o in t.links ::
      && t.links[o].resolution < |t.log| && t.links[o].resolution < |t.named|
      && o in t.named[t.links[o].resolution]
      && t.links[o].person == t.log[t.links[o].resolution].retained
  }

  ghost predicate AliasesDeclared(t: Tables) {
    && (forall o | o in t.aliases ::
          && o in t.observations && t.observations[o].name == Some(t.aliases[o].value)
          && (exists c | c in t.aliases[o].value :: c != ' ')
          && t.aliases[o].person in t.people)
    && (forall o, k | o in t.aliases && k in t.aliases && o != k :: t.aliases[o].id != t.aliases[k].id)
  }

  ghost predicate AffiliationsDeclared(t: Tables) {
    forall f | f in t.affiliations ::
      t.affiliations[f].person in t.people && t.affiliations[f].observation in t.observations
  }

  ghost predicate EvidenceDeclared(t: Tables) {
    && (forall e | e in t.evidence :: t.evidence[e].person in t.people)
    && (forall c | c in t.citations :: c.0 in t.evidence && c.1 in t.observations)
  }

  /** One of a person and a mention, and that one once in a conversation. */
  ghost predicate ParticipantsDeclared(t: Tables) {
    && (forall p | p in t.participants :: ParticipantDeclared(t, t.participants[p]))
    && (forall p, q | p in t.participants && q in t.participants && p != q ::
          t.participants[p].conversation == t.participants[q].conversation ==>
            && (t.participants[p].person != t.participants[q].person || t.participants[p].person == None)
            && (t.participants[p].mention != t.participants[q].mention || t.participants[p].mention == None))
  }

  ghost predicate ParticipantDeclared(t: Tables, row: Participant) {
    && (row.person == None <==> row.mention != None)
    && (row.person != None ==> row.person.value in t.people)
    && (row.mention != None ==> row.mention.value in t.mentions)
  }

  /** What supports an unresolved mention comes from the mention's own source version. */
  ghost predicate SupportDeclared(t: Tables) {
    forall s | s in t.support ::
      && s.0 in t.participants && s.1 in t.observations
      && (t.participants[s.0].mention != None ==>
            && t.participants[s.0].mention.value in t.mentions
            && t.observations[s.1].source == t.mentions[t.participants[s.0].mention.value])
  }

  ghost predicate Declared(t: Tables) {
    && ObservationsDeclared(t) && CandidatesDeclared(t) && CasesDeclared(t) && DecisionsDeclared(t)
    && PeopleDeclared(t) && LogDeclared(t) && LinksDeclared(t)
    && AliasesDeclared(t) && AffiliationsDeclared(t) && EvidenceDeclared(t)
    && ParticipantsDeclared(t) && SupportDeclared(t)
  }

  // ----- what a statement must meet beyond that ------------------------------------------------

  /** An INSERT finds its key unused; an UPDATE finds its row. */
  predicate Finds(t: Tables, s: Step) {
    match s
    case RecordObservation(o, _) => o !in t.observations
    case RecordMention(m, _) => m !in t.mentions
    case OpenSet(k, _) => k !in t.candidates
    case AddPersonCandidate(k, p) => k in t.candidates && p !in t.candidates[k].people
    case AddObservationCandidate(k, o) => k in t.candidates && o !in t.candidates[k].observations
    case OpenCase(k, _) => k !in t.cases
    case Decide(d, _) => d !in t.decisions
    case InsertPerson(p, _, _) => p !in t.people
    case UpdatePerson(p, _, _) => p in t.people
    case Resolve(_) => true
    case NameObservation(r, o) => r < |t.named| && o !in t.named[r]
    case WriteLink(_, _, _) => true
    case RekeyLink(o, onto, _, _) => o in t.links && onto !in t.links
    case InsertAlias(o, _) => o !in t.aliases
    case MoveAlias(o, _) => o in t.aliases
    case InsertAffiliation(f, _, _) => f !in t.affiliations
    case MoveAffiliation(f, _) => f in t.affiliations
    case InsertEvidence(e, _) => e !in t.evidence
    case MoveEvidence(e, _) => e in t.evidence
    case Cite(e, o) => (e, o) !in t.citations
    case InsertParticipant(p, _) => p !in t.participants
    case MoveParticipant(p, _) => p in t.participants
    case SupportParticipant(p, o) => (p, o) !in t.support
  }

  /** A case is opened over a set with members; for a correction, over duplicates and just the two people. */
  ghost predicate Honest(t: Tables, c: ReviewCase) {
    && c.candidates in t.candidates
    && var members := t.candidates[c.candidates];
    && (members.people != {} || members.observations != {})
    && (c.action in {MergePerson, SplitPerson} ==>
          && members.kind == Duplicate && c.retained.Some? && c.prior.Some?
          && members.people == {c.retained.value, c.prior.value})
  }

  /** Every other decision of the case came before `d`. */
  ghost predicate Standing(t: Tables, k: CaseId, d: DecisionId) {
    && d in t.decisions && t.decisions[d].reviewCase == k
    && forall e | e in t.decisions && e != d && t.decisions[e].reviewCase == k ::
         t.decisions[e].sequence < t.decisions[d].sequence
  }

  function Pair(x: Resolution): set<PersonId> {
    if x.prior.Some? then {x.retained, x.prior.value} else {}
  }

  /**
   A person without a state takes the link that retains it; one with a state takes a
   correction, the last over its two people, and is then what that correction made of it.
   */
  ghost predicate PersonLaw(t: Tables, p: PersonId, row: Person)
    requires p in t.people
  {
    && row.state.Some? && row.state.value < |t.log|
    && var was, x := t.people[p], t.log[row.state.value];
    if was.state == None
    then row.supersededBy == was.supersededBy && x.action == LinkObservation && x.retained == p
    else
      && row.state != was.state && row.supersededBy != was.supersededBy
      && (if row.supersededBy.Some?
          then x.action == MergePerson && (x.retained, x.prior) == (row.supersededBy.value, Some(p))
          else x.action == SplitPerson && (x.retained, x.prior) == (p, was.supersededBy))
      && forall s | row.state.value < s < |t.log| :: Pair(t.log[s]) != Pair(x)
  }

  ghost predicate NamedLast(t: Tables, o: ObservationId) {
    o in t.links && forall r | t.links[o].resolution < r < |t.named| :: o !in t.named[r]
  }

  /** The observations linked under resolution `r`. */
  function Bearing(t: Tables, r: nat): set<ObservationId> {
    set o | o in t.links && t.links[o].resolution == r
  }

  /** One correction from `from` to `to` bears all of `on`, and `on` is not empty. */
  ghost predicate CarriedOver(t: Tables, from: PersonId, to: PersonId, on: set<ObservationId>) {
    && on != {}
    && exists r | 0 <= r < |t.log| ::
         && t.log[r].action in {MergePerson, SplitPerson}
         && t.log[r].retained == to && t.log[r].prior == Some(from)
         && on <= Bearing(t, r)
  }

  ghost predicate Lawful(t: Tables, s: Step) {
    match s
    case OpenCase(_, c) => Honest(t, c)
    case Resolve(x) => Standing(t, x.reviewCase, x.decision)
    case UpdatePerson(p, q, r) => p in t.people && PersonLaw(t, p, Person(q, r))
    case WriteLink(o, _, _) => NamedLast(Effect(t, s), o)
    case RekeyLink(_, onto, _, _) => NamedLast(Effect(t, s), onto)
    case InsertAlias(o, a) => o in Owned(t, a.person)
    case MoveAlias(o, p) => o in Owned(t, p)
    case InsertAffiliation(_, p, o) => o in Owned(t, p)
    case MoveAffiliation(f, p) => f in t.affiliations && t.affiliations[f].observation in Owned(t, p)
    case MoveEvidence(e, p) =>
      e in t.evidence && (t.evidence[e].person == p || CarriedOver(t, t.evidence[e].person, p, CitedBy(t, e)))
    case MoveParticipant(p, to) =>
      && p in t.participants
      && var was := t.participants[p].person;
      (was == Some(to) || (was.Some? && CarriedOver(t, was.value, to, Supporting(t, p))))
    case SupportParticipant(p, o) =>
      p in t.participants && (t.participants[p].person.Some? ==> o in Owned(t, t.participants[p].person.value))
    case _ => true
  }

  // ----- the guards accept exactly what the rules allow -----------------------------------------

  /** What every statement that finds its row leaves in place. */
  ghost predicate Grows(t: Tables, u: Tables) {
    && t.observations.Keys <= u.observations.Keys
    && (forall o | o in t.observations :: u.observations[o] == t.observations[o])
    && t.mentions.Keys <= u.mentions.Keys
    && (forall m | m in t.mentions :: u.mentions[m] == t.mentions[m])
    && t.candidates.Keys <= u.candidates.Keys
    && t.cases.Keys <= u.cases.Keys
    && (forall k | k in t.cases :: u.cases[k] == t.cases[k])
    && t.decisions.Keys <= u.decisions.Keys
    && (forall d | d in t.decisions :: u.decisions[d] == t.decisions[d])
    && t.people.Keys <= u.people.Keys
    && t.log <= u.log
    && |t.named| <= |u.named| && (forall r | 0 <= r < |t.named| :: t.named[r] <= u.named[r])
    && t.evidence.Keys <= u.evidence.Keys
  }

  lemma EffectGrows(t: Tables, s: Step)
    requires Finds(t, s)
    ensures Grows(t, Effect(t, s))
  {
  }

  lemma CandidatesStay(t: Tables, u: Tables)
    requires CandidatesDeclared(t) && Grows(t, u) && u.candidates == t.candidates
    ensures CandidatesDeclared(u)
  {
  }

  lemma CasesStay(t: Tables, u: Tables)
    requires CasesDeclared(t) && Grows(t, u) && u.cases == t.cases
    ensures CasesDeclared(u)
  {
    forall k | k in u.cases ensures CaseDeclared(u, u.cases[k]) {
      assert CaseDeclared(t, t.cases[k]);
    }
  }

  lemma DecisionsStay(t: Tables, u: Tables)
    requires DecisionsDeclared(t) && Grows(t, u) && u.decisions == t.decisions
    ensures DecisionsDeclared(u)
  {
  }

  lemma PeopleStay(t: Tables, u: Tables)
    requires PeopleDeclared(t) && Grows(t, u) && u.people == t.people
    ensures PeopleDeclared(u)
  {
  }

  lemma ResolutionStays(t: Tables, u: Tables, x: Resolution)
    requires ResolutionDeclared(t, x) && Grows(t, u)
    ensures ResolutionDeclared(u, x)
  {
  }

  lemma LogStays(t: Tables, u: Tables)
    requires LogDeclared(t) && Grows(t, u) && u.log == t.log && u.named == t.named
    ensures LogDeclared(u)
  {
    forall r | 0 <= r < |u.log| ensures ResolutionDeclared(u, u.log[r]) {
      ResolutionStays(t, u, t.log[r]);
    }
  }

  lemma LinksStay(t: Tables, u: Tables)
    requires LinksDeclared(t) && Grows(t, u) && u.links == t.links
    ensures LinksDeclared(u)
  {
  }

  lemma AliasesStay(t: Tables, u: Tables)
    requires AliasesDeclared(t) && Grows(t, u) && u.aliases == t.aliases
    ensures AliasesDeclared(u)
  {
  }

  lemma DependentsStay(t: Tables, u: Tables)
    requires Grows(t, u)
    ensures AffiliationsDeclared(t) && u.affiliations == t.affiliations ==> AffiliationsDeclared(u)
    ensures EvidenceDeclared(t) && u.evidence == t.evidence && u.citations == t.citations ==> EvidenceDeclared(u)
  {
  }

  lemma ParticipantsStay(t: Tables, u: Tables)
    requires ParticipantsDeclared(t) && Grows(t, u) && u.participants == t.participants
    ensures ParticipantsDeclared(u)
  {
    forall p | p in u.participants ensures ParticipantDeclared(u, u.participants[p]) {
      assert ParticipantDeclared(t, t.participants[p]);
    }
  }

  lemma SupportStays(t: Tables, u: Tables)
    requires SupportDeclared(t) && Grows(t, u) && u.participants == t.participants && u.support == t.support
    ensures SupportDeclared(u)
  {
  }

  /** A table that a statement does not write keeps its rules. */
  lemma UnwrittenStay(t: Tables, u: Tables)
    requires Declared(t) && Grows(t, u)
    ensures u.observations == t.observations ==> ObservationsDeclared(u)
    ensures u.candidates == t.candidates ==> CandidatesDeclared(u)
    ensures u.cases == t.cases ==> CasesDeclared(u)
    ensures u.decisions == t.decisions ==> DecisionsDeclared(u)
    ensures u.people == t.people ==> PeopleDeclared(u)
    ensures u.log == t.log && u.named == t.named ==> LogDeclared(u)
    ensures u.links == t.links ==> LinksDeclared(u)
    ensures u.aliases == t.aliases ==> AliasesDeclared(u)
    ensures u.affiliations == t.affiliations ==> AffiliationsDeclared(u)
    ensures u.evidence == t.evidence && u.citations == t.citations ==> EvidenceDeclared(u)
    ensures u.participants == t.participants ==> ParticipantsDeclared(u)
    ensures u.participants == t.participants && u.support == t.support ==> SupportDeclared(u)
  {
    if u.candidates == t.candidates { CandidatesStay(t, u); }
    if u.cases == t.cases { CasesStay(t, u); }
    if u.decisions == t.decisions { DecisionsStay(t, u); }
    if u.people == t.people { PeopleStay(t, u); }
    if u.log == t.log && u.named == t.named { LogStays(t, u); }
    if u.links == t.links { LinksStay(t, u); }
    if u.aliases == t.aliases { AliasesStay(t, u); }
    DependentsStay(t, u);
    if u.participants == t.participants { ParticipantsStay(t, u); }
    if u.participants == t.participants && u.support == t.support { SupportStays(t, u); }
  }

  lemma ObservationAccepted(t: Tables, u: Tables, o: ObservationId, row: Observation)
    requires ObservationsDeclared(t) && o !in t.observations && u.observations == t.observations[o := row]
    ensures ObservationsDeclared(u)
            <==> forall k | k in t.observations ::
                   !(t.observations[k].origin == row.origin && t.observations[k].source == row.source)
  {
    assert u.observations[o] == row;
    assert forall k | k in t.observations :: k in u.observations && u.observations[k] == t.observations[k];
  }

  lemma CandidateAccepted(t: Tables, u: Tables, k: SetId, members: CandidateSet)
    requires CandidatesDeclared(t) && u.people == t.people && u.observations == t.observations
    requires u.candidates == t.candidates[k := members]
    ensures CandidatesDeclared(u) <==> members.people <= t.people.Keys && members.observations <= t.observations.Keys
  {
    assert u.candidates[k] == members;
  }

  lemma CaseDeclaredIn(t: Tables, u: Tables, c: ReviewCase)
    requires u.candidates == t.candidates && u.people == t.people
    ensures CaseDeclared(u, c) <==> CaseDeclared(t, c)
  {
  }

  lemma CaseRowAccepted(t: Tables, u: Tables, k: CaseId, c: ReviewCase)
    requires CasesDeclared(t) && k !in t.cases
    requires u.candidates == t.candidates && u.people == t.people && u.cases == t.cases[k := c]
    ensures CasesDeclared(u) <==> CaseDeclared(t, c) && forall l | l in t.cases :: t.cases[l].candidates != c.candidates
  {
    assert u.cases[k] == c;
    forall l | l in t.cases ensures u.cases[l] == t.cases[l] && CaseDeclared(u, t.cases[l]) {
      CaseDeclaredIn(t, u, t.cases[l]);
      assert CaseDeclared(t, t.cases[l]);
    }
    CaseDeclaredIn(t, u, c);
  }

  lemma HonestCaseIff(t: Tables, c: ReviewCase)
    ensures HonestCase(t, c)
            <==> && CaseDeclared(t, c) && Honest(t, c)
                 && forall l | l in t.cases :: t.cases[l].candidates != c.candidates
  {
    if c.candidates in t.candidates {
      var members := t.candidates[c.candidates];
      assert |members.people| + |members.observations| >= 1 <==> members.people != {} || members.observations != {};
      if c.retained.Some? && c.prior.Some? && c.retained != c.prior {
        assert |{c.retained.value, c.prior.value}| == 2;
      }
    }
  }

  lemma DecisionAccepted(t: Tables, u: Tables, d: DecisionId, ruling: Decision)
    requires DecisionsDeclared(t) && d !in t.decisions
    requires u.cases == t.cases && u.decisions == t.decisions[d := ruling]
    ensures DecisionsDeclared(u)
            <==> && ruling.reviewCase in t.cases && ruling.sequence >= 1
                 && forall e | e in t.decisions ::
                      !(t.decisions[e].reviewCase == ruling.reviewCase && t.decisions[e].sequence == ruling.sequence)
  {
    assert u.decisions[d] == ruling;
    assert forall e | e in t.decisions :: e in u.decisions && u.decisions[e] == t.decisions[e];
  }

  lemma PersonRowAccepted(t: Tables, u: Tables, p: PersonId, row: Person)
    requires PeopleDeclared(t) && u.people == t.people[p := row] && u.log == t.log
    ensures PersonRow(t, p, row) <==> PeopleDeclared(u)
  {
    assert u.people[p] == row;
    assert forall q | q in t.people && q != p :: q in u.people && u.people[q] == t.people[q];
  }

  lemma PairsAgree(x: Resolution, y: Resolution)
    requires x.prior.Some?
    ensures SamePair(y, x) <==> Pair(y) == Pair(x)
  {
    if y.prior.Some? && Pair(y) == Pair(x) {
      assert x.retained in Pair(y) && x.prior.value in Pair(y) && y.retained in Pair(x) && y.prior.value in Pair(x);
    }
    assert x.retained in Pair(x);
  }

  lemma LatestIff(t: Tables, r: nat)
    requires r < |t.log| && t.log[r].prior.Some?
    ensures LatestOfPair(t, r) <==> forall s | r < s < |t.log| :: Pair(t.log[s]) != Pair(t.log[r])
  {
    forall s | 0 <= s < |t.log| ensures SamePair(t.log[s], t.log[r]) <==> Pair(t.log[s]) == Pair(t.log[r]) {
      PairsAgree(t.log[r], t.log[s]);
    }
  }

  lemma PersonChangeIff(t: Tables, p: PersonId, row: Person)
    requires LogDeclared(t) && p in t.people
    ensures PersonChange(t, p, t.people[p], row) <==> PersonLaw(t, p, row)
  {
    if row.state.Some? && row.state.value < |t.log| {
      assert ResolutionDeclared(t, t.log[row.state.value]);
      if t.log[row.state.value].prior.Some? {
        LatestIff(t, row.state.value);
      }
    }
  }

  lemma ResolutionDeclaredIn(t: Tables, u: Tables, x: Resolution)
    requires u.cases == t.cases && u.decisions == t.decisions && u.people == t.people
    ensures ResolutionDeclared(u, x) <==> ResolutionDeclared(t, x)
  {
  }

  lemma LogAccepted(t: Tables, u: Tables, x: Resolution)
    requires LogDeclared(t) && u.cases == t.cases && u.decisions == t.decisions && u.people == t.people
    requires u.observations == t.observations && u.log == t.log + [x] && u.named == t.named + [{}]
    ensures LogDeclared(u) <==> ResolutionDeclared(t, x) && forall r | 0 <= r < |t.log| :: t.log[r].decision != x.decision
  {
    assert u.log[|t.log|] == x;
    forall r | 0 <= r < |t.log| ensures u.log[r] == t.log[r] && ResolutionDeclared(u, t.log[r]) {
      assert ResolutionDeclared(t, t.log[r]);
      ResolutionDeclaredIn(t, u, t.log[r]);
    }
    ResolutionDeclaredIn(t, u, x);
    assert forall r | 0 <= r < |t.named| :: u.named[r] == t.named[r];
  }

  lemma ReviewedIff(t: Tables, x: Resolution)
    requires DecisionsDeclared(t)
    ensures ResolutionRow(t, x) && Reviewed(t, x)
            <==> && ResolutionDeclared(t, x) && Standing(t, x.reviewCase, x.decision)
                 && forall r | 0 <= r < |t.log| :: t.log[r].decision != x.decision
  {
  }

  lemma NamingAccepted(t: Tables, u: Tables, r: nat, o: ObservationId)
    requires LogDeclared(t) && r < |t.named| && Grows(t, u) && u.log == t.log
    requires u.observations == t.observations && u.named == t.named[r := t.named[r] + {o}]
    ensures LogDeclared(u) <==> o in t.observations
  {
    forall s | 0 <= s < |u.log| ensures ResolutionDeclared(u, u.log[s]) {
      ResolutionStays(t, u, t.log[s]);
    }
    assert o in u.named[r];
  }

  /** `u` has the link of `o` written, and the rest of its links are links of `t`. */
  lemma LinkAccepted(t: Tables, u: Tables, o: ObservationId, p: PersonId, r: nat)
    requires LogDeclared(t) && LinksDeclared(t) && u.log == t.log && u.named == t.named
    requires o in u.links && u.links[o] == Link(p, r)
    requires forall k | k in u.links && k != o :: k in t.links && u.links[k] == t.links[k]
    ensures CurrentLink(t, o, p, r) <==> LinksDeclared(u) && NamedLast(u, o)
  {
  }

  /** Whoever owns a link is there, and so is the observation. */
  lemma OwnersAreThere(t: Tables, o: ObservationId, p: PersonId)
    requires LogDeclared(t) && LinksDeclared(t)
    ensures OwnedBy(t, o, p) <==> o in Owned(t, p)
    ensures OwnedBy(t, o, p) ==> o in t.observations && p in t.people
  {
    if OwnedBy(t, o, p) {
      var r := t.links[o].resolution;
      assert ResolutionDeclared(t, t.log[r]);
    }
  }

  lemma NonBlankIff(name: string)
    ensures NonBlank(name) <==> exists c | c in name :: c != ' '
  {
    if NonBlank(name) {
      var i :| 0 <= i < |name| && name[i] != ' ';
      assert name[i] in name;
    }
  }

  lemma AliasAccepted(t: Tables, u: Tables, o: ObservationId, a: Alias)
    requires LogDeclared(t) && LinksDeclared(t) && AliasesDeclared(t)
    requires u.observations == t.observations && u.people == t.people && u.aliases == t.aliases[o := a]
    ensures AliasMatches(t, o, a) && (forall k | k in t.aliases && k != o :: t.aliases[k].id != a.id)
            <==> AliasesDeclared(u) && o in Owned(t, a.person)
  {
    OwnersAreThere(t, o, a.person);
    NonBlankIff(a.value);
    assert u.aliases[o] == a;
    assert forall k | k in t.aliases && k != o :: k in u.aliases && u.aliases[k] == t.aliases[k];
  }

  lemma AffiliationAccepted(t: Tables, u: Tables, f: AffiliationId, p: PersonId, o: ObservationId)
    requires LogDeclared(t) && LinksDeclared(t) && AffiliationsDeclared(t)
    requires u.observations == t.observations && u.people == t.people
    requires u.affiliations == t.affiliations[f := Affiliation(p, o)]
    ensures OwnedBy(t, o, p) <==> AffiliationsDeclared(u) && o in Owned(t, p)
  {
    OwnersAreThere(t, o, p);
    assert u.affiliations[f] == Affiliation(p, o);
  }

  lemma CarriedOverIff(t: Tables, from: PersonId, to: PersonId, on: set<ObservationId>)
    requires LogDeclared(t) && LinksDeclared(t)
    ensures MovedBy(t, from, to, on) <==> CarriedOver(t, from, to, on)
  {
    if MovedBy(t, from, to, on) {
      var r :| 0 <= r < |t.log| && IsCorrection(t.log[r]) && t.log[r].prior == Some(from) && t.log[r].retained == to
        && forall o | o in on :: o in t.links && t.links[o] == Link(to, r);
      assert on <= Bearing(t, r);
    }
    if CarriedOver(t, from, to, on) {
      var r :| 0 <= r < |t.log| && t.log[r].action in {MergePerson, SplitPerson}
        && t.log[r].retained == to && t.log[r].prior == Some(from) && on <= Bearing(t, r);
      assert forall o | o in on :: o in Bearing(t, r) && t.links[o] == Link(to, r);
    }
  }

  lemma EvidenceAccepted(t: Tables, u: Tables, e: EvidenceId, item: Evidence)
    requires EvidenceDeclared(t) && u.observations == t.observations && u.people == t.people
    requires u.evidence == t.evidence[e := item] && u.citations == t.citations
    ensures EvidenceDeclared(u) <==> item.person in t.people
  {
    assert u.evidence[e] == item;
  }

  lemma CitationAccepted(t: Tables, u: Tables, e: EvidenceId, o: ObservationId)
    requires EvidenceDeclared(t) && u.observations == t.observations && u.people == t.people
    requires u.evidence == t.evidence && u.citations == t.citations + {(e, o)}
    ensures EvidenceDeclared(u) <==> e in t.evidence && o in t.observations
  {
    assert (e, o) in u.citations;
  }

  lemma ParticipantRowAccepted(t: Tables, u: Tables, p: ParticipantId, row: Participant)
    requires ParticipantsDeclared(t) && u.people == t.people && u.mentions == t.mentions
    requires u.participants == t.participants[p := row]
    ensures ParticipantRow(t, p, row) <==> ParticipantsDeclared(u)
  {
    assert u.participants[p] == row;
    forall q | q in t.participants && q != p
      ensures q in u.participants && u.participants[q] == t.participants[q] && ParticipantDeclared(u, u.participants[q])
    {
      assert ParticipantDeclared(t, t.participants[q]);
    }
    assert ParticipantDeclared(u, row) <==> ParticipantDeclared(t, row);
  }

  lemma SupportAccepted(t: Tables, u: Tables, p: ParticipantId, o: ObservationId)
    requires LogDeclared(t) && LinksDeclared(t) && SupportDeclared(t)
    requires u.observations == t.observations && u.mentions == t.mentions && u.participants == t.participants
    requires u.support == t.support + {(p, o)}
    ensures p in t.participants && SupportMatches(t, t.participants[p], o)
            <==> && SupportDeclared(u)
                 && p in t.participants && (t.participants[p].person.Some? ==> o in Owned(t, t.participants[p].person.value))
  {
    assert (p, o) in u.support;
    if p in t.participants && t.participants[p].person.Some? {
      OwnersAreThere(t, o, t.participants[p].person.value);
    }
  }

  /** A participant row that changes only its person supports what it did. */
  lemma SupportOfParticipant(t: Tables, u: Tables, p: ParticipantId, row: Participant)
    requires SupportDeclared(t) && u.observations == t.observations && u.mentions == t.mentions
    requires u.participants == t.participants[p := row] && u.support == t.support
    requires p in t.participants ==> row.mention == t.participants[p].mention
    ensures SupportDeclared(u)
  {
  }

  // ----- each statement is judged by the table it writes ----------------------------------------

  lemma RecordObservationAccepted(t: Tables, s: Step)
    requires ObservationsDeclared(t) && s.RecordObservation?
    ensures Admits(t, s) <==> Finds(t, s) && ObservationsDeclared(Effect(t, s)) && Lawful(t, s)
  {
    if Finds(t, s) {
      ObservationAccepted(t, Effect(t, s), s.observation, s.row);
    }
  }

  lemma CandidatesAccepted(t: Tables, s: Step)
    requires CandidatesDeclared(t) && (s.OpenSet? || s.AddPersonCandidate? || s.AddObservationCandidate?)
    ensures Admits(t, s) <==> Finds(t, s) && CandidatesDeclared(Effect(t, s)) && Lawful(t, s)
  {
    if Finds(t, s) {
      var u := Effect(t, s);
      CandidateAccepted(t, u, s.set_, u.candidates[s.set_]);
      assert s.AddPersonCandidate? ==> s.person in u.candidates[s.set_].people;
      assert s.AddObservationCandidate? ==> s.observation in u.candidates[s.set_].observations;
    }
  }

  lemma OpenCaseAccepted(t: Tables, s: Step)
    requires CasesDeclared(t) && s.OpenCase?
    ensures Admits(t, s) <==> Finds(t, s) && CasesDeclared(Effect(t, s)) && Lawful(t, s)
  {
    if Finds(t, s) {
      CaseRowAccepted(t, Effect(t, s), s.reviewCase, s.review);
      HonestCaseIff(t, s.review);
    }
  }

  lemma DecideAccepted(t: Tables, s: Step)
    requires DecisionsDeclared(t) && s.Decide?
    ensures Admits(t, s) <==> Finds(t, s) && DecisionsDeclared(Effect(t, s)) && Lawful(t, s)
  {
    if Finds(t, s) {
      DecisionAccepted(t, Effect(t, s), s.decision, s.ruling);
    }
  }

  lemma InsertPersonAccepted(t: Tables, s: Step)
    requires PeopleDeclared(t) && s.InsertPerson?
    ensures Admits(t, s) <==> Finds(t, s) && PeopleDeclared(Effect(t, s)) && Lawful(t, s)
  {
    if Finds(t, s) {
      PersonRowAccepted(t, Effect(t, s), s.person, Person(s.supersededBy, s.state));
    }
  }

  lemma UpdatePersonAccepted(t: Tables, s: Step)
    requires LogDeclared(t) && PeopleDeclared(t) && s.UpdatePerson?
    ensures Admits(t, s) <==> Finds(t, s) && PeopleDeclared(Effect(t, s)) && Lawful(t, s)
  {
    if Finds(t, s) {
      PersonRowAccepted(t, Effect(t, s), s.person, Person(s.supersededBy, s.state));
      PersonChangeIff(t, s.person, Person(s.supersededBy, s.state));
    }
  }

  lemma ResolveAccepted(t: Tables, s: Step)
    requires DecisionsDeclared(t) && LogDeclared(t) && s.Resolve?
    ensures Admits(t, s) <==> Finds(t, s) && LogDeclared(Effect(t, s)) && Lawful(t, s)
  {
    LogAccepted(t, Effect(t, s), s.resolution);
    ReviewedIff(t, s.resolution);
  }

  lemma NameObservationAccepted(t: Tables, s: Step)
    requires LogDeclared(t) && s.NameObservation?
    ensures Admits(t, s) <==> Finds(t, s) && LogDeclared(Effect(t, s)) && Lawful(t, s)
  {
    if Finds(t, s) {
      EffectGrows(t, s);
      NamingAccepted(t, Effect(t, s), s.position, s.observation);
    }
  }

  lemma LinksAccepted(t: Tables, s: Step)
    requires LogDeclared(t) && LinksDeclared(t) && (s.WriteLink? || s.RekeyLink?)
    ensures Admits(t, s) <==> Finds(t, s) && LinksDeclared(Effect(t, s)) && Lawful(t, s)
  {
    if Finds(t, s) {
      LinkAccepted(t, Effect(t, s), if s.WriteLink? then s.observation else s.onto, s.person, s.position);
    }
  }

  lemma InsertAliasAccepted(t: Tables, s: Step)
    requires LogDeclared(t) && LinksDeclared(t) && AliasesDeclared(t) && s.InsertAlias?
    ensures Admits(t, s) <==> Finds(t, s) && AliasesDeclared(Effect(t, s)) && Lawful(t, s)
  {
    if Finds(t, s) {
      AliasAccepted(t, Effect(t, s), s.observation, s.alias);
    }
  }

  lemma MoveAliasAccepted(t: Tables, s: Step)
    requires LogDeclared(t) && LinksDeclared(t) && AliasesDeclared(t) && s.MoveAlias?
    ensures Admits(t, s) <==> Finds(t, s) && AliasesDeclared(Effect(t, s)) && Lawful(t, s)
  {
    if Finds(t, s) {
      AliasAccepted(t, Effect(t, s), s.observation, t.aliases[s.observation].(person := s.person));
    }
  }

  lemma InsertAffiliationAccepted(t: Tables, s: Step)
    requires LogDeclared(t) && LinksDeclared(t) && AffiliationsDeclared(t) && s.InsertAffiliation?
    ensures Admits(t, s) <==> Finds(t, s) && AffiliationsDeclared(Effect(t, s)) && Lawful(t, s)
  {
    if Finds(t, s) {
      AffiliationAccepted(t, Effect(t, s), s.affiliation, s.person, s.observation);
    }
  }

  lemma MoveAffiliationAccepted(t: Tables, s: Step)
    requires LogDeclared(t) && LinksDeclared(t) && AffiliationsDeclared(t) && s.MoveAffiliation?
    ensures Admits(t, s) <==> Finds(t, s) && AffiliationsDeclared(Effect(t, s)) && Lawful(t, s)
  {
    if Finds(t, s) {
      AffiliationAccepted(t, Effect(t, s), s.affiliation, s.person, t.affiliations[s.affiliation].observation);
    }
  }

  lemma InsertEvidenceAccepted(t: Tables, s: Step)
    requires EvidenceDeclared(t) && s.InsertEvidence?
    ensures Admits(t, s) <==> Finds(t, s) && EvidenceDeclared(Effect(t, s)) && Lawful(t, s)
  {
    if Finds(t, s) {
      EvidenceAccepted(t, Effect(t, s), s.evidence, s.item);
    }
  }

  lemma MoveEvidenceAccepted(t: Tables, s: Step)
    requires LogDeclared(t) && LinksDeclared(t) && EvidenceDeclared(t) && s.MoveEvidence?
    ensures Admits(t, s) <==> Finds(t, s) && EvidenceDeclared(Effect(t, s)) && Lawful(t, s)
  {
    if Finds(t, s) {
      EvidenceAccepted(t, Effect(t, s), s.evidence, t.evidence[s.evidence].(person := s.person));
      CarriedOverIff(t, t.evidence[s.evidence].person, s.person, CitedBy(t, s.evidence));
    }
  }

  lemma CiteAccepted(t: Tables, s: Step)
    requires EvidenceDeclared(t) && s.Cite?
    ensures Admits(t, s) <==> Finds(t, s) && EvidenceDeclared(Effect(t, s)) && Lawful(t, s)
  {
    if Finds(t, s) {
      CitationAccepted(t, Effect(t, s), s.evidence, s.observation);
    }
  }

  lemma InsertParticipantAccepted(t: Tables, s: Step)
    requires ParticipantsDeclared(t) && SupportDeclared(t) && s.InsertParticipant?
    ensures Admits(t, s) <==> Finds(t, s) && ParticipantsDeclared(Effect(t, s)) && SupportDeclared(Effect(t, s)) && Lawful(t, s)
  {
    if Finds(t, s) {
      ParticipantRowAccepted(t, Effect(t, s), s.participant, s.entry);
      SupportOfParticipant(t, Effect(t, s), s.participant, s.entry);
    }
  }

  lemma MoveParticipantAccepted(t: Tables, s: Step)
    requires LogDeclared(t) && LinksDeclared(t) && ParticipantsDeclared(t) && SupportDeclared(t) && s.MoveParticipant?
    ensures Admits(t, s) <==> Finds(t, s) && ParticipantsDeclared(Effect(t, s)) && SupportDeclared(Effect(t, s)) && Lawful(t, s)
  {
    if Finds(t, s) {
      var was := t.participants[s.participant];
      ParticipantRowAccepted(t, Effect(t, s), s.participant, was.(person := Some(s.person)));
      SupportOfParticipant(t, Effect(t, s), s.participant, was.(person := Some(s.person)));
      if was.person.Some? {
        CarriedOverIff(t, was.person.value, s.person, Supporting(t, s.participant));
      }
    }
  }

  lemma SupportParticipantAccepted(t: Tables, s: Step)
    requires LogDeclared(t) && LinksDeclared(t) && SupportDeclared(t) && s.SupportParticipant?
    ensures Admits(t, s) <==> Finds(t, s) && SupportDeclared(Effect(t, s)) && Lawful(t, s)
  {
    if Finds(t, s) {
      SupportAccepted(t, Effect(t, s), s.participant, s.observation);
    }
  }

  ghost predicate WritesReview(s: Step) {
    || s.RecordObservation? || s.RecordMention? || s.OpenSet? || s.AddPersonCandidate? || s.AddObservationCandidate?
    || s.OpenCase? || s.Decide?
  }

  ghost predicate WritesIdentity(s: Step) {
    s.InsertPerson? || s.UpdatePerson? || s.Resolve? || s.NameObservation? || s.WriteLink? || s.RekeyLink?
  }

  ghost predicate WritesDerived(s: Step) {
    s.InsertAlias? || s.MoveAlias? || s.InsertAffiliation? || s.MoveAffiliation?
  }

  ghost predicate WritesSupported(s: Step) {
    || s.InsertEvidence? || s.MoveEvidence? || s.Cite?
    || s.InsertParticipant? || s.MoveParticipant? || s.SupportParticipant?
  }

  /** `u` differs from `t` in the one table that the statement writes, or in the two that go together. */
  ghost predicate WritesItsTable(t: Tables, u: Tables, s: Step) {
    && (s.RecordObservation? ==> u == t.(observations := u.observations))
    && (s.RecordMention? ==> u == t.(mentions := u.mentions))
    && (s.OpenSet? || s.AddPersonCandidate? || s.AddObservationCandidate? ==> u == t.(candidates := u.candidates))
    && (s.OpenCase? ==> u == t.(cases := u.cases))
    && (s.Decide? ==> u == t.(decisions := u.decisions))
    && (s.InsertPerson? || s.UpdatePerson? ==> u == t.(people := u.people))
    && (s.Resolve? || s.NameObservation? ==> u == t.(log := u.log, named := u.named))
    && (s.WriteLink? || s.RekeyLink? ==> u == t.(links := u.links))
    && (s.InsertAlias? || s.MoveAlias? ==> u == t.(aliases := u.aliases))
    && (s.InsertAffiliation? || s.MoveAffiliation? ==> u == t.(affiliations := u.affiliations))
    && (s.InsertEvidence? || s.MoveEvidence? || s.Cite? ==> u == t.(evidence := u.evidence, citations := u.citations))
    && (s.InsertParticipant? || s.MoveParticipant? ==> u == t.(participants := u.participants))
    && (s.SupportParticipant? ==> u == t.(support := u.support))
  }

  lemma EffectWritesReviewTable(t: Tables, s: Step)
    requires WritesReview(s)
    ensures WritesItsTable(t, Effect(t, s), s)
  {
  }

  lemma EffectWritesIdentityTable(t: Tables, s: Step)
    requires WritesIdentity(s)
    ensures WritesItsTable(t, Effect(t, s), s)
  {
  }

  lemma EffectWritesDerivedTable(t: Tables, s: Step)
    requires WritesDerived(s)
    ensures WritesItsTable(t, Effect(t, s), s)
  {
  }

  lemma EffectWritesSupportedTable(t: Tables, s: Step)
    requires WritesSupported(s)
    ensures WritesItsTable(t, Effect(t, s), s)
  {
  }

  /** The rules of the table that the statement writes. */
  ghost predicate ItsTableDeclared(u: Tables, s: Step) {
    match s
    case RecordObservation(_, _) => ObservationsDeclared(u)
    case RecordMention(_, _) => true
    case OpenSet(_, _) => CandidatesDeclared(u)
    case AddPersonCandidate(_, _) => CandidatesDeclared(u)
    case AddObservationCandidate(_, _) => CandidatesDeclared(u)
    case OpenCase(_, _) => CasesDeclared(u)
    case Decide(_, _) => DecisionsDeclared(u)
    case InsertPerson(_, _, _) => PeopleDeclared(u)
    case UpdatePerson(_, _, _) => PeopleDeclared(u)
    case Resolve(_) => LogDeclared(u)
    case NameObservation(_, _) => LogDeclared(u)
    case WriteLink(_, _, _) => LinksDeclared(u)
    case RekeyLink(_, _, _, _) => LinksDeclared(u)
    case InsertAlias(_, _) => AliasesDeclared(u)
    case MoveAlias(_, _) => AliasesDeclared(u)
    case InsertAffiliation(_, _, _) => AffiliationsDeclared(u)
    case MoveAffiliation(_, _) => AffiliationsDeclared(u)
    case InsertEvidence(_, _) => EvidenceDeclared(u)
    case MoveEvidence(_, _) => EvidenceDeclared(u)
    case Cite(_, _) => EvidenceDeclared(u)
    case InsertParticipant(_, _) => ParticipantsDeclared(u) && SupportDeclared(u)
    case MoveParticipant(_, _) => ParticipantsDeclared(u) && SupportDeclared(u)
    case SupportParticipant(_, _) => SupportDeclared(u)
  }

  lemma OnlyReviewTable(t: Tables, u: Tables, s: Step)
    requires Declared(t) && Grows(t, u) && WritesItsTable(t, u, s) && WritesReview(s)
    ensures Declared(u) <==> ItsTableDeclared(u, s)
  {
    UnwrittenStay(t, u);
  }

  lemma JudgedByReviewTable(t: Tables, s: Step)
    requires ObservationsDeclared(t) && CandidatesDeclared(t) && CasesDeclared(t) && DecisionsDeclared(t)
    requires WritesReview(s)
    ensures Admits(t, s) <==> Finds(t, s) && ItsTableDeclared(Effect(t, s), s) && Lawful(t, s)
  {
    match s
    case RecordObservation(_, _) => RecordObservationAccepted(t, s);
    case RecordMention(_, _) =>
    case OpenSet(_, _) => CandidatesAccepted(t, s);
    case AddPersonCandidate(_, _) => CandidatesAccepted(t, s);
    case AddObservationCandidate(_, _) => CandidatesAccepted(t, s);
    case OpenCase(_, _) => OpenCaseAccepted(t, s);
    case Decide(_, _) => DecideAccepted(t, s);
  }

  lemma OnlyIdentityTable(t: Tables, u: Tables, s: Step)
    requires Declared(t) && Grows(t, u) && WritesItsTable(t, u, s) && WritesIdentity(s)
    ensures Declared(u) <==> ItsTableDeclared(u, s)
  {
    UnwrittenStay(t, u);
  }

  lemma JudgedByIdentityTable(t: Tables, s: Step)
    requires DecisionsDeclared(t) && PeopleDeclared(t) && LogDeclared(t) && LinksDeclared(t)
    requires WritesIdentity(s)
    ensures Admits(t, s) <==> Finds(t, s) && ItsTableDeclared(Effect(t, s), s) && Lawful(t, s)
  {
    match s
    case InsertPerson(_, _, _) => InsertPersonAccepted(t, s);
    case UpdatePerson(_, _, _) => UpdatePersonAccepted(t, s);
    case Resolve(_) => ResolveAccepted(t, s);
    case NameObservation(_, _) => NameObservationAccepted(t, s);
    case WriteLink(_, _, _) => LinksAccepted(t, s);
    case RekeyLink(_, _, _, _) => LinksAccepted(t, s);
  }

  lemma OnlyDerivedTable(t: Tables, u: Tables, s: Step)
    requires Declared(t) && Grows(t, u) && WritesItsTable(t, u, s) && WritesDerived(s)
    ensures Declared(u) <==> ItsTableDeclared(u, s)
  {
    UnwrittenStay(t, u);
  }

  lemma JudgedByDerivedTable(t: Tables, s: Step)
    requires LogDeclared(t) && LinksDeclared(t) && AliasesDeclared(t) && AffiliationsDeclared(t)
    requires WritesDerived(s)
    ensures Admits(t, s) <==> Finds(t, s) && ItsTableDeclared(Effect(t, s), s) && Lawful(t, s)
  {
    match s
    case InsertAlias(_, _) => InsertAliasAccepted(t, s);
    case MoveAlias(_, _) => MoveAliasAccepted(t, s);
    case InsertAffiliation(_, _, _) => InsertAffiliationAccepted(t, s);
    case MoveAffiliation(_, _) => MoveAffiliationAccepted(t, s);
  }

  lemma OnlySupportedTable(t: Tables, u: Tables, s: Step)
    requires Declared(t) && Grows(t, u) && WritesItsTable(t, u, s) && WritesSupported(s)
    ensures Declared(u) <==> ItsTableDeclared(u, s)
  {
    UnwrittenStay(t, u);
  }

  lemma JudgedByEvidenceTable(t: Tables, s: Step)
    requires LogDeclared(t) && LinksDeclared(t) && EvidenceDeclared(t)
    requires (s.InsertEvidence? || s.MoveEvidence? || s.Cite?)
    ensures Admits(t, s) <==> Finds(t, s) && ItsTableDeclared(Effect(t, s), s) && Lawful(t, s)
  {
    match s
    case InsertEvidence(_, _) => InsertEvidenceAccepted(t, s);
    case MoveEvidence(_, _) => MoveEvidenceAccepted(t, s);
    case Cite(_, _) => CiteAccepted(t, s);
  }

  lemma JudgedByParticipantTable(t: Tables, s: Step)
    requires LogDeclared(t) && LinksDeclared(t) && ParticipantsDeclared(t) && SupportDeclared(t)
    requires (s.InsertParticipant? || s.MoveParticipant? || s.SupportParticipant?)
    ensures Admits(t, s) <==> Finds(t, s) && ItsTableDeclared(Effect(t, s), s) && Lawful(t, s)
  {
    match s
    case InsertParticipant(_, _) => InsertParticipantAccepted(t, s);
    case MoveParticipant(_, _) => MoveParticipantAccepted(t, s);
    case SupportParticipant(_, _) => SupportParticipantAccepted(t, s);
  }

  lemma ReviewStatementsAccepted(t: Tables, s: Step)
    requires Declared(t) && WritesReview(s)
    ensures Admits(t, s) <==> Finds(t, s) && Declared(Effect(t, s)) && Lawful(t, s)
  {
    JudgedByReviewTable(t, s);
    if Finds(t, s) {
      EffectGrows(t, s);
      EffectWritesReviewTable(t, s);
      OnlyReviewTable(t, Effect(t, s), s);
    }
  }

  lemma IdentityStatementsAccepted(t: Tables, s: Step)
    requires Declared(t) && WritesIdentity(s)
    ensures Admits(t, s) <==> Finds(t, s) && Declared(Effect(t, s)) && Lawful(t, s)
  {
    JudgedByIdentityTable(t, s);
    if Finds(t, s) {
      EffectGrows(t, s);
      EffectWritesIdentityTable(t, s);
      OnlyIdentityTable(t, Effect(t, s), s);
    }
  }

  lemma DerivedStatementsAccepted(t: Tables, s: Step)
    requires Declared(t) && WritesDerived(s)
    ensures Admits(t, s) <==> Finds(t, s) && Declared(Effect(t, s)) && Lawful(t, s)
  {
    JudgedByDerivedTable(t, s);
    if Finds(t, s) {
      EffectGrows(t, s);
      EffectWritesDerivedTable(t, s);
      OnlyDerivedTable(t, Effect(t, s), s);
    }
  }

  lemma SupportedStatementsAccepted(t: Tables, s: Step)
    requires Declared(t) && WritesSupported(s)
    ensures Admits(t, s) <==> Finds(t, s) && Declared(Effect(t, s)) && Lawful(t, s)
  {
    if s.InsertEvidence? || s.MoveEvidence? || s.Cite? {
      JudgedByEvidenceTable(t, s);
    } else {
      JudgedByParticipantTable(t, s);
    }
    if Finds(t, s) {
      EffectGrows(t, s);
      EffectWritesSupportedTable(t, s);
      OnlySupportedTable(t, Effect(t, s), s);
    }
  }

  /** The guards let a statement through exactly when it finds its rows, leaves the tables as declared and is lawful. */
  lemma AcceptedIff(t: Tables, s: Step)
    requires Declared(t)
    ensures Admits(t, s) <==> Finds(t, s) && Declared(Effect(t, s)) && Lawful(t, s)
  {
    if WritesReview(s) {
      ReviewStatementsAccepted(t, s);
    } else if WritesIdentity(s) {
      IdentityStatementsAccepted(t, s);
    } else if WritesDerived(s) {
      DerivedStatementsAccepted(t, s);
    } else {
      SupportedStatementsAccepted(t, s);
    }
  }
}
