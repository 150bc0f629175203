/**
 Transactions over the identity plane, what every committed snapshot satisfies,
 and what each governed statement keeps while a transaction is open.
 */
module IdentityInvariant {
  import opened Options
  import opened IdentityTables
  import opened IdentityGuards
  import opened IdentityCommit
  import opened SupersessionChains

  // ----- transactions -------------------------------------------------------------------

  /** The statements in order; `None` once any of them is refused. */
  function Run(t: Tables, steps: seq<Step>): (r: Option<Tables>)
    requires |t.log| == |t.named|
    ensures r.Some? ==> |r.value.log| == |r.value.named|
    decreases |steps|
  {
    if steps == [] then Some(t)
    else if Admits(t, steps[0]) then Run(Effect(t, steps[0]), steps[1..])
    else None
  }

  predicate Touched(steps: seq<Step>) {
    exists i | 0 <= i < |steps| :: TouchesParticipants(steps[i])
  }

  predicate Commits(t: Tables, steps: seq<Step>)
    requires |t.log| == |t.named|
  {
    var r := Run(t, steps);
    r.Some? && CommitAccepts(t, r.value, Touched(steps))
  }

  /** The whole transaction: its statements and its commit, or no change at all. */
  function Transact(t: Tables, steps: seq<Step>): (r: Tables)
    requires |t.log| == |t.named|
    ensures |r.log| == |r.named|
  {
    if Commits(t, steps) then Run(t, steps).value else t
  }

  /**
   The stated intent of the plane: a person update and a resolution's observation
   rows ride on a resolution of the same transaction. `from` is the log length when
   the transaction began.
   */
  predicate Governed(from: nat, s: Step) {
    match s
    case UpdatePerson(_, _, state) => state.Some? && from <= state.value
    case NameObservation(r, _) => from <= r
    case _ => true
  }

  predicate AllGoverned(from: nat, steps: seq<Step>) {
    forall i | 0 <= i < |steps| :: Governed(from, steps[i])
  }

  // ----- row rules that hold inside a transaction too ------------------------------------

  ghost predicate LogRows(t: Tables) {
    && |t.named| == |t.log|
    && (forall r | 0 <= r < |t.log| ::
          && t.log[r].retained in t.people
          && (t.log[r].prior.Some? ==> t.log[r].prior.value in t.people)
          && (t.log[r].action == LinkObservation) == t.log[r].prior.None?
          && t.log[r].prior != Some(t.log[r].retained))
    && (forall r | 0 <= r < |t.named| :: t.named[r] <= t.observations.Keys)
  }

  ghost predicate PeopleRows(t: Tables) {
    && Closed(t.people)
    && SupersedesOne(t.people)
    && forall p | p in t.people :: t.people[p].state.Some? ==> t.people[p].state.value < |t.log|
  }

  ghost predicate LinkRows(t: Tables)
    requires |t.named| == |t.log|
  {
    forall o | o in t.links ::
      && t.links[o].resolution < |t.log|
      && o in t.named[t.links[o].resolution]
      && t.log[t.links[o].resolution].retained == t.links[o].person
  }

  predicate IsNamed(t: Tables, o: ObservationId) {
    exists r | 0 <= r < |t.named| :: o in t.named[r]
  }

  ghost predicate AliasRows(t: Tables) {
    forall o | o in t.aliases ::
      && IsNamed(t, o) && o in t.observations
      && HasName(t.observations[o])
      && t.observations[o].name == Some(t.aliases[o].value)
  }

  ghost predicate ParticipantRows(t: Tables) {
    forall p | p in t.participants ::
      t.participants[p].mention.Some? ==> t.participants[p].mention.value in t.mentions
  }

  ghost predicate WellFormed(t: Tables) {
    LogRows(t) && PeopleRows(t) && LinkRows(t) && AliasRows(t) && ParticipantRows(t)
  }

  // ----- what every committed snapshot satisfies ------------------------------------------

  /** A person's row is the outcome of the resolution it cites. */
  ghost predicate StateJustified(t: Tables, p: PersonId)
    requires p in t.people
  {
    var row := t.people[p];
    && row.state.Some? && row.state.value < |t.log|
    && var r := t.log[row.state.value];
    match row.supersededBy
    case Some(q) => r.action == MergePerson && r.retained == q && r.prior == Some(p)
    case None => r.action != MergePerson && r.retained == p
  }

  /** An observation is linked exactly when some resolution names it, and then by the last that does. */
  ghost predicate LinksAreExact(t: Tables)
    requires |t.named| == |t.log|
  {
    && (forall r, o | 0 <= r < |t.named| && o in t.named[r] :: o in t.links)
    && LinksAreLatest(t)
  }

  ghost predicate OwnersAreLive(t: Tables) {
    forall o | o in t.links :: t.links[o].person in t.people && t.people[t.links[o].person].supersededBy.None?
  }

  /** The alias table is a function of the links and the observed names. */
  ghost predicate AliasesAreExact(t: Tables) {
    && (forall o | o in t.aliases ::
          o in t.links && o in t.observations && HasName(t.observations[o]) && AliasOf(t, o, t.aliases[o]))
    && (forall o | o in t.links && o in t.observations && HasName(t.observations[o]) :: o in t.aliases)
  }

  ghost predicate Sound(t: Tables) {
    && WellFormed(t)
    && (forall p | p in t.people :: StateJustified(t, p))
    && AllTerminate(t.people)
    && LinksAreExact(t)
    && OwnersAreLive(t)
    && AliasesAreExact(t)
    && AffiliationsFollow(t)
    && ParticipantsSupported(t)
  }

  /** What a snapshot's people satisfy whatever has become of its links. */
  ghost predicate PeopleSettled(t: Tables) {
    && WellFormed(t)
    && (forall p | p in t.people :: StateJustified(t, p))
    && AllTerminate(t.people)
  }

  lemma EmptyIsSound()
    ensures Sound(EMPTY)
  {
  }

  // ----- an open transaction, relative to the snapshot it began from ----------------------

  /** Row `p` was last written under a resolution of this transaction, as that resolution says. */
  ghost predicate Rewritten(from: nat, t: Tables, p: PersonId)
    requires p in t.people
  {
    StateJustified(t, p) && from <= t.people[p].state.value
  }

  ghost predicate FactsGrow(a: Tables, b: Tables) {
    && a.observations.Keys <= b.observations.Keys
    && (forall o | o in a.observations :: b.observations[o] == a.observations[o])
    && a.mentions.Keys <= b.mentions.Keys
    && (forall m | m in a.mentions :: b.mentions[m] == a.mentions[m])
  }

  ghost predicate LogGrows(a: Tables, b: Tables)
    requires |a.named| == |a.log| && |b.named| == |b.log|
  {
    && a.log <= b.log
    && forall r | 0 <= r < |a.log| :: b.named[r] == a.named[r]
  }

  ghost predicate PeopleFollow(a: Tables, b: Tables) {
    && a.people.Keys <= b.people.Keys
    && forall p | p in a.people :: b.people[p] == a.people[p] || Rewritten(|a.log|, b, p)
  }

  ghost predicate LinksFollow(a: Tables, b: Tables) {
    && a.aliases.Keys <= b.aliases.Keys
    && (|b.log| == |a.log| ==>
          && b.links == a.links
          && AffiliationsFollow(b)
          && AliasOwnersFollow(b))
  }

  ghost predicate UntouchedParticipants(a: Tables, b: Tables) {
    b.participants == a.participants && b.support == a.support && b.links == a.links
  }

  ghost predicate Follows(a: Tables, b: Tables, touched: bool)
    requires |a.named| == |a.log| && |b.named| == |b.log|
  {
    && FactsGrow(a, b)
    && LogGrows(a, b)
    && PeopleFollow(a, b)
    && LinksFollow(a, b)
    && (!touched ==> UntouchedParticipants(a, b))
  }

  // ----- one governed statement -----------------------------------------------------------

  lemma StepKeepsRows(t: Tables, s: Step)
    requires WellFormed(t) && Admits(t, s)
    ensures WellFormed(Effect(t, s))
  {
    StepKeepsLog(t, s);
    StepKeepsPeople(t, s);
    StepKeepsLinks(t, s);
    StepKeepsAliases(t, s);
    StepKeepsParticipants(t, s);
  }

  lemma StepKeepsLog(t: Tables, s: Step)
    requires LogRows(t) && Admits(t, s)
    ensures LogRows(Effect(t, s))
  {
  }

  lemma StepKeepsPeople(t: Tables, s: Step)
    requires PeopleRows(t) && Admits(t, s)
    ensures PeopleRows(Effect(t, s))
  {
  }

  lemma StepKeepsLinks(t: Tables, s: Step)
    requires LogRows(t) && LinkRows(t) && Admits(t, s)
    ensures LogRows(Effect(t, s)) && LinkRows(Effect(t, s))
  {
    StepKeepsLog(t, s);
  }

  lemma StepKeepsNamed(t: Tables, s: Step, o: ObservationId)
    requires Admits(t, s) && IsNamed(t, o)
    ensures IsNamed(Effect(t, s), o)
  {
    var r :| 0 <= r < |t.named| && o in t.named[r];
    assert o in Effect(t, s).named[r];
  }

  lemma StepKeepsAliases(t: Tables, s: Step)
    requires |t.named| == |t.log| && LinkRows(t) && AliasRows(t) && Admits(t, s)
    ensures AliasRows(Effect(t, s))
  {
    var u := Effect(t, s);
    forall o | o in u.aliases
      ensures IsNamed(u, o) && o in u.observations && HasName(u.observations[o])
      ensures u.observations[o].name == Some(u.aliases[o].value)
    {
      if o !in t.aliases {
        assert o in t.named[t.links[o].resolution];
      }
      StepKeepsNamed(t, s, o);
    }
  }

  lemma StepKeepsParticipants(t: Tables, s: Step)
    requires ParticipantRows(t) && Admits(t, s)
    ensures ParticipantRows(Effect(t, s))
  {
  }

  /** With no resolution of its own, a transaction can only write a link back as it was. */
  lemma UnresolvedLinkIsUnchanged(a: Tables, b: Tables, o: ObservationId, p: PersonId, r: nat)
    requires |a.named| == |a.log| == |b.log| == |b.named| && LinksAreExact(a) && LogGrows(a, b)
    requires CurrentLink(b, o, p, r)
    ensures o in a.links && a.links[o] == Link(p, r)
  {
    assert a.named == b.named;
    assert o in a.named[r];
    assert LatestNaming(a, a.links[o].resolution, o);
  }

  lemma StepGrows(t: Tables, s: Step)
    requires LogRows(t) && Admits(t, s)
    ensures |Effect(t, s).named| == |Effect(t, s).log|
    ensures FactsGrow(t, Effect(t, s))
    ensures t.people.Keys <= Effect(t, s).people.Keys
    ensures forall r | 0 <= r < |t.named| :: !(s.NameObservation? && s.position == r) ==> Effect(t, s).named[r] == t.named[r]
    ensures !TouchesParticipants(s) ==> UntouchedParticipants(t, Effect(t, s))
  {
  }

  lemma StepFollows(a: Tables, b: Tables, touched: bool, s: Step)
    requires Sound(a) && WellFormed(b) && Follows(a, b, touched)
    requires Admits(b, s) && Governed(|a.log|, s)
    ensures |Effect(b, s).named| == |Effect(b, s).log|
    ensures Follows(a, Effect(b, s), touched || TouchesParticipants(s))
  {
    StepFollowsPeople(a, b, s);
    StepFollowsLinks(a, b, s);
    StepFollowsFacts(a, b, s);
    StepGrows(b, s);
  }

  lemma StepFollowsFacts(a: Tables, b: Tables, s: Step)
    requires LogRows(a) && LogRows(b) && FactsGrow(a, b) && LogGrows(a, b)
    requires Admits(b, s) && Governed(|a.log|, s)
    ensures |Effect(b, s).named| == |Effect(b, s).log|
    ensures FactsGrow(a, Effect(b, s)) && LogGrows(a, Effect(b, s))
  {
    StepGrows(b, s);
  }

  lemma StepRewritesPerson(from: nat, t: Tables, s: Step, p: PersonId)
    requires Admits(t, s) && Governed(from, s) && s.UpdatePerson? && s.person == p
    requires StateJustified(t, p)
    ensures Rewritten(from, Effect(t, s), p)
  {
  }

  lemma StepKeepsPerson(from: nat, t: Tables, s: Step, p: PersonId)
    requires Admits(t, s) && p in t.people && !(s.UpdatePerson? && s.person == p)
    ensures p in Effect(t, s).people && Effect(t, s).people[p] == t.people[p]
    ensures Rewritten(from, t, p) ==> Rewritten(from, Effect(t, s), p)
  {
  }

  lemma StepFollowsPeople(a: Tables, b: Tables, s: Step)
    requires forall p | p in a.people :: StateJustified(a, p)
    requires |a.named| == |a.log| && |b.named| == |b.log| && LogGrows(a, b) && PeopleFollow(a, b)
    requires Admits(b, s) && Governed(|a.log|, s)
    ensures PeopleFollow(a, Effect(b, s))
  {
    var c := Effect(b, s);
    forall p | p in a.people ensures c.people[p] == a.people[p] || Rewritten(|a.log|, c, p) {
      assert StateJustified(a, p);
      if s.UpdatePerson? && s.person == p {
        StepRewritesPerson(|a.log|, b, s, p);
      } else {
        StepKeepsPerson(|a.log|, b, s, p);
      }
    }
  }

  ghost predicate AliasOwnersFollow(t: Tables) {
    forall o | o in t.aliases && o in t.links :: t.aliases[o].person == t.links[o].person
  }

  lemma AliasOwnersStay(t: Tables, s: Step)
    requires AliasOwnersFollow(t) && Admits(t, s) && Effect(t, s).links == t.links
    ensures AliasOwnersFollow(Effect(t, s))
  {
  }

  lemma AffiliationsStay(t: Tables, s: Step)
    requires AffiliationsFollow(t) && Admits(t, s) && Effect(t, s).links == t.links
    ensures AffiliationsFollow(Effect(t, s))
  {
    var u := Effect(t, s);
    forall f | f in u.affiliations
      ensures OwnedBy(u, u.affiliations[f].observation, u.affiliations[f].person)
    {
      if f in t.affiliations && u.affiliations[f] == t.affiliations[f] {
        assert OwnedBy(t, t.affiliations[f].observation, t.affiliations[f].person);
      }
    }
  }

  lemma AliasesGrow(t: Tables, s: Step)
    requires Admits(t, s)
    ensures t.aliases.Keys <= Effect(t, s).aliases.Keys
    ensures !s.WriteLink? && !s.RekeyLink? ==> Effect(t, s).links == t.links
  {
  }

  lemma StepKeepsUnresolvedLinks(a: Tables, b: Tables, s: Step)
    requires |a.named| == |a.log| == |b.log| == |b.named| && LinksAreExact(a) && LogGrows(a, b)
    requires b.links == a.links && Admits(b, s)
    ensures Effect(b, s).links == a.links
  {
    if s.RekeyLink? {
      UnresolvedLinkIsUnchanged(a, b, s.onto, s.person, s.position);
    } else if s.WriteLink? {
      UnresolvedLinkIsUnchanged(a, b, s.observation, s.person, s.position);
      assert Effect(b, s).links == b.links[s.observation := Link(s.person, s.position)];
    }
  }

  lemma StepFollowsLinks(a: Tables, b: Tables, s: Step)
    requires |a.named| == |a.log| && |b.named| == |b.log| && LinksAreExact(a)
    requires LogGrows(a, b) && LinksFollow(a, b)
    requires Admits(b, s) && Governed(|a.log|, s)
    ensures LinksFollow(a, Effect(b, s))
  {
    AliasesGrow(b, s);
    if |Effect(b, s).log| == |a.log| {
      StepKeepsUnresolvedLinks(a, b, s);
      AliasOwnersStay(b, s);
      AffiliationsStay(b, s);
    }
  }

  lemma TouchedSplits(steps: seq<Step>)
    requires steps != []
    ensures Touched(steps) == (TouchesParticipants(steps[0]) || Touched(steps[1..]))
  {
    if Touched(steps) {
      var i :| 0 <= i < |steps| && TouchesParticipants(steps[i]);
      assert i > 0 ==> TouchesParticipants(steps[1..][i - 1]);
    }
    if Touched(steps[1..]) {
      var i :| 0 <= i < |steps[1..]| && TouchesParticipants(steps[1..][i]);
      assert TouchesParticipants(steps[i + 1]);
    }
  }

  lemma {:induction false} RunFollows(a: Tables, b: Tables, touched: bool, steps: seq<Step>)
    requires Sound(a) && WellFormed(b) && Follows(a, b, touched)
    requires AllGoverned(|a.log|, steps) && Run(b, steps).Some?
    ensures WellFormed(Run(b, steps).value)
    ensures Follows(a, Run(b, steps).value, touched || Touched(steps))
    decreases |steps|
  {
    if steps != [] {
      var first := steps[0];
      assert Governed(|a.log|, first);
      StepKeepsRows(b, first);
      StepFollows(a, b, touched, first);
      TouchedSplits(steps);
      GovernedRest(|a.log|, steps);
      RunFollows(a, Effect(b, first), touched || TouchesParticipants(first), steps[1..]);
    }
  }

  /** Any statements at all keep the row rules. */
  lemma {:induction false} RunKeepsRows(t: Tables, steps: seq<Step>)
    requires WellFormed(t) && Run(t, steps).Some?
    ensures WellFormed(Run(t, steps).value)
    decreases |steps|
  {
    if steps != [] {
      StepKeepsRows(t, steps[0]);
      RunKeepsRows(Effect(t, steps[0]), steps[1..]);
    }
  }

  lemma GovernedRest(from: nat, steps: seq<Step>)
    requires steps != [] && AllGoverned(from, steps)
    ensures Governed(from, steps[0]) && AllGoverned(from, steps[1..])
  {
    forall i | 0 <= i < |steps[1..]| ensures Governed(from, steps[1..][i]) {
      assert steps[1..][i] == steps[i + 1];
    }
  }

  lemma {:induction false} RunFollowsPeople(a: Tables, b: Tables, steps: seq<Step>)
    requires PeopleSettled(a) && WellFormed(b) && FactsGrow(a, b) && LogGrows(a, b) && PeopleFollow(a, b)
    requires AllGoverned(|a.log|, steps) && Run(b, steps).Some?
    ensures LogGrows(a, Run(b, steps).value) && PeopleFollow(a, Run(b, steps).value)
    decreases |steps|
  {
    if steps != [] {
      GovernedRest(|a.log|, steps);
      StepKeepsRows(b, steps[0]);
      StepFollowsPeople(a, b, steps[0]);
      StepFollowsFacts(a, b, steps[0]);
      RunFollowsPeople(a, Effect(b, steps[0]), steps[1..]);
    }
  }

  lemma FollowsItself(a: Tables)
    requires Sound(a)
    ensures Follows(a, a, false)
  {
  }
}
