/**
 Histories that reach what the theorems speak of: merges that are split again, and the
 snapshots on which an ungoverned or key-rewriting statement does its harm.
 */
module IdentityWitness {
  import opened Options
  import opened IdentityTables
  import opened IdentityGuards
  import opened IdentityCommit
  import opened IdentityInvariant
  import opened IdentityCorrection
  import opened IdentityTheorems
  import opened IdentityReachable
  import opened SupersessionChains
  import IdentityGaps

  predicate Live(t: Tables, p: PersonId) {
    p in t.people && t.people[p].supersededBy.None?
  }

  predicate SupersedesNobody(t: Tables, p: PersonId) {
    forall q | q in t.people :: t.people[q].supersededBy != Some(p)
  }

  lemma LinkedIsObserved(t: Tables, o: ObservationId)
    requires LogRows(t) && LinkRows(t) && o in t.links
    ensures o in t.observations && IsNamed(t, o)
  {
    assert o in t.named[t.links[o].resolution];
  }

  lemma EvidencedIsLinked(t: Tables, o: ObservationId)
    requires BareEvidence(t) && SourceOf(o) in t.evidence
    ensures o in t.links && OwnedBy(t, o, t.evidence[SourceOf(o)].person)
  {
    assert (SourceOf(o), o) in t.citations;
  }

  // ----- a merge and its inverse split ------------------------------------------------------

  function MergeOf(p: PersonId, q: PersonId, on: set<ObservationId>): Correction {
    Correction(MergePerson, q, p, on)
  }

  function SplitOf(p: PersonId, q: PersonId, on: set<ObservationId>): Correction {
    Correction(SplitPerson, p, q, on)
  }

  /** The merge of a live person over everything he owns. */
  lemma CanMergeOwner(t: Tables, p: PersonId, q: PersonId, on: set<ObservationId>)
    requires Plain(t) && p != q && p in t.people && Live(t, q) && SupersedesNobody(t, q)
    requires Owned(t, p) == on && on != {}
    ensures CanCorrect(t, MergeOf(p, q, on))
  {
    forall o | o in on ensures o in t.observations && OwnedBy(t, o, p) {
      assert o in Owned(t, p);
      LinkedIsObserved(t, o);
    }
    forall o | o in t.links && o !in on ensures t.links[o].person != p {
      assert o in Owned(t, p) <==> t.links[o].person == p;
    }
  }

  lemma CanSplitAgain(t: Tables, p: PersonId, q: PersonId, on: set<ObservationId>)
    requires CanCorrect(t, MergeOf(p, q, on))
    ensures CanCorrect(Corrected(t, MergeOf(p, q, on)), SplitOf(p, q, on))
  {
  }

  /**
   From any plain snapshot: a live person who owns observations can be merged into any live
   person that nobody is merged into, and split off again, and then owns them all as before.
   */
  lemma AnyMergeCanBeSplit(t: Tables, p: PersonId, q: PersonId, on: set<ObservationId>)
    requires Plain(t) && p != q && Live(t, p) && Live(t, q) && SupersedesNobody(t, q) && Owned(t, p) == on && on != {}
    ensures var u := Corrected(t, MergeOf(p, q, on));
            var v := Corrected(u, SplitOf(p, q, on));
            && |t.log| == |t.named| && |u.log| == |u.named|
            && CommittedOne(t, u, ResolutionOf(MergeOf(p, q, on), |t.log|), on)
            && CommittedOne(u, v, ResolutionOf(SplitOf(p, q, on), |u.log|), on)
            && v.evidence == t.evidence
            && forall x | x in t.links :: x in v.links && v.links[x].person == t.links[x].person
  {
    var merge, split := MergeOf(p, q, on), SplitOf(p, q, on);
    CanMergeOwner(t, p, q, on);
    AnyPairCanBeCorrected(t, merge);
    var u := Corrected(t, merge);
    CanSplitAgain(t, p, q, on);
    AnyPairCanBeCorrected(u, split);
    var v := Corrected(u, split);
    SplitUndoesMerge(t, u, v, ResolutionOf(merge, |t.log|), ResolutionOf(split, |u.log|), p, q);
    EvidenceReturns(t, p, q, on);
  }

  lemma EvidenceReturns(t: Tables, p: PersonId, q: PersonId, on: set<ObservationId>)
    requires BareEvidence(t) && forall o | o in on :: OwnedBy(t, o, p)
    ensures Corrected(Corrected(t, MergeOf(p, q, on)), SplitOf(p, q, on)).evidence == t.evidence
  {
    forall e | e in t.evidence && e.SourceOf? && e.observation in on ensures t.evidence[e].person == p {
      EvidencedIsLinked(t, e.observation);
    }
  }

  // ----- snapshots that histories reach ---------------------------------------------------------

  /** `k` live people, each linked to one observation of his own. */
  ghost predicate OneEach(t: Tables, k: nat) {
    && |t.log| == |t.named| == k
    && (forall p | p in t.people :: p.n < k && t.people[p].supersededBy.None?)
    && (forall o | o in t.observations :: o.n < k)
    && (forall i: nat | i < k :: Per(i) in t.people && t.named[i] == {Obs(i)})
    && (forall i: nat | i < k :: Obs(i) in t.links && t.links[Obs(i)] == Link(Per(i), i))
  }

  ghost predicate Peopled(t: Tables, k: nat) {
    Plain(t) && Reachable(t) && OneEach(t, k)
  }

  lemma FreshCanBeLinked(t: Tables, p: PersonId, o: ObservationId)
    requires LogRows(t) && LinkRows(t) && BareEvidence(t) && p !in t.people && o !in t.observations
    ensures CanLink(Recorded(t, o), p, o, None)
  {
    if o in t.links {
      LinkedIsObserved(t, o);
    }
    if SourceOf(o) in t.evidence {
      EvidencedIsLinked(t, o);
    }
  }

  /** One person and one observation more. */
  function Grown(t: Tables, k: nat): Tables {
    Linked(Recorded(t, Obs(k)), Per(k), Obs(k), None)
  }

  lemma GrownIsReached(t: Tables, k: nat)
    requires Plain(t) && Reachable(t) && Per(k) !in t.people && Obs(k) !in t.observations
    ensures Plain(Grown(t, k)) && Reachable(Grown(t, k))
  {
    var mid := Recorded(t, Obs(k));
    RecordedIsPlain(t, Obs(k));
    ReachableGoesOn(t, mid);
    FreshCanBeLinked(t, Per(k), Obs(k));
    LinkedIsPlain(mid, Per(k), Obs(k));
    ReachableGoesOn(mid, Grown(t, k));
  }

  lemma GrownRows(t: Tables, k: nat)
    requires OneEach(t, k)
    ensures OneEach(Grown(t, k), k + 1)
  {
    assert Grown(t, k).named[k] == {Obs(k)};
  }

  lemma NobodyYet()
    ensures Peopled(EMPTY, 0)
  {
    EmptyIsPlain();
    EmptyIsReachable();
  }

  lemma GrownIsPeopled(t: Tables, k: nat)
    requires Peopled(t, k)
    ensures Peopled(Grown(t, k), k + 1)
  {
    GrownIsReached(t, k);
    GrownRows(t, k);
  }

  /** Histories reach snapshots with as many people as wanted. */
  lemma {:induction false} PeopleAreReached(k: nat)
    ensures exists t :: Peopled(t, k)
  {
    if k == 0 {
      NobodyYet();
    } else {
      PeopleAreReached(k - 1);
      var t :| Peopled(t, k - 1);
      GrownIsPeopled(t, k - 1);
      assert Peopled(Grown(t, k - 1), k);
    }
  }

  // ----- an observation named under an old resolution ---------------------------------------------

  ghost predicate LateNaming(t: Tables, r: nat, o: ObservationId)
    requires |t.log| == |t.named|
  {
    Reachable(t) && Admits(t, NameObservation(r, o)) && Commits(t, [NameObservation(r, o)])
  }

  /** Both outcomes of a late naming row are reached: it may leave the links exact, and it may not. */
  lemma LateNamingGoesBothWays()
    ensures exists t: Tables, r, o | |t.log| == |t.named| ::
              LateNaming(t, r, o) && LinksAreExact(Transact(t, [NameObservation(r, o)]))
    ensures exists t: Tables, r, o | |t.log| == |t.named| ::
              LateNaming(t, r, o) && !LinksAreExact(Transact(t, [NameObservation(r, o)]))
  {
    PeopleAreReached(2);
    var t :| Peopled(t, 2);
    TwoCanBeNamed(t);
    IdentityGaps.NamingUnderAnOldResolution(t, 0, Obs(1));
    IdentityGaps.NamingUnderAnOldResolution(t, 1, Obs(0));
    assert LateNaming(t, 0, Obs(1)) && LateNaming(t, 1, Obs(0));
  }

  lemma TwoCanBeNamed(t: Tables)
    requires LogRows(t) && LinkRows(t) && OneEach(t, 2)
    ensures Admits(t, NameObservation(0, Obs(1))) && Admits(t, NameObservation(1, Obs(0)))
  {
    assert t.named[0] == {Obs(0)} && t.named[1] == {Obs(1)};
    LinkedIsObserved(t, Obs(0));
    LinkedIsObserved(t, Obs(1));
  }

  // ----- a link row moved away -----------------------------------------------------------------------

  /**
   On any plain snapshot, a transaction that links a new person can take the link row of
   an observation without evidence: it commits, and the observation is named but not linked.
   */
  lemma AnUnrestedLinkCanBeLost(t: Tables, p: PersonId, o: ObservationId, away: ObservationId)
    requires Plain(t) && CanLink(t, p, o, Some(away))
    ensures var u := Linked(t, p, o, Some(away));
            && |t.log| == |t.named| == |u.log| - 1 && CommitsTo(t, u, {away})
            && |u.log| == |u.named| && away !in u.links && !LinksAreExact(u) && !Sound(u)
  {
    AnyoneCanBeLinked(t, p, o, Some(away));
    LinkedLength(t, p, o, away);
    CommitsToSoundIff(t, Linked(t, p, o, Some(away)), {away});
  }

  lemma LinkedLength(t: Tables, p: PersonId, o: ObservationId, away: ObservationId)
    requires |t.log| == |t.named| && o != away
    ensures var u := Linked(t, p, o, Some(away)); |u.log| == |u.named| == |t.log| + 1 && away !in u.links
  {
  }

  // ----- a merge replayed ----------------------------------------------------------------------------

  /** Three corrections of one person: merged into `q` over `on`, then into `z` over `x`, then split from `z`. */
  function FirstMerge(t: Tables, p: PersonId, q: PersonId, on: set<ObservationId>, x: ObservationId): Tables {
    Recorded(Corrected(t, MergeOf(p, q, on)), x)
  }

  function SecondMerge(t: Tables, p: PersonId, q: PersonId, z: PersonId, on: set<ObservationId>, x: ObservationId): Tables {
    Corrected(FirstMerge(t, p, q, on, x), MergeOf(p, z, {x}))
  }

  function SplitOff(t: Tables, p: PersonId, q: PersonId, z: PersonId, on: set<ObservationId>, x: ObservationId): Tables {
    Corrected(SecondMerge(t, p, q, z, on, x), SplitOf(p, z, {x}))
  }

  ghost predicate CanReplay(t: Tables, p: PersonId, q: PersonId, z: PersonId, on: set<ObservationId>, x: ObservationId) {
    && Live(t, p) && Live(t, q) && Live(t, z) && p != q && q != z && z != p
    && SupersedesNobody(t, q) && SupersedesNobody(t, z)
    && Owned(t, p) == on && on != {} && x !in t.observations
  }

  lemma CorrectionIsReached(t: Tables, c: Correction)
    requires Plain(t) && Reachable(t) && CanCorrect(t, c)
    ensures Plain(Corrected(t, c)) && Reachable(Corrected(t, c))
  {
    AnyPairCanBeCorrected(t, c);
    ReachableGoesOn(t, Corrected(t, c));
  }

  lemma RecordIsReached(t: Tables, o: ObservationId)
    requires Plain(t) && Reachable(t) && o !in t.observations
    ensures Plain(Recorded(t, o)) && Reachable(Recorded(t, o))
  {
    RecordedIsPlain(t, o);
    ReachableGoesOn(t, Recorded(t, o));
  }

  lemma FirstMergeIsReached(t: Tables, p: PersonId, q: PersonId, z: PersonId, on: set<ObservationId>, x: ObservationId)
    requires Plain(t) && Reachable(t) && CanReplay(t, p, q, z, on, x)
    ensures Plain(FirstMerge(t, p, q, on, x)) && Reachable(FirstMerge(t, p, q, on, x))
  {
    CanMergeOwner(t, p, q, on);
    CorrectionIsReached(t, MergeOf(p, q, on));
    RecordIsReached(Corrected(t, MergeOf(p, q, on)), x);
  }

  /** What the second merge needs, of the rows alone. */
  lemma CanMergeTwice(t: Tables, p: PersonId, q: PersonId, z: PersonId, on: set<ObservationId>, x: ObservationId)
    requires LogRows(t) && LinkRows(t) && BareEvidence(t) && CanReplay(t, p, q, z, on, x)
    requires CanCorrect(t, MergeOf(p, q, on))
    ensures CanCorrect(FirstMerge(t, p, q, on, x), MergeOf(p, z, {x}))
  {
    if SourceOf(x) in t.evidence {
      EvidencedIsLinked(t, x);
      LinkedIsObserved(t, x);
    }
  }

  lemma SecondMergeIsReached(t: Tables, p: PersonId, q: PersonId, z: PersonId, on: set<ObservationId>, x: ObservationId)
    requires Plain(t) && Reachable(t) && CanReplay(t, p, q, z, on, x)
    ensures Plain(SecondMerge(t, p, q, z, on, x)) && Reachable(SecondMerge(t, p, q, z, on, x))
    ensures CanCorrect(FirstMerge(t, p, q, on, x), MergeOf(p, z, {x}))
  {
    FirstMergeIsReached(t, p, q, z, on, x);
    CanMergeOwner(t, p, q, on);
    CanMergeTwice(t, p, q, z, on, x);
    CorrectionIsReached(FirstMerge(t, p, q, on, x), MergeOf(p, z, {x}));
  }

  lemma SplitOffIsReached(t: Tables, p: PersonId, q: PersonId, z: PersonId, on: set<ObservationId>, x: ObservationId)
    requires Plain(t) && Reachable(t) && CanReplay(t, p, q, z, on, x)
    ensures Plain(SplitOff(t, p, q, z, on, x)) && Reachable(SplitOff(t, p, q, z, on, x))
  {
    FirstMergeIsReached(t, p, q, z, on, x);
    SecondMergeIsReached(t, p, q, z, on, x);
    CanSplitAgain(FirstMerge(t, p, q, on, x), p, z, {x});
    CorrectionIsReached(SecondMerge(t, p, q, z, on, x), SplitOf(p, z, {x}));
  }

  lemma CorrectedPerson(t: Tables, c: Correction)
    ensures Corrected(t, c).people == t.people[Subject(c) := RowAfter(c, |t.log|)]
    ensures |Corrected(t, c).log| == |t.log| + 1
  {
  }

  /** The rows of the person and of the log then. */
  lemma SplitOffPeople(t: Tables, p: PersonId, q: PersonId, z: PersonId, on: set<ObservationId>, x: ObservationId)
    ensures SplitOff(t, p, q, z, on, x).people == t.people[p := Person(None, Some(|t.log| + 2))]
  {
    CorrectedPerson(t, MergeOf(p, q, on));
    CorrectedPerson(FirstMerge(t, p, q, on, x), MergeOf(p, z, {x}));
    CorrectedPerson(SecondMerge(t, p, q, z, on, x), SplitOf(p, z, {x}));
    PersonRewritten(t.people, p, Person(Some(q), Some(|t.log|)), Person(Some(z), Some(|t.log| + 1)),
                    Person(None, Some(|t.log| + 2)));
  }

  lemma PersonRewritten(people: map<PersonId, Person>, p: PersonId, a: Person, b: Person, c: Person)
    ensures people[p := a][p := b][p := c] == people[p := c]
  {
  }

  lemma SplitOffRows(t: Tables, p: PersonId, q: PersonId, z: PersonId, on: set<ObservationId>, x: ObservationId)
    ensures var n, u := |t.log|, SplitOff(t, p, q, z, on, x);
            && u.log == t.log + [ResolutionOf(MergeOf(p, q, on), n), ResolutionOf(MergeOf(p, z, {x}), n + 1),
                                 ResolutionOf(SplitOf(p, z, {x}), n + 2)]
            && OwnedBy(u, x, p)
  {
    var n := |t.log|;
    assert FirstMerge(t, p, q, on, x).log == t.log + [ResolutionOf(MergeOf(p, q, on), n)];
    assert SecondMerge(t, p, q, z, on, x).log
        == t.log + [ResolutionOf(MergeOf(p, q, on), n)] + [ResolutionOf(MergeOf(p, z, {x}), n + 1)];
  }

  lemma CanSupersedeAgain(t: Tables, u: Tables, p: PersonId, q: PersonId, z: PersonId, on: set<ObservationId>, x: ObservationId)
    requires PeopleRows(t) && CanReplay(t, p, q, z, on, x)
    requires u.people == t.people[p := Person(None, Some(|t.log| + 2))]
    requires u.log == t.log + [ResolutionOf(MergeOf(p, q, on), |t.log|), ResolutionOf(MergeOf(p, z, {x}), |t.log| + 1),
                               ResolutionOf(SplitOf(p, z, {x}), |t.log| + 2)]
    ensures Admits(u, UpdatePerson(p, Some(q), Some(|t.log|))) && IsChain(u.people, [q])
  {
    assert u.log[|t.log|] == ResolutionOf(MergeOf(p, q, on), |t.log|);
    assert LatestOfPair(u, |t.log|);
  }

  /**
   After those three corrections the first merge can be replayed: the update commits, and
   the person is superseded and still owns the observation of the other two.
   */
  lemma AnyMergeCanBeReplayed(t: Tables, p: PersonId, q: PersonId, z: PersonId, on: set<ObservationId>, x: ObservationId)
    requires Plain(t) && Reachable(t) && CanReplay(t, p, q, z, on, x)
    ensures var n, u := |t.log|, SplitOff(t, p, q, z, on, x);
            && Reachable(u) && Plain(u)
            && |u.log| == |u.named| && Commits(u, [UpdatePerson(p, Some(q), Some(n))])
            && !OwnersAreLive(Transact(u, [UpdatePerson(p, Some(q), Some(n))]))
  {
    var n, u := |t.log|, SplitOff(t, p, q, z, on, x);
    SplitOffIsReached(t, p, q, z, on, x);
    SplitOffPeople(t, p, q, z, on, x);
    SplitOffRows(t, p, q, z, on, x);
    CanSupersedeAgain(t, u, p, q, z, on, x);
    OwnerIsSuperseded(u, p, q, n, x);
  }

  lemma OwnerIsSuperseded(u: Tables, p: PersonId, q: PersonId, r: nat, x: ObservationId)
    requires Sound(u) && Admits(u, UpdatePerson(p, Some(q), Some(r))) && IsChain(u.people, [q]) && OwnedBy(u, x, p)
    ensures Commits(u, [UpdatePerson(p, Some(q), Some(r))])
    ensures !OwnersAreLive(Transact(u, [UpdatePerson(p, Some(q), Some(r))]))
  {
    IdentityGaps.SupersedingUnderAnOldMerge(u, p, q, r, [q]);
  }

  lemma ThreeCanReplay(t: Tables)
    requires LogRows(t) && LinkRows(t) && OneEach(t, 3)
    ensures CanReplay(t, Per(0), Per(1), Per(2), {Obs(0)}, Obs(3))
  {
    forall o | o in t.links ensures o.n < 3 && t.links[o].person == Per(o.n) {
      LinkedIsObserved(t, o);
      assert o == Obs(o.n);
    }
    assert Owned(t, Per(0)) == {Obs(0)};
  }

  /** Such a snapshot is reached: some governed history is followed by an update that breaks live ownership. */
  lemma AnOldMergeIsReplayed()
    ensures exists transactions: seq<seq<Step>>, s: Step ::
              && GovernedHistory(transactions) && RelinkingHistory(transactions)
              && Commits(History(transactions), [s])
              && !OwnersAreLive(Transact(History(transactions), [s]))
  {
    PeopleAreReached(3);
    var t :| Peopled(t, 3);
    ThreeCanReplay(t);
    AnyMergeCanBeReplayed(t, Per(0), Per(1), Per(2), {Obs(0)}, Obs(3));
    BreaksOwners(SplitOff(t, Per(0), Per(1), Per(2), {Obs(0)}, Obs(3)), UpdatePerson(Per(0), Some(Per(1)), Some(3)));
  }

  lemma BreaksOwners(u: Tables, s: Step)
    requires Reachable(u) && |u.log| == |u.named| && Commits(u, [s]) && !OwnersAreLive(Transact(u, [s]))
    ensures exists transactions: seq<seq<Step>>, s: Step ::
              && GovernedHistory(transactions) && RelinkingHistory(transactions)
              && Commits(History(transactions), [s])
              && !OwnersAreLive(Transact(History(transactions), [s]))
  {
    var transactions :| GovernedHistory(transactions) && RelinkingHistory(transactions) && History(transactions) == u;
    assert Commits(History(transactions), [s]) && !OwnersAreLive(Transact(History(transactions), [s]));
  }

  lemma CorrectedKeys(t: Tables, c: Correction)
    requires Subject(c) in t.people
    ensures var u := Corrected(t, c);
            && u.observations == t.observations && u.named == t.named + [c.on]
            && u.links.Keys == t.links.Keys + c.on
            && u.evidence.Keys == t.evidence.Keys && u.people.Keys == t.people.Keys
  {
  }

  lemma SecondMergeRows(t: Tables, p: PersonId, q: PersonId, z: PersonId, on: set<ObservationId>, x: ObservationId)
    requires p in t.people
    ensures var u := SecondMerge(t, p, q, z, on, x);
            && u.observations == t.observations[x := BareRow(x)] && u.named == t.named + [on] + [{x}]
            && u.links.Keys == t.links.Keys + on + {x}
            && u.evidence.Keys == t.evidence.Keys && u.people.Keys == t.people.Keys
  {
    CorrectedKeys(t, MergeOf(p, q, on));
    var u := FirstMerge(t, p, q, on, x);
    assert p in u.people.Keys;
    CorrectedKeys(u, MergeOf(p, z, {x}));
  }

  lemma CanLose(t: Tables, p: PersonId, q: PersonId, z: PersonId, on: set<ObservationId>, x: ObservationId, n: PersonId,
                w: ObservationId)
    requires LogRows(t) && LinkRows(t) && BareEvidence(t) && x !in t.observations && x != w
    requires on <= t.observations.Keys && w !in t.observations && n !in t.people && p in t.people && p != n
    ensures CanLink(Recorded(SecondMerge(t, p, q, z, on, x), w), n, w, Some(x))
  {
    SecondMergeRows(t, p, q, z, on, x);
    forall o | o == x || o == w ensures SourceOf(o) !in t.evidence && o !in t.links {
      NeitherLinkedNorEvidenced(t, o);
    }
    LosesLink(t, Recorded(SecondMerge(t, p, q, z, on, x), w), on, x, n, w);
  }

  lemma NeitherLinkedNorEvidenced(t: Tables, o: ObservationId)
    requires LogRows(t) && LinkRows(t) && BareEvidence(t) && o !in t.observations
    ensures SourceOf(o) !in t.evidence && o !in t.links
  {
    if SourceOf(o) in t.evidence {
      EvidencedIsLinked(t, o);
    }
    if o in t.links {
      LinkedIsObserved(t, o);
    }
  }

  lemma LosesLink(t: Tables, u: Tables, on: set<ObservationId>, x: ObservationId, n: PersonId, w: ObservationId)
    requires LogRows(t) && on <= t.observations.Keys && w !in t.observations && n !in t.people && x != w
    requires forall o | o == x || o == w :: SourceOf(o) !in t.evidence && o !in t.links
    requires w in u.observations && u.named == t.named + [on] + [{x}] && u.links.Keys == t.links.Keys + on + {x}
    requires u.evidence.Keys == t.evidence.Keys && u.people.Keys == t.people.Keys
    ensures CanLink(u, n, w, Some(x))
  {
  }

  /**
   And so is one on which a transaction within the stated intent loses a link: it names
   only under its own resolution, updates only under it, and moves a link row away.
   */
  lemma ALinkIsLost()
    ensures exists transactions: seq<seq<Step>>, steps: seq<Step> ::
              && GovernedHistory(transactions) && RelinkingHistory(transactions)
              && AllGoverned(|History(transactions).log|, steps) && Commits(History(transactions), steps)
              && !LinksAreExact(Transact(History(transactions), steps))
  {
    PeopleAreReached(3);
    var t :| Peopled(t, 3);
    ThreeCanReplay(t);
    SecondMergeIsReached(t, Per(0), Per(1), Per(2), {Obs(0)}, Obs(3));
    var u := SecondMerge(t, Per(0), Per(1), Per(2), {Obs(0)}, Obs(3));
    assert Obs(0) in Owned(t, Per(0));
    LinkedIsObserved(t, Obs(0));
    CanLose(t, Per(0), Per(1), Per(2), {Obs(0)}, Obs(3), Per(3), Obs(4));
    RecordIsReached(u, Obs(4));
    AnUnrestedLinkCanBeLost(Recorded(u, Obs(4)), Per(3), Obs(4), Obs(3));
    BreaksLinks(Recorded(u, Obs(4)), Linked(Recorded(u, Obs(4)), Per(3), Obs(4), Some(Obs(3))), {Obs(3)});
  }

  lemma BreaksLinks(t: Tables, u: Tables, moved: set<ObservationId>)
    requires Reachable(t) && |t.log| == |t.named| && |u.log| == |u.named| && CommitsTo(t, u, moved) && !LinksAreExact(u)
    ensures exists transactions: seq<seq<Step>>, steps: seq<Step> ::
              && GovernedHistory(transactions) && RelinkingHistory(transactions)
              && AllGoverned(|History(transactions).log|, steps) && Commits(History(transactions), steps)
              && !LinksAreExact(Transact(History(transactions), steps))
  {
    var transactions :| GovernedHistory(transactions) && RelinkingHistory(transactions) && History(transactions) == t;
    var steps: seq<Step> :| AllGoverned(|t.log|, steps) && Commits(t, steps) && Transact(t, steps) == u
      && forall o :: RekeyedAway(steps, o) <==> o in moved;
    assert AllGoverned(|History(transactions).log|, steps) && Commits(History(transactions), steps);
  }
}
