/**
 Transactions that do commit. A plain snapshot holds nameless observations and their
 source evidence and nothing else that rests on a link; from any such snapshot people
 can be linked, merged and split again, so every history of corrections goes on.
 */
module IdentityReachable {
  import opened Options
  import opened IdentityTables
  import opened IdentityGuards
  import opened IdentityCommit
  import opened IdentityInvariant
  import opened IdentityCorrection
  import opened IdentityTheorems
  import IdentityPlane

  // ----- running statements -----------------------------------------------------------------

  /** Governed statements, moving away just the link rows of `moved`, take `t` to `u`. */
  ghost predicate Goes(from: nat, t: Tables, u: Tables, moved: set<ObservationId>) {
    && |t.log| == |t.named|
    && exists steps: seq<Step> ::
         && AllGoverned(from, steps)
         && Run(t, steps) == Some(u)
         && forall o :: RekeyedAway(steps, o) <==> o in moved
  }

  function MovedAway(s: Step): set<ObservationId> {
    if s.RekeyLink? then {s.observation} else {}
  }

  lemma GoesNowhere(from: nat, t: Tables)
    requires |t.log| == |t.named|
    ensures Goes(from, t, t, {})
  {
    assert AllGoverned(from, []) && Run(t, []) == Some(t) && forall o :: !RekeyedAway([], o);
  }

  lemma RekeyedAwayAppends(steps: seq<Step>, s: Step, o: ObservationId)
    ensures RekeyedAway(steps + [s], o) <==> RekeyedAway(steps, o) || o in MovedAway(s)
  {
    var all := steps + [s];
    assert all[|steps|] == s;
    if i :| 0 <= i < |steps| && steps[i].RekeyLink? && steps[i].observation == o {
      assert all[i] == steps[i];
    }
  }

  lemma GovernedAppends(from: nat, steps: seq<Step>, s: Step)
    requires AllGoverned(from, steps) && Governed(from, s)
    ensures AllGoverned(from, steps + [s])
  {
  }

  lemma GoesOn(from: nat, t: Tables, mid: Tables, moved: set<ObservationId>, s: Step, u: Tables)
    requires Goes(from, t, mid, moved)
    requires StepsTo(mid, s, u) && Governed(from, s)
    ensures Goes(from, t, u, moved + MovedAway(s))
  {
    var steps: seq<Step> :| AllGoverned(from, steps) && Run(t, steps) == Some(mid)
      && forall o :: RekeyedAway(steps, o) <==> o in moved;
    IdentityPlane.RunAppends(t, steps, s);
    forall o ensures RekeyedAway(steps + [s], o) <==> o in moved + MovedAway(s) {
      RekeyedAwayAppends(steps, s, o);
    }
    GovernedAppends(from, steps, s);
  }

  predicate StepsTo(t: Tables, s: Step, u: Tables) {
    Admits(t, s) && Effect(t, s) == u
  }

  /** Tables that governed statements, key rewrites apart, lead out of to none but themselves. */
  ghost predicate Closed(from: nat, reach: Tables -> bool) {
    forall t, s, u | reach(t) && StepsTo(t, s, u) :: Governed(from, s) && !s.RekeyLink? ==> reach(u)
  }

  lemma GoingIsClosed(from: nat, t: Tables, moved: set<ObservationId>) returns (reach: Tables -> bool)
    ensures Closed(from, reach) && forall u :: reach(u) <==> Goes(from, t, u, moved)
  {
    reach := u => Goes(from, t, u, moved);
    forall mid, s, u | reach(mid) && StepsTo(mid, s, u) && Governed(from, s) && !s.RekeyLink? ensures reach(u) {
      GoesOn(from, t, mid, moved, s, u);
      assert moved + MovedAway(s) == moved;
    }
  }

  /** `u` is what a governed transaction that moves away just the link rows of `moved` commits to. */
  ghost predicate CommitsTo(t: Tables, u: Tables, moved: set<ObservationId>)
    requires |t.log| == |t.named|
  {
    exists steps: seq<Step> ::
      && AllGoverned(|t.log|, steps)
      && Commits(t, steps)
      && Transact(t, steps) == u
      && forall o :: RekeyedAway(steps, o) <==> o in moved
  }

  lemma GoesAndCommits(t: Tables, u: Tables, moved: set<ObservationId>)
    requires Goes(|t.log|, t, u, moved) && |u.log| == |u.named| && CommitAccepts(t, u, true)
    ensures CommitsTo(t, u, moved)
  {
    var steps: seq<Step> :| AllGoverned(|t.log|, steps) && Run(t, steps) == Some(u)
      && forall o :: RekeyedAway(steps, o) <==> o in moved;
    assert Commits(t, steps);
  }

  lemma CommittedIsOne(t: Tables, u: Tables, r: Resolution, on: set<ObservationId>)
    requires |t.log| == |t.named| && CommitsTo(t, u, {})
    requires u.log == t.log + [r] && u.named == t.named + [on]
    ensures CommittedOne(t, u, r, on)
  {
    var steps: seq<Step> :| AllGoverned(|t.log|, steps) && Commits(t, steps) && Transact(t, steps) == u
      && forall o :: RekeyedAway(steps, o) <==> o in {};
    assert forall o :: !RekeyedAway(steps, o);
    assert Relinks(t, steps);
  }

  // ----- what one statement needs and leaves -----------------------------------------------------

  lemma OpensSet(from: nat, reach: Tables -> bool, t: Tables, k: SetId, kind: CandidateKind)
    requires Closed(from, reach) && reach(t)
    requires k !in t.candidates
    ensures reach(WithSet(t, k, CandidateSet(kind, {}, {})))
  {
    assert StepsTo(t, OpenSet(k, kind), WithSet(t, k, CandidateSet(kind, {}, {})));
  }

  /** The tables with the candidate set `k` as given. */
  function WithSet(t: Tables, k: SetId, s: CandidateSet): Tables {
    t.(candidates := t.candidates[k := s])
  }

  lemma AddsObservation(from: nat, reach: Tables -> bool, t: Tables, k: SetId, o: ObservationId, s: CandidateSet)
    requires Closed(from, reach) && reach(WithSet(t, k, s)) && o in t.observations && o !in s.observations
    ensures reach(WithSet(t, k, CandidateSet(s.kind, s.people, s.observations + {o})))
  {
    assert StepsTo(WithSet(t, k, s), AddObservationCandidate(k, o),
                   WithSet(t, k, CandidateSet(s.kind, s.people, s.observations + {o})));
  }

  lemma AddsPerson(from: nat, reach: Tables -> bool, t: Tables, k: SetId, p: PersonId, s: CandidateSet)
    requires Closed(from, reach) && reach(WithSet(t, k, s)) && p in t.people && p !in s.people
    ensures reach(WithSet(t, k, CandidateSet(s.kind, s.people + {p}, s.observations)))
  {
    assert StepsTo(WithSet(t, k, s), AddPersonCandidate(k, p),
                   WithSet(t, k, CandidateSet(s.kind, s.people + {p}, s.observations)));
  }

  lemma OpensCase(from: nat, reach: Tables -> bool, t: Tables, c: CaseId, review: ReviewCase)
    requires Closed(from, reach) && reach(t)
    requires c !in t.cases && HonestCase(t, review)
    ensures reach(t.(cases := t.cases[c := review]))
  {
    assert StepsTo(t, OpenCase(c, review), t.(cases := t.cases[c := review]));
  }

  lemma Rules(from: nat, reach: Tables -> bool, t: Tables, d: DecisionId, c: CaseId)
    requires Closed(from, reach) && reach(t)
    requires d !in t.decisions && c in t.cases && forall e | e in t.decisions :: t.decisions[e].reviewCase != c
    ensures reach(t.(decisions := t.decisions[d := Decision(c, 1, Accept)]))
  {
    assert StepsTo(t, Decide(d, Decision(c, 1, Accept)), t.(decisions := t.decisions[d := Decision(c, 1, Accept)]));
  }

  lemma InsertsPerson(from: nat, reach: Tables -> bool, t: Tables, p: PersonId)
    requires Closed(from, reach) && reach(t)
    requires p !in t.people
    ensures reach(t.(people := t.people[p := Person(None, None)]))
  {
    assert StepsTo(t, InsertPerson(p, None, None), t.(people := t.people[p := Person(None, None)]));
  }

  lemma Resolves(from: nat, reach: Tables -> bool, t: Tables, r: Resolution)
    requires Closed(from, reach) && reach(t)
    requires ResolutionRow(t, r) && Reviewed(t, r)
    ensures reach(t.(log := t.log + [r], named := t.named + [{}]))
  {
    assert StepsTo(t, Resolve(r), t.(log := t.log + [r], named := t.named + [{}]));
  }

  /** The tables with just these observations named under resolution `r`. */
  function WithNamed(t: Tables, r: nat, on: set<ObservationId>): Tables
    requires r < |t.named|
  {
    t.(named := t.named[r := on])
  }

  lemma NamesOne(from: nat, reach: Tables -> bool, t: Tables, r: nat, o: ObservationId, on: set<ObservationId>)
    requires from <= r && Closed(from, reach)
    requires r < |t.named| && o in t.observations && o !in on && reach(WithNamed(t, r, on))
    ensures reach(WithNamed(t, r, on + {o}))
  {
    assert StepsTo(WithNamed(t, r, on), NameObservation(r, o), WithNamed(t, r, on + {o}));
  }

  lemma WritesLink(from: nat, reach: Tables -> bool, t: Tables, o: ObservationId, p: PersonId, r: nat)
    requires Closed(from, reach) && reach(t)
    requires CurrentLink(t, o, p, r)
    ensures reach(t.(links := t.links[o := Link(p, r)]))
  {
    assert StepsTo(t, WriteLink(o, p, r), t.(links := t.links[o := Link(p, r)]));
  }

  lemma UpdatesPerson(from: nat, reach: Tables -> bool, t: Tables, p: PersonId, row: Person)
    requires Closed(from, reach) && reach(t) && row.state.Some? && from <= row.state.value
    requires p in t.people && PersonRow(t, p, row) && PersonChange(t, p, t.people[p], row)
    ensures reach(t.(people := t.people[p := row]))
  {
    assert StepsTo(t, UpdatePerson(p, row.supersededBy, row.state), t.(people := t.people[p := row]));
  }

  lemma InsertsEvidence(from: nat, reach: Tables -> bool, t: Tables, e: EvidenceId, item: Evidence)
    requires Closed(from, reach) && reach(t)
    requires e !in t.evidence && item.person in t.people
    ensures reach(t.(evidence := t.evidence[e := item]))
  {
    assert StepsTo(t, InsertEvidence(e, item), t.(evidence := t.evidence[e := item]));
  }

  lemma Cites(from: nat, reach: Tables -> bool, t: Tables, e: EvidenceId, o: ObservationId)
    requires Closed(from, reach) && reach(t)
    requires e in t.evidence && o in t.observations && (e, o) !in t.citations
    ensures reach(t.(citations := t.citations + {(e, o)}))
  {
    assert StepsTo(t, Cite(e, o), t.(citations := t.citations + {(e, o)}));
  }

  lemma MovesItem(from: nat, reach: Tables -> bool, t: Tables, e: EvidenceId, p: PersonId)
    requires Closed(from, reach) && reach(t)
    requires e in t.evidence && p in t.people && MovedBy(t, t.evidence[e].person, p, CitedBy(t, e))
    ensures reach(t.(evidence := t.evidence[e := t.evidence[e].(person := p)]))
  {
    assert StepsTo(t, MoveEvidence(e, p), t.(evidence := t.evidence[e := t.evidence[e].(person := p)]));
  }

  // ----- statements repeated over a set --------------------------------------------------------

  lemma {:induction false} AddsPeople(from: nat, reach: Tables -> bool, mid: Tables, k: SetId, kind: CandidateKind,
                                      have: set<PersonId>, more: set<PersonId>)
    requires Closed(from, reach) && reach(WithSet(mid, k, CandidateSet(kind, have, {})))
    requires more <= mid.people.Keys && more !! have
    ensures reach(WithSet(mid, k, CandidateSet(kind, have + more, {})))
    decreases |more|
  {
    if more == {} {
      assert have + more == have;
    } else {
      var p :| p in more;
      AddsPerson(from, reach, mid, k, p, CandidateSet(kind, have, {}));
      AddsPeople(from, reach, mid, k, kind, have + {p}, more - {p});
      assert have + {p} + (more - {p}) == have + more;
    }
  }

  lemma {:induction false} AddsObservations(from: nat, reach: Tables -> bool, mid: Tables, k: SetId, s: CandidateSet,
                                            have: set<ObservationId>, more: set<ObservationId>)
    requires Closed(from, reach) && reach(WithSet(mid, k, CandidateSet(s.kind, s.people, have)))
    requires more <= mid.observations.Keys && more !! have
    ensures reach(WithSet(mid, k, CandidateSet(s.kind, s.people, have + more)))
    decreases |more|
  {
    if more == {} {
      assert have + more == have;
    } else {
      var o :| o in more;
      AddsObservation(from, reach, mid, k, o, CandidateSet(s.kind, s.people, have));
      AddsObservations(from, reach, mid, k, s, have + {o}, more - {o});
      assert have + {o} + (more - {o}) == have + more;
    }
  }

  lemma {:induction false} Names(from: nat, reach: Tables -> bool, mid: Tables, r: nat,
                                 on: set<ObservationId>, more: set<ObservationId>)
    requires from <= r < |mid.named| && Closed(from, reach) && reach(WithNamed(mid, r, on))
    requires more <= mid.observations.Keys && more !! on
    ensures reach(WithNamed(mid, r, on + more))
    decreases |more|
  {
    if more == {} {
      assert on + more == on;
    } else {
      var o :| o in more;
      NamesOne(from, reach, mid, r, o, on);
      Names(from, reach, mid, r, on + {o}, more - {o});
      assert on + {o} + (more - {o}) == on + more;
    }
  }

  function LinkedTo(links: map<ObservationId, Link>, on: set<ObservationId>, l: Link): map<ObservationId, Link> {
    links + map o | o in on :: l
  }

  lemma StillCurrent(t: Tables, u: Tables, o: ObservationId, p: PersonId, r: nat)
    requires CurrentLink(t, o, p, r) && u.log == t.log && u.named == t.named
    ensures CurrentLink(u, o, p, r)
  {
  }

  lemma LinkedToGrows(links: map<ObservationId, Link>, o: ObservationId, on: set<ObservationId>, l: Link)
    requires o in on
    ensures LinkedTo(links[o := l], on - {o}, l) == LinkedTo(links, on, l)
  {
  }

  lemma {:induction false} WritesLinks(from: nat, reach: Tables -> bool, mid: Tables,
                                       on: set<ObservationId>, p: PersonId, r: nat)
    requires Closed(from, reach) && reach(mid) && forall o | o in on :: CurrentLink(mid, o, p, r)
    ensures reach(mid.(links := LinkedTo(mid.links, on, Link(p, r))))
    decreases |on|
  {
    if on == {} {
      assert LinkedTo(mid.links, on, Link(p, r)) == mid.links;
    } else {
      var o :| o in on;
      var next := mid.(links := mid.links[o := Link(p, r)]);
      WritesLink(from, reach, mid, o, p, r);
      forall x | x in on ensures CurrentLink(next, x, p, r) {
        StillCurrent(mid, next, x, p, r);
      }
      WritesLinks(from, reach, next, on - {o}, p, r);
      LinkedToGrows(mid.links, o, on, Link(p, r));
    }
  }

  /** The source evidence of these observations, as far as there is any, given to `p`. */
  function Given(evidence: map<EvidenceId, Evidence>, on: set<ObservationId>, p: PersonId): map<EvidenceId, Evidence> {
    map e | e in evidence :: if e.SourceOf? && e.observation in on then evidence[e].(person := p) else evidence[e]
  }

  /** The source evidence of `o`, if there is any, may be moved to `p`. */
  ghost predicate MayMove(t: Tables, o: ObservationId, p: PersonId) {
    var e := SourceOf(o);
    e in t.evidence ==> MovedBy(t, t.evidence[e].person, p, CitedBy(t, e))
  }

  lemma MayStillMove(t: Tables, u: Tables, o: ObservationId, p: PersonId)
    requires MayMove(t, o, p) && u.log == t.log && u.links == t.links && u.citations == t.citations
    requires SourceOf(o) in u.evidence ==> SourceOf(o) in t.evidence && u.evidence[SourceOf(o)] == t.evidence[SourceOf(o)]
    ensures MayMove(u, o, p)
  {
    assert CitedBy(u, SourceOf(o)) == CitedBy(t, SourceOf(o));
  }

  lemma {:induction false} MovesEvidence(from: nat, reach: Tables -> bool, mid: Tables, on: set<ObservationId>, p: PersonId)
    requires Closed(from, reach) && reach(mid) && p in mid.people && forall o | o in on :: MayMove(mid, o, p)
    ensures reach(mid.(evidence := Given(mid.evidence, on, p)))
    decreases |on|
  {
    if on == {} {
      assert Given(mid.evidence, on, p) == mid.evidence;
    } else {
      var o :| o in on;
      var e := SourceOf(o);
      if e in mid.evidence {
        var next := mid.(evidence := mid.evidence[e := mid.evidence[e].(person := p)]);
        assert MayMove(mid, o, p);
        MovesItem(from, reach, mid, e, p);
        forall x | x in on - {o} ensures MayMove(next, x, p) {
          MayStillMove(mid, next, x, p);
        }
        MovesEvidence(from, reach, next, on - {o}, p);
        assert Given(next.evidence, on - {o}, p) == Given(mid.evidence, on, p);
      } else {
        MovesEvidence(from, reach, mid, on - {o}, p);
        assert Given(mid.evidence, on - {o}, p) == Given(mid.evidence, on, p);
      }
    }
  }

  // ----- plain snapshots ------------------------------------------------------------------------

  function BareRow(o: ObservationId): Observation {
    Observation(None, Origin(0), Source(o.n))
  }

  /** Review rows are numbered by the resolutions they led to. */
  ghost predicate Filed(t: Tables) {
    && (forall k | k in t.candidates :: k.n < |t.log|)
    && (forall k | k in t.cases :: k.n < |t.log| && t.cases[k].candidates.n < |t.log|)
    && (forall k | k in t.decisions :: k.n < |t.log| && t.decisions[k].reviewCase.n < |t.log|)
    && (forall r | 0 <= r < |t.log| :: t.log[r].decision.n < |t.log|)
  }

  ghost predicate BareEvidence(t: Tables) {
    && (forall e | e in t.evidence :: e.SourceOf? && (e, e.observation) in t.citations)
    && (forall c | c in t.citations :: c.0 == SourceOf(c.1) && c.0 in t.evidence)
    && EvidenceFollows(t)
  }

  ghost predicate Bare(t: Tables) {
    && (forall o | o in t.observations :: t.observations[o] == BareRow(o))
    && t.aliases == map[] && t.affiliations == map[] && t.participants == map[] && t.support == {}
    && BareEvidence(t)
  }

  ghost predicate Plain(t: Tables) {
    Sound(t) && Filed(t) && Bare(t)
  }

  lemma EmptyIsPlain()
    ensures Plain(EMPTY)
  {
    EmptyIsSound();
  }

  lemma BareDependentsFollow(t: Tables)
    requires Bare(t)
    ensures DependentsFollow(t) && ParticipantsSupported(t)
  {
    assert forall o | o in t.observations :: !HasName(t.observations[o]);
  }

  lemma LatestExtends(t: Tables, u: Tables, on: set<ObservationId>, l: Link)
    requires LogRows(t) && LinksAreLatest(t) && |u.log| == |u.named| == |t.log| + 1
    requires u.named == t.named + [on] && u.log[..|t.log|] == t.log
    requires l.resolution == |t.log| && u.log[|t.log|].retained == l.person
    requires forall o | o in u.links :: if o in on then u.links[o] == l else o in t.links && u.links[o] == t.links[o]
    ensures LinksAreLatest(u)
  {
    forall o | o in u.links ensures LatestNaming(u, u.links[o].resolution, o) {
      if o !in on {
        assert LatestNaming(t, t.links[o].resolution, o);
      }
    }
  }

  // ----- what a link and a correction begin with --------------------------------------------------

  /** A candidate set, its case and an accepting decision, numbered by the resolution they are for. */
  function Ruled(t: Tables, s: CandidateSet, review: ReviewCase): Tables {
    var n := |t.log|;
    t.(candidates := t.candidates[Set(n) := s], cases := t.cases[Case(n) := review],
       decisions := t.decisions[Dec(n) := Decision(Case(n), 1, Accept)])
  }

  /** The resolution and the observations it names. */
  function Resolved(t: Tables, r: Resolution, on: set<ObservationId>): Tables {
    t.(log := t.log + [r], named := t.named + [on])
  }

  lemma CandidatesAreGathered(t: Tables, reach: Tables -> bool, s: CandidateSet)
    requires Closed(|t.log|, reach) && reach(t) && Filed(t)
    requires s.people <= t.people.Keys && s.observations <= t.observations.Keys
    ensures reach(WithSet(t, Set(|t.log|), s))
  {
    var n, k := |t.log|, Set(|t.log|);
    OpensSet(n, reach, t, k, s.kind);
    AddsPeople(n, reach, t, k, s.kind, {}, s.people);
    assert {} + s.people == s.people;
    AddsObservations(n, reach, t, k, s, {}, s.observations);
    assert {} + s.observations == s.observations;
  }

  lemma CaseIsRuled(t: Tables, reach: Tables -> bool, s: CandidateSet, review: ReviewCase)
    requires Closed(|t.log|, reach) && reach(t) && Filed(t)
    requires s.people <= t.people.Keys && s.observations <= t.observations.Keys
    requires review.candidates == Set(|t.log|) && HonestCase(WithSet(t, Set(|t.log|), s), review)
    ensures reach(Ruled(t, s, review))
  {
    var n := |t.log|;
    CandidatesAreGathered(t, reach, s);
    var gathered := WithSet(t, Set(n), s);
    var reviewed := gathered.(cases := t.cases[Case(n) := review]);
    OpensCase(n, reach, gathered, Case(n), review);
    Rules(n, reach, reviewed, Dec(n), Case(n));
  }

  lemma ResolutionIsNamed(mid: Tables, reach: Tables -> bool, r: Resolution, on: set<ObservationId>)
    requires Closed(|mid.log|, reach) && reach(mid) && |mid.log| == |mid.named|
    requires ResolutionRow(mid, r) && Reviewed(mid, r) && on <= mid.observations.Keys
    ensures reach(Resolved(mid, r, on))
  {
    var n, next := |mid.log|, Resolved(mid, r, {});
    Resolves(n, reach, mid, r);
    NamedAs(mid, r, {});
    NamedAs(mid, r, on);
    Names(n, reach, next, n, {}, on);
    assert {} + on == on;
  }

  lemma NamedAs(t: Tables, r: Resolution, on: set<ObservationId>)
    requires |t.log| == |t.named|
    ensures |Resolved(t, r, {}).named| == |t.log| + 1 && WithNamed(Resolved(t, r, {}), |t.log|, on) == Resolved(t, r, on)
  {
    assert (t.named + [{}])[|t.log| := on] == t.named + [on];
  }

  // ----- a fresh person, linked to an observation --------------------------------------------------

  function LinkOf(n: nat, p: PersonId): Resolution {
    Resolution(LinkObservation, Case(n), Dec(n), p, None)
  }

  function LinkReview(n: nat): ReviewCase {
    ReviewCase(Set(n), LinkObservation, None, None)
  }

  /** The link is written, or its row is moved over from the observation `away`. */
  function LinksWith(links: map<ObservationId, Link>, o: ObservationId, l: Link, away: Option<ObservationId>)
    : map<ObservationId, Link>
  {
    (if away.Some? then links - {away.value} else links)[o := l]
  }

  function Moved(away: Option<ObservationId>): set<ObservationId> {
    if away.Some? then {away.value} else {}
  }

  /** The tables with the resolution in them, before anything rests on it. */
  function LinkResolved(t: Tables, p: PersonId, o: ObservationId): Tables {
    var n := |t.log|;
    var ruled := Ruled(t, CandidateSet(IdentityResolution, {}, {o}), LinkReview(n));
    Resolved(ruled.(people := t.people[p := Person(None, None)]), LinkOf(n, p), {o})
  }

  function LinkRow(t: Tables, p: PersonId, o: ObservationId, away: Option<ObservationId>): Tables {
    LinkResolved(t, p, o).(links := LinksWith(t.links, o, Link(p, |t.log|), away))
  }

  function Linked(t: Tables, p: PersonId, o: ObservationId, away: Option<ObservationId>): Tables {
    var n := |t.log|;
    t.(candidates := t.candidates[Set(n) := CandidateSet(IdentityResolution, {}, {o})],
       cases := t.cases[Case(n) := LinkReview(n)],
       decisions := t.decisions[Dec(n) := Decision(Case(n), 1, Accept)],
       log := t.log + [LinkOf(n, p)],
       named := t.named + [{o}],
       links := LinksWith(t.links, o, Link(p, n), away),
       people := t.people[p := Person(None, Some(n))],
       evidence := t.evidence[SourceOf(o) := Evidence(p, SourceObservation)],
       citations := t.citations + {(SourceOf(o), o)})
  }

  ghost predicate CanLink(t: Tables, p: PersonId, o: ObservationId, away: Option<ObservationId>) {
    && p !in t.people && o in t.observations && !IsNamed(t, o) && o !in t.links
    && SourceOf(o) !in t.evidence
    && (away.Some? ==> away.value in t.links && SourceOf(away.value) !in t.evidence)
  }

  lemma LinkIsResolved(t: Tables, reach: Tables -> bool, p: PersonId, o: ObservationId, away: Option<ObservationId>)
    requires Closed(|t.log|, reach) && reach(t) && |t.log| == |t.named| && Filed(t) && CanLink(t, p, o, away)
    ensures reach(LinkResolved(t, p, o))
  {
    var n, s := |t.log|, CandidateSet(IdentityResolution, {}, {o});
    CaseIsRuled(t, reach, s, LinkReview(n));
    var ruled := Ruled(t, s, LinkReview(n));
    var peopled := ruled.(people := t.people[p := Person(None, None)]);
    InsertsPerson(n, reach, ruled, p);
    LinkIsReviewed(t, p, o);
    ResolutionIsNamed(peopled, reach, LinkOf(n, p), {o});
  }

  lemma LinkIsReviewed(t: Tables, p: PersonId, o: ObservationId)
    requires Filed(t)
    ensures var ruled := Ruled(t, CandidateSet(IdentityResolution, {}, {o}), LinkReview(|t.log|));
            var peopled := ruled.(people := t.people[p := Person(None, None)]);
            ResolutionRow(peopled, LinkOf(|t.log|, p)) && Reviewed(peopled, LinkOf(|t.log|, p))
  {
  }

  lemma LinkIsCurrent(t: Tables, p: PersonId, o: ObservationId)
    requires |t.log| == |t.named|
    ensures CurrentLink(LinkResolved(t, p, o), o, p, |t.log|)
  {
    assert LatestNaming(LinkResolved(t, p, o), |t.log|, o);
  }

  /** The one statement that may rewrite a key. */
  function LinkStatement(p: PersonId, o: ObservationId, r: nat, away: Option<ObservationId>): Step {
    if away.Some? then RekeyLink(away.value, o, p, r) else WriteLink(o, p, r)
  }

  lemma LinkRowIsWritten(t: Tables, p: PersonId, o: ObservationId, r: nat, away: Option<ObservationId>)
    requires CurrentLink(t, o, p, r) && (away.Some? ==> away.value in t.links && o !in t.links)
    ensures StepsTo(t, LinkStatement(p, o, r, away), t.(links := LinksWith(t.links, o, Link(p, r), away)))
  {
  }

  lemma LinkRowGoes(from: nat, t: Tables, mid: Tables, p: PersonId, o: ObservationId, r: nat, away: Option<ObservationId>)
    requires Goes(from, t, mid, {}) && CurrentLink(mid, o, p, r)
    requires away.Some? ==> away.value in mid.links && o !in mid.links
    ensures Goes(from, t, mid.(links := LinksWith(mid.links, o, Link(p, r), away)), Moved(away))
  {
    var s := LinkStatement(p, o, r, away);
    LinkRowIsWritten(mid, p, o, r, away);
    GoesOn(from, t, mid, {}, s, mid.(links := LinksWith(mid.links, o, Link(p, r), away)));
    assert {} + MovedAway(s) == Moved(away);
  }

  lemma LinkChangesPerson(t: Tables, p: PersonId, o: ObservationId, away: Option<ObservationId>)
    requires |t.log| == |t.named| && PeopleRows(t) && p !in t.people
    ensures var u, row := LinkRow(t, p, o, away), Person(None, Some(|t.log|));
            && p in u.people && PersonRow(u, p, row) && PersonChange(u, p, u.people[p], row)
            && u.people[p := row] == t.people[p := row]
  {
    assert LinkRow(t, p, o, away).log[|t.log|] == LinkOf(|t.log|, p);
  }

  /** The last three statements of a link: the person's state, the source evidence and its citation. */
  lemma EvidenceIsFiled(from: nat, reach: Tables -> bool, mid: Tables, p: PersonId, o: ObservationId)
    requires Closed(from, reach) && reach(mid) && p in mid.people
    requires PersonRow(mid, p, Person(None, Some(from))) && PersonChange(mid, p, mid.people[p], Person(None, Some(from)))
    requires SourceOf(o) !in mid.evidence && o in mid.observations && (SourceOf(o), o) !in mid.citations
    ensures reach(mid.(people := mid.people[p := Person(None, Some(from))],
                       evidence := mid.evidence[SourceOf(o) := Evidence(p, SourceObservation)],
                       citations := mid.citations + {(SourceOf(o), o)}))
  {
    var e, item := SourceOf(o), Evidence(p, SourceObservation);
    var a := mid.(people := mid.people[p := Person(None, Some(from))]);
    UpdatesPerson(from, reach, mid, p, Person(None, Some(from)));
    var b := a.(evidence := mid.evidence[e := item]);
    InsertsEvidence(from, reach, a, e, item);
    Cites(from, reach, b, e, o);
  }

  lemma LinkedGoes(t: Tables, p: PersonId, o: ObservationId, away: Option<ObservationId>)
    requires Plain(t) && CanLink(t, p, o, away)
    ensures |t.log| == |t.named| && Goes(|t.log|, t, Linked(t, p, o, away), Moved(away))
  {
    var n := |t.log|;
    GoesNowhere(n, t);
    var before := GoingIsClosed(n, t, {});
    LinkIsResolved(t, before, p, o, away);
    LinkIsCurrent(t, p, o);
    LinkRowGoes(n, t, LinkResolved(t, p, o), p, o, n, away);
    var after := GoingIsClosed(n, t, Moved(away));
    LinkChangesPerson(t, p, o, away);
    EvidenceIsFiled(n, after, LinkRow(t, p, o, away), p, o);
  }

  lemma LinkedIsBare(t: Tables, p: PersonId, o: ObservationId, away: Option<ObservationId>)
    requires Bare(t) && CanLink(t, p, o, away)
    ensures Bare(Linked(t, p, o, away))
  {
    var u := Linked(t, p, o, away);
    forall c | c in u.citations && c.0 in u.evidence ensures OwnedBy(u, c.1, u.evidence[c.0].person) {
      assert c.1 != o ==> OwnedBy(t, c.1, t.evidence[c.0].person);
    }
  }

  lemma LinkedIsFinal(t: Tables, p: PersonId, o: ObservationId, away: Option<ObservationId>)
    requires LogRows(t) && LinkRows(t) && LinksAreLatest(t) && OwnersAreLive(t) && CanLink(t, p, o, away)
    ensures var u := Linked(t, p, o, away);
            && |u.log| == |u.named| == |t.log| + 1
            && FinalPeople(u, |t.log|) && FinalLinks(u, |t.log|) && LinksAreLatest(u)
  {
    var n, u := |t.log|, Linked(t, p, o, away);
    assert u.log[n] == LinkOf(n, p) && u.log[..n] == t.log;
    LatestExtends(t, u, {o}, Link(p, n));
  }

  lemma LinkedIsExact(t: Tables, p: PersonId, o: ObservationId, away: Option<ObservationId>)
    requires LogRows(t)
    ensures var u := Linked(t, p, o, away);
            |u.log| == |u.named| && ExactObservations(u, |t.log|) && SourceEvidence(u, |t.log|) && CanonicalPerson(u, p)
  {
    assert Linked(t, p, o, away).log[|t.log|] == LinkOf(|t.log|, p);
  }

  lemma SettlesOne(t: Tables, u: Tables, p: PersonId)
    requires |u.log| == |u.named| == |t.log| + 1 && u.people.Keys <= t.people.Keys + {p}
    requires p in u.people && (p !in t.people ==> CanonicalPerson(u, p))
    requires ExactObservations(u, |t.log|) && SourceEvidence(u, |t.log|)
    requires FinalPeople(u, |t.log|) && FinalLinks(u, |t.log|) && LinksAreLatest(u)
    requires DependentsFollow(u) && ParticipantsSupported(u)
    ensures CommitAccepts(t, u, true)
  {
  }

  lemma LinkedSettles(t: Tables, p: PersonId, o: ObservationId, away: Option<ObservationId>)
    requires Plain(t) && CanLink(t, p, o, away)
    ensures var u := Linked(t, p, o, away);
            |u.log| == |u.named| && CommitAccepts(t, u, true) && Bare(u)
  {
    LinkedIsFinal(t, p, o, away);
    LinkedIsBare(t, p, o, away);
    LinkedIsExact(t, p, o, away);
    BareDependentsFollow(Linked(t, p, o, away));
    SettlesOne(t, Linked(t, p, o, away), p);
  }

  /** Whoever is new can be linked to whatever is not linked yet. */
  lemma AnyoneCanBeLinked(t: Tables, p: PersonId, o: ObservationId, away: Option<ObservationId>)
    requires Plain(t) && CanLink(t, p, o, away)
    ensures |t.log| == |t.named| && CommitsTo(t, Linked(t, p, o, away), Moved(away))
  {
    LinkedGoes(t, p, o, away);
    LinkedSettles(t, p, o, away);
    GoesAndCommits(t, Linked(t, p, o, away), Moved(away));
  }

  // ----- one correction ---------------------------------------------------------------------------------

  /** A merge or split of `from` into `to` over the observations `on`. */
  datatype Correction = Correction(action: Action, to: PersonId, from: PersonId, on: set<ObservationId>)

  function ResolutionOf(c: Correction, n: nat): Resolution {
    Resolution(c.action, Case(n), Dec(n), c.to, Some(c.from))
  }

  function ReviewOf(c: Correction, n: nat): ReviewCase {
    ReviewCase(Set(n), c.action, Some(c.to), Some(c.from))
  }

  /** The person whose row it rewrites, and how. */
  function Subject(c: Correction): PersonId {
    if c.action == MergePerson then c.from else c.to
  }

  function RowAfter(c: Correction, n: nat): Person {
    Person(if c.action == MergePerson then Some(c.to) else None, Some(n))
  }

  function CandidatesOf(c: Correction): CandidateSet {
    CandidateSet(Duplicate, {c.to, c.from}, c.on)
  }

  /** The tables with the resolution and its links in them. */
  function Relinked(t: Tables, c: Correction): Tables {
    var n := |t.log|;
    Resolved(Ruled(t, CandidatesOf(c), ReviewOf(c, n)), ResolutionOf(c, n), c.on).(
      links := LinkedTo(t.links, c.on, Link(c.to, n)))
  }

  function Corrected(t: Tables, c: Correction): Tables {
    var n := |t.log|;
    t.(candidates := t.candidates[Set(n) := CandidatesOf(c)],
       cases := t.cases[Case(n) := ReviewOf(c, n)],
       decisions := t.decisions[Dec(n) := Decision(Case(n), 1, Accept)],
       log := t.log + [ResolutionOf(c, n)],
       named := t.named + [c.on],
       links := LinkedTo(t.links, c.on, Link(c.to, n)),
       people := t.people[Subject(c) := RowAfter(c, n)],
       evidence := Given(t.evidence, c.on, c.to))
  }

  /** What has to hold before the correction: each side of the pair stands where the action takes it from. */
  ghost predicate CanCorrect(t: Tables, c: Correction) {
    && c.action != LinkObservation && c.to != c.from
    && c.to in t.people && c.from in t.people && c.on != {} && c.on <= t.observations.Keys
    && (forall o | o in c.on && SourceOf(o) in t.evidence :: OwnedBy(t, o, c.from))
    && (c.action == MergePerson ==>
          && t.people[c.to].supersededBy.None?
          && (forall q | q in t.people :: t.people[q].supersededBy != Some(c.to))
          && (forall o | o in t.links && o !in c.on :: t.links[o].person != c.from))
    && (c.action == SplitPerson ==>
          t.people[c.to].supersededBy == Some(c.from) && t.people[c.from].supersededBy.None?)
  }

  lemma CaseIsHonest(t: Tables, c: Correction)
    requires Filed(t) && CanCorrect(t, c)
    ensures HonestCase(WithSet(t, Set(|t.log|), CandidatesOf(c)), ReviewOf(c, |t.log|))
  {
    assert |{c.to, c.from}| == 2;
  }

  lemma CorrectionIsReviewed(t: Tables, c: Correction)
    requires Filed(t) && CanCorrect(t, c)
    ensures var ruled := Ruled(t, CandidatesOf(c), ReviewOf(c, |t.log|));
            ResolutionRow(ruled, ResolutionOf(c, |t.log|)) && Reviewed(ruled, ResolutionOf(c, |t.log|))
  {
  }

  lemma CorrectionIsRelinked(t: Tables, reach: Tables -> bool, c: Correction)
    requires Closed(|t.log|, reach) && reach(t) && |t.log| == |t.named| && Filed(t) && CanCorrect(t, c)
    ensures reach(Relinked(t, c))
  {
    var n := |t.log|;
    CaseIsHonest(t, c);
    CaseIsRuled(t, reach, CandidatesOf(c), ReviewOf(c, n));
    var ruled := Ruled(t, CandidatesOf(c), ReviewOf(c, n));
    CorrectionIsReviewed(t, c);
    ResolutionIsNamed(ruled, reach, ResolutionOf(c, n), c.on);
    var resolved := Resolved(ruled, ResolutionOf(c, n), c.on);
    forall o | o in c.on ensures CurrentLink(resolved, o, c.to, n) {
      assert LatestNaming(resolved, n, o);
    }
    WritesLinks(n, reach, resolved, c.on, c.to, n);
  }

  lemma SubjectChanges(t: Tables, c: Correction)
    requires PeopleRows(t) && CanCorrect(t, c) && |t.log| == |t.named| && t.people[Subject(c)].state.Some?
    ensures var u := Relinked(t, c);
            && PersonRow(u, Subject(c), RowAfter(c, |t.log|))
            && PersonChange(u, Subject(c), u.people[Subject(c)], RowAfter(c, |t.log|))
  {
    assert LatestOfPair(Relinked(t, c), |t.log|);
  }

  lemma EvidenceMayMove(t: Tables, u: Tables, c: Correction, o: ObservationId)
    requires BareEvidence(t) && CanCorrect(t, c) && o in c.on
    requires u.log == t.log + [ResolutionOf(c, |t.log|)] && u.links == LinkedTo(t.links, c.on, Link(c.to, |t.log|))
    requires u.evidence == t.evidence && u.citations == t.citations
    ensures MayMove(u, o, c.to)
  {
    var e := SourceOf(o);
    if e in t.evidence {
      assert (e, o) in t.citations && OwnedBy(t, o, t.evidence[e].person);
      assert CitedBy(u, e) == {o};
      assert u.log[|t.log|] == ResolutionOf(c, |t.log|) && u.links[o] == Link(c.to, |t.log|);
    }
  }

  lemma CorrectionIsFinished(t: Tables, reach: Tables -> bool, c: Correction)
    requires |t.log| == |t.named| && PeopleRows(t) && BareEvidence(t) && CanCorrect(t, c)
    requires t.people[Subject(c)].state.Some? && Closed(|t.log|, reach) && reach(Relinked(t, c))
    ensures reach(Corrected(t, c))
  {
    var n, a, row := |t.log|, Relinked(t, c), RowAfter(c, |t.log|);
    SubjectChanges(t, c);
    var b := a.(people := t.people[Subject(c) := row]);
    UpdatesPerson(n, reach, a, Subject(c), row);
    forall o | o in c.on ensures MayMove(b, o, c.to) {
      EvidenceMayMove(t, b, c, o);
    }
    MovesEvidence(n, reach, b, c.on, c.to);
  }

  lemma CorrectedGoes(t: Tables, c: Correction)
    requires Plain(t) && CanCorrect(t, c)
    ensures |t.log| == |t.named| && Goes(|t.log|, t, Corrected(t, c), {})
  {
    GoesNowhere(|t.log|, t);
    var reach := GoingIsClosed(|t.log|, t, {});
    CorrectionIsRelinked(t, reach, c);
    assert StateJustified(t, Subject(c));
    CorrectionIsFinished(t, reach, c);
  }

  lemma CorrectedIsBare(t: Tables, c: Correction)
    requires Bare(t) && CanCorrect(t, c)
    ensures Bare(Corrected(t, c))
  {
    var u := Corrected(t, c);
    forall x | x in u.citations && x.0 in u.evidence ensures OwnedBy(u, x.1, u.evidence[x.0].person) {
      assert x.1 !in c.on ==> OwnedBy(t, x.1, t.evidence[x.0].person);
    }
  }

  lemma CorrectedLog(t: Tables, c: Correction)
    requires |t.log| == |t.named|
    ensures var u := Corrected(t, c);
            && |u.log| == |u.named| == |t.log| + 1 && u.log[..|t.log|] == t.log
            && u.log[|t.log|] == ResolutionOf(c, |t.log|) && u.named[|t.log|] == c.on
            && u.links == LinkedTo(t.links, c.on, Link(c.to, |t.log|))
  {
  }

  lemma CorrectedPeopleAreFinal(t: Tables, c: Correction)
    requires |t.log| == |t.named| && CanCorrect(t, c)
    ensures |t.log| < |Corrected(t, c).log| && FinalPeople(Corrected(t, c), |t.log|)
  {
    CorrectedLog(t, c);
  }

  lemma CorrectedLinksAreFinal(t: Tables, u: Tables, c: Correction)
    requires LogRows(t) && LinkRows(t) && OwnersAreLive(t) && CanCorrect(t, c)
    requires |u.log| == |u.named| == |t.log| + 1 && u.log[|t.log|] == ResolutionOf(c, |t.log|) && u.named[|t.log|] == c.on
    requires u.links == LinkedTo(t.links, c.on, Link(c.to, |t.log|))
    ensures FinalLinks(u, |t.log|)
  {
    forall o | o in u.links && o !in c.on ensures o in t.links && u.links[o] == t.links[o] {
    }
  }

  lemma CorrectedIsFinal(t: Tables, c: Correction)
    requires LogRows(t) && LinkRows(t) && LinksAreLatest(t) && OwnersAreLive(t) && CanCorrect(t, c)
    ensures var u := Corrected(t, c);
            && |u.log| == |u.named| == |t.log| + 1
            && FinalPeople(u, |t.log|) && FinalLinks(u, |t.log|) && LinksAreLatest(u)
  {
    CorrectedLog(t, c);
    CorrectedPeopleAreFinal(t, c);
    CorrectedLinksAreFinal(t, Corrected(t, c), c);
    LatestExtends(t, Corrected(t, c), c.on, Link(c.to, |t.log|));
  }

  lemma CorrectedIsExact(t: Tables, c: Correction)
    requires LogRows(t) && CanCorrect(t, c)
    ensures var u := Corrected(t, c);
            |u.log| == |u.named| && ExactObservations(u, |t.log|) && SourceEvidence(u, |t.log|)
  {
    assert Corrected(t, c).log[|t.log|] == ResolutionOf(c, |t.log|);
  }

  lemma CorrectedSettles(t: Tables, c: Correction)
    requires Plain(t) && CanCorrect(t, c)
    ensures var u := Corrected(t, c);
            |u.log| == |u.named| && CommitAccepts(t, u, true) && Bare(u)
  {
    CorrectedIsFinal(t, c);
    CorrectedIsBare(t, c);
    CorrectedIsExact(t, c);
    BareDependentsFollow(Corrected(t, c));
    SettlesOne(t, Corrected(t, c), Subject(c));
  }

  // ----- committed, and plain again ---------------------------------------------------------------------

  lemma CommitsToSoundIff(t: Tables, u: Tables, moved: set<ObservationId>)
    requires Sound(t) && CommitsTo(t, u, moved)
    ensures Sound(u) <==> forall o | o in moved :: o in u.links
    ensures |u.log| == |u.named| && (LinksAreExact(u) <==> forall o | o in moved :: o in u.links)
  {
    var steps: seq<Step> :| AllGoverned(|t.log|, steps) && Commits(t, steps) && Transact(t, steps) == u
      && forall o :: RekeyedAway(steps, o) <==> o in moved;
    SoundIffRelinked(t, steps);
    PutBackIsLinked(t, steps);
    AllLinkedIff(steps, moved, u);
  }

  lemma AllLinkedIff(steps: seq<Step>, moved: set<ObservationId>, u: Tables)
    requires forall o :: RekeyedAway(steps, o) <==> o in moved
    ensures (forall o | o in moved :: o in u.links) <==> (forall o | RekeyedAway(steps, o) :: o in u.links)
  {
  }

  lemma FiledGrows(t: Tables, u: Tables, s: CandidateSet, review: ReviewCase, r: Resolution)
    requires Filed(t) && u.log == t.log + [r] && r.decision == Dec(|t.log|) && review.candidates == Set(|t.log|)
    requires u.candidates == t.candidates[Set(|t.log|) := s] && u.cases == t.cases[Case(|t.log|) := review]
    requires u.decisions == t.decisions[Dec(|t.log|) := Decision(Case(|t.log|), 1, Accept)]
    ensures Filed(u)
  {
  }

  lemma LinkedIsFiled(t: Tables, p: PersonId, o: ObservationId)
    requires Filed(t)
    ensures Filed(Linked(t, p, o, None))
    ensures Linked(t, p, o, None).log == t.log + [LinkOf(|t.log|, p)] && Linked(t, p, o, None).named == t.named + [{o}]
  {
    var n := |t.log|;
    FiledGrows(t, Linked(t, p, o, None), CandidateSet(IdentityResolution, {}, {o}), LinkReview(n), LinkOf(n, p));
  }

  lemma CorrectedIsFiled(t: Tables, c: Correction)
    requires Filed(t)
    ensures Filed(Corrected(t, c))
    ensures Corrected(t, c).log == t.log + [ResolutionOf(c, |t.log|)] && Corrected(t, c).named == t.named + [c.on]
  {
    FiledGrows(t, Corrected(t, c), CandidatesOf(c), ReviewOf(c, |t.log|), ResolutionOf(c, |t.log|));
  }

  lemma LinkedIsPlain(t: Tables, p: PersonId, o: ObservationId)
    requires Plain(t) && CanLink(t, p, o, None)
    ensures var u := Linked(t, p, o, None);
            Plain(u) && CommitsTo(t, u, {}) && CommittedOne(t, u, LinkOf(|t.log|, p), {o})
  {
    var u := Linked(t, p, o, None);
    AnyoneCanBeLinked(t, p, o, None);
    LinkedSettles(t, p, o, None);
    LinkedIsFiled(t, p, o);
    CommitsToSoundIff(t, u, {});
    CommittedIsOne(t, u, LinkOf(|t.log|, p), {o});
  }

  /** Any correction whose sides stand where it takes them from commits, and leaves a plain snapshot. */
  lemma AnyPairCanBeCorrected(t: Tables, c: Correction)
    requires Plain(t) && CanCorrect(t, c)
    ensures var u := Corrected(t, c);
            Plain(u) && CommitsTo(t, u, {}) && CommittedOne(t, u, ResolutionOf(c, |t.log|), c.on)
  {
    var u := Corrected(t, c);
    CorrectedGoes(t, c);
    CorrectedSettles(t, c);
    GoesAndCommits(t, u, {});
    CorrectedIsFiled(t, c);
    CommitsToSoundIff(t, u, {});
    CommittedIsOne(t, u, ResolutionOf(c, |t.log|), c.on);
  }

  /** An observation by itself is recorded in a transaction of its own. */
  function Recorded(t: Tables, o: ObservationId): Tables {
    t.(observations := t.observations[o := BareRow(o)])
  }

  lemma RecordedIsBare(t: Tables, o: ObservationId)
    requires Filed(t) && Bare(t)
    ensures Filed(Recorded(t, o)) && Bare(Recorded(t, o))
  {
    forall c | c in t.citations && c.0 in t.evidence
      ensures OwnedBy(Recorded(t, o), c.1, t.evidence[c.0].person)
    {
      assert OwnedBy(t, c.1, t.evidence[c.0].person);
    }
  }

  lemma RecordedGoes(t: Tables, o: ObservationId)
    requires |t.log| == |t.named| && o !in t.observations
    requires forall x | x in t.observations :: t.observations[x] == BareRow(x)
    ensures Goes(|t.log|, t, Recorded(t, o), {})
  {
    GoesNowhere(|t.log|, t);
    GoesOn(|t.log|, t, t, {}, RecordObservation(o, BareRow(o)), Recorded(t, o));
    assert {} + MovedAway(RecordObservation(o, BareRow(o))) == {};
  }

  lemma RecordedIsPlain(t: Tables, o: ObservationId)
    requires Plain(t) && o !in t.observations
    ensures Plain(Recorded(t, o)) && CommitsTo(t, Recorded(t, o), {})
  {
    RecordedIsBare(t, o);
    BareDependentsFollow(Recorded(t, o));
    RecordedGoes(t, o);
    GoesAndCommits(t, Recorded(t, o), {});
    CommitsToSoundIff(t, Recorded(t, o), {});
  }

  // ----- histories ---------------------------------------------------------------------------------------

  /** Some governed, relinking history leaves exactly these tables. */
  ghost predicate Reachable(t: Tables) {
    exists transactions :: GovernedHistory(transactions) && RelinkingHistory(transactions) && History(transactions) == t
  }

  lemma EmptyIsReachable()
    ensures Reachable(EMPTY)
  {
    assert History([]) == EMPTY;
  }

  lemma ReachableGoesOn(t: Tables, u: Tables)
    requires Reachable(t) && CommitsTo(t, u, {})
    ensures Reachable(u)
  {
    var transactions :| GovernedHistory(transactions) && RelinkingHistory(transactions) && History(transactions) == t;
    var steps: seq<Step> :| AllGoverned(|t.log|, steps) && Commits(t, steps) && Transact(t, steps) == u
      && forall o :: RekeyedAway(steps, o) <==> o in {};
    var longer := transactions + [steps];
    assert longer[..|longer| - 1] == transactions && longer[|longer| - 1] == steps;
    assert forall o :: !RekeyedAway(steps, o);
    assert GovernedHistory(longer) && RelinkingHistory(longer) && History(longer) == u;
  }
}
