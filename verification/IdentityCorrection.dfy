/**
 Why the final-state validator may skip itself, and why a transaction whose queued
 checks all return leaves a sound snapshot behind.
 */
module IdentityCorrection {
  import opened Options
  import opened IdentityTables
  import opened IdentityGuards
  import opened IdentityCommit
  import opened IdentityInvariant
  import opened SupersessionChains

  // ----- self-skipping is sound ---------------------------------------------------------

  /** A skipped resolution leaves its observations to a later one that is not skipped itself. */
  lemma SkippedHandsOff(t: Tables, r: nat) returns (later: nat)
    requires LogRows(t) && r < |t.log| && Skipped(t, r)
    ensures r < later < |t.log| && YieldsTo(t, r, later)
    ensures t.named[later] == t.named[r]
    ensures !Skipped(t, later)
  {
    later :| 0 <= later < |t.log| && YieldsTo(t, r, later);
    forall last | 0 <= last < |t.log| ensures !YieldsTo(t, later, last) {
      assert CorrectionYieldsTo(t, later, last) ==> SamePair(t.log[last], t.log[later]);
      assert CorrectionYieldsTo(t, later, last) ==> Involves(t.log[last], t.log[r].retained);
    }
  }

  /** At commit, the one it is left to has passed the whole validator. */
  lemma SkippedIsSettled(from: nat, t: Tables, r: nat) returns (later: nat)
    requires LogRows(t) && ResolutionsSettled(from, t)
    requires from <= r < |t.log| && Skipped(t, r)
    ensures r < later < |t.log| && YieldsTo(t, r, later)
    ensures t.named[later] == t.named[r]
    ensures FinalPeople(t, later) && FinalLinks(t, later)
  {
    later := SkippedHandsOff(t, r);
    assert CompleteFinalState(t, later);
  }

  lemma LastIsChecked(t: Tables)
    requires LogRows(t) && |t.log| > 0
    ensures !Skipped(t, |t.log| - 1)
  {
  }

  /** So the whole-table checks run in every transaction that inserts a resolution. */
  lemma WholeTableChecksRun(from: nat, t: Tables)
    requires LogRows(t) && from < |t.log| && ResolutionsSettled(from, t)
    ensures DependentsFollow(t) && LinksAreLatest(t)
  {
    LastIsChecked(t);
    assert CompleteFinalState(t, |t.log| - 1);
  }

  /** And every observation a new resolution names, skipped or not, ends up linked. */
  lemma NewlyNamedIsLinked(from: nat, t: Tables, r: nat, o: ObservationId)
    requires LogRows(t) && ResolutionsSettled(from, t)
    requires from <= r < |t.log| && o in t.named[r]
    ensures o in t.links
    ensures Skipped(t, r) ==> t.links[o].resolution > r
    ensures !Skipped(t, r) ==> t.links[o] == Link(t.log[r].retained, r)
  {
    if Skipped(t, r) {
      var later := SkippedIsSettled(from, t, r);
    } else {
      assert CompleteFinalState(t, r);
    }
  }

  // ----- people at commit ---------------------------------------------------------------

  /** A row that ends a transaction superseded points at a live person and owns no link. */
  lemma SupersededRowIsFinal(from: nat, t: Tables, p: PersonId)
    requires LogRows(t) && ResolutionsSettled(from, t)
    requires p in t.people && Rewritten(from, t, p) && t.people[p].supersededBy.Some?
    ensures t.people[p].supersededBy.value in t.people
    ensures t.people[t.people[p].supersededBy.value].supersededBy.None?
    ensures forall o | o in t.links :: t.links[o].person != p
  {
    var r := t.people[p].state.value;
    assert CompleteFinalState(t, r);
    if Skipped(t, r) {
      var later := SkippedIsSettled(from, t, r);
    }
  }

  /** A person inserted by the transaction is live at its end. */
  lemma FreshPersonIsLive(from: nat, t: Tables, p: PersonId)
    requires LogRows(t) && ResolutionsSettled(from, t)
    requires p in t.people && CanonicalPerson(t, p) && from <= t.people[p].state.value
    ensures StateJustified(t, p) && t.people[p].supersededBy.None?
  {
    var r := t.people[p].state.value;
    assert CompleteFinalState(t, r);
    if Skipped(t, r) {
      var later := SkippedIsSettled(from, t, r);
    }
  }

  /** A skipped resolution keeps no link, so whoever owns a newly resolved link is live. */
  lemma NewOwnerIsLive(from: nat, t: Tables, o: ObservationId)
    requires LogRows(t) && LinkRows(t) && ResolutionsSettled(from, t)
    requires o in t.links && from <= t.links[o].resolution
    ensures t.links[o].person in t.people && t.people[t.links[o].person].supersededBy.None?
  {
    var r := t.links[o].resolution;
    NewlyNamedIsLinked(from, t, r, o);
    assert CompleteFinalState(t, r);
  }

  // ----- commit keeps the snapshot sound ------------------------------------------------

  lemma FreshStateIsNew(a: Tables, b: Tables, p: PersonId)
    requires LogRows(a) && LogRows(b) && LogGrows(a, b)
    requires p in b.people && p !in a.people && CanonicalPerson(b, p)
    ensures |a.log| <= b.people[p].state.value
  {
    assert forall r | 0 <= r < |a.log| :: a.log[r] == b.log[r];
  }

  lemma CommitJustifiesPeople(a: Tables, b: Tables)
    requires PeopleSettled(a) && WellFormed(b) && LogGrows(a, b) && PeopleFollow(a, b) && ResolutionsSettled(|a.log|, b)
    requires forall p | p in b.people && p !in a.people :: CanonicalPerson(b, p)
    ensures forall p | p in b.people :: StateJustified(b, p)
    ensures RewritesPointAtLive(a.people, b.people)
  {
    forall p | p in b.people
      ensures StateJustified(b, p)
      ensures b.people[p].supersededBy.Some? ==>
                || (p in a.people && a.people[p].supersededBy == b.people[p].supersededBy)
                || (b.people[p].supersededBy.value in b.people && b.people[b.people[p].supersededBy.value].supersededBy.None?)
    {
      if p !in a.people {
        FreshStateIsNew(a, b, p);
        FreshPersonIsLive(|a.log|, b, p);
      } else if b.people[p] == a.people[p] {
        assert StateJustified(a, p);
        assert b.log[a.people[p].state.value] == a.log[a.people[p].state.value];
      } else if b.people[p].supersededBy.Some? {
        SupersededRowIsFinal(|a.log|, b, p);
      }
    }
  }

  /** A governed transaction keeps the people settled, whatever it does to the links. */
  lemma TransactKeepsPeople(t: Tables, steps: seq<Step>)
    requires PeopleSettled(t) && AllGoverned(|t.log|, steps)
    ensures PeopleSettled(Transact(t, steps))
  {
    if Commits(t, steps) {
      var u := Run(t, steps).value;
      RunKeepsRows(t, steps);
      RunFollowsPeople(t, t, steps);
      CommitJustifiesPeople(t, u);
      TerminationSurvives(t.people, u.people);
    }
  }

  /** No observation that was linked has lost its link. */
  ghost predicate KeepsLinked(a: Tables, b: Tables) {
    a.links.Keys <= b.links.Keys
  }

  lemma EveryNamedIsLinkedIff(a: Tables, b: Tables)
    requires LogRows(a) && LinkRows(a) && LinksAreExact(a)
    requires LogRows(b) && LogGrows(a, b) && ResolutionsSettled(|a.log|, b)
    ensures (forall r, o | 0 <= r < |b.named| && o in b.named[r] :: o in b.links) <==> KeepsLinked(a, b)
  {
    if KeepsLinked(a, b) {
      forall r, o | 0 <= r < |b.named| && o in b.named[r] ensures o in b.links {
        if r >= |a.log| {
          NewlyNamedIsLinked(|a.log|, b, r, o);
        } else {
          assert o in a.named[r];
        }
      }
    }
    forall o | o in a.links ensures IsNamed(b, o) {
      assert o in b.named[a.links[o].resolution];
    }
  }

  /** At commit the links are exact exactly when no linked observation has lost its link. */
  lemma CommitExactLinks(a: Tables, b: Tables, touched: bool)
    requires Sound(a) && WellFormed(b) && Follows(a, b, touched) && CommitAccepts(a, b, touched)
    ensures LinksAreExact(b) <==> KeepsLinked(a, b)
  {
    EveryNamedIsLinkedIff(a, b);
    if |a.log| < |b.log| {
      WholeTableChecksRun(|a.log|, b);
    } else {
      assert a.log == b.log && a.named == b.named;
      forall o | o in b.links
        ensures LatestNaming(b, b.links[o].resolution, o)
      {
        assert LatestNaming(a, a.links[o].resolution, o);
      }
    }
  }

  /** A link that still names an older resolution was left where it stood. */
  lemma OldLinkIsUnchanged(a: Tables, b: Tables, o: ObservationId)
    requires LogRows(a) && LogRows(b) && LogGrows(a, b)
    requires LinksAreExact(a) && LinksAreExact(b)
    requires o in b.links && b.links[o].resolution < |a.log|
    ensures o in a.links && b.links[o] == a.links[o]
  {
    var r := b.links[o].resolution;
    assert LatestNaming(b, r, o);
    assert o in a.named[r];
    assert LatestNaming(a, a.links[o].resolution, o);
    assert o in b.named[a.links[o].resolution];
  }

  lemma CommitKeepsOwnersLive(a: Tables, b: Tables, touched: bool)
    requires Sound(a) && WellFormed(b) && Follows(a, b, touched) && CommitAccepts(a, b, touched)
    requires LinksAreExact(b)
    ensures OwnersAreLive(b)
  {
    forall o | o in b.links
      ensures b.links[o].person in b.people && b.people[b.links[o].person].supersededBy.None?
    {
      if |a.log| <= b.links[o].resolution {
        NewOwnerIsLive(|a.log|, b, o);
      } else {
        OldLinkIsUnchanged(a, b, o);
        var p := b.links[o].person;
        if b.people[p] != a.people[p] && b.people[p].supersededBy.Some? {
          SupersededRowIsFinal(|a.log|, b, p);
        }
      }
    }
  }

  lemma CommitKeepsDependents(a: Tables, b: Tables, touched: bool)
    requires Sound(a) && WellFormed(b) && Follows(a, b, touched) && CommitAccepts(a, b, touched)
    requires LinksAreExact(b)
    ensures AliasesAreExact(b) && AffiliationsFollow(b)
  {
    if |a.log| < |b.log| {
      WholeTableChecksRun(|a.log|, b);
    } else {
      forall o | o in b.links && o in b.observations && HasName(b.observations[o]) ensures o in b.aliases {
        assert o in b.named[b.links[o].resolution];
        assert o in a.observations;
      }
    }
  }

  lemma CommitKeepsParticipants(a: Tables, b: Tables, touched: bool)
    requires Sound(a) && WellFormed(b) && Follows(a, b, touched) && CommitAccepts(a, b, touched)
    ensures ParticipantsSupported(b)
  {
    if !touched {
      forall s | s in b.support && s.0 in b.participants && b.participants[s.0].person.Some?
        ensures OwnedBy(b, s.1, b.participants[s.0].person.value)
      {
        assert OwnedBy(a, s.1, a.participants[s.0].person.value);
      }
    }
  }

  /**
   The commit-time checks are enough but for one thing: what governed statements made of
   a sound snapshot is sound exactly when no linked observation has lost its link.
   */
  lemma CommitKeepsSoundIff(a: Tables, b: Tables, touched: bool)
    requires Sound(a) && WellFormed(b) && Follows(a, b, touched) && CommitAccepts(a, b, touched)
    ensures Sound(b) <==> KeepsLinked(a, b)
  {
    CommitExactLinks(a, b, touched);
    if KeepsLinked(a, b) {
      CommitJustifiesPeople(a, b);
      TerminationSurvives(a.people, b.people);
      CommitKeepsOwnersLive(a, b, touched);
      CommitKeepsDependents(a, b, touched);
      CommitKeepsParticipants(a, b, touched);
    }
  }

  // ----- link rows moved onto another observation ----------------------------------------

  /** Some statement rewrote the key of this observation's link row. */
  predicate RekeyedAway(steps: seq<Step>, o: ObservationId) {
    exists i | 0 <= i < |steps| :: steps[i].RekeyLink? && steps[i].observation == o
  }

  /** Something the whole-table check looks up in the links rests on the observation. */
  ghost predicate RestsOn(t: Tables, o: ObservationId) {
    || (exists c | c in t.citations :: c.1 == o && c.0 in t.evidence)
    || (exists f | f in t.affiliations :: t.affiliations[f].observation == o)
    || (exists s | s in t.support :: s.1 == o && s.0 in t.participants && t.participants[s.0].person.Some?)
  }

  lemma RekeyedAwaySplits(steps: seq<Step>, o: ObservationId)
    requires steps != []
    ensures RekeyedAway(steps, o) <==> (steps[0].RekeyLink? && steps[0].observation == o) || RekeyedAway(steps[1..], o)
  {
    if RekeyedAway(steps, o) {
      var i :| 0 <= i < |steps| && steps[i].RekeyLink? && steps[i].observation == o;
      assert i > 0 ==> steps[1..][i - 1] == steps[i];
    }
    if RekeyedAway(steps[1..], o) {
      var i :| 0 <= i < |steps[1..]| && steps[1..][i].RekeyLink? && steps[1..][i].observation == o;
      assert steps[i + 1] == steps[1..][i];
    }
  }

  predicate PutsLink(s: Step, o: ObservationId) {
    (s.WriteLink? && s.observation == o) || (s.RekeyLink? && s.onto == o)
  }

  /** Some statement gives the observation a link row that none after it moves away. */
  predicate PutBack(steps: seq<Step>, o: ObservationId) {
    exists i | 0 <= i < |steps| :: PutsLink(steps[i], o) && !RekeyedAway(steps[i + 1..], o)
  }

  lemma PutBackSplits(steps: seq<Step>, o: ObservationId)
    requires steps != []
    ensures PutBack(steps, o) <==> (PutsLink(steps[0], o) && !RekeyedAway(steps[1..], o)) || PutBack(steps[1..], o)
  {
    var rest := steps[1..];
    if PutBack(steps, o) {
      var i :| 0 <= i < |steps| && PutsLink(steps[i], o) && !RekeyedAway(steps[i + 1..], o);
      assert i > 0 ==> rest[i - 1] == steps[i] && rest[i..] == steps[i + 1..];
    }
    if PutBack(rest, o) {
      var i :| 0 <= i < |rest| && PutsLink(rest[i], o) && !RekeyedAway(rest[i + 1..], o);
      assert steps[i + 1] == rest[i] && steps[i + 2..] == rest[i + 1..];
    }
  }

  /** Which observations statements leave linked can be read off the statements and the links they began with. */
  lemma {:induction false} LinkedIffPutBack(t: Tables, steps: seq<Step>, o: ObservationId)
    requires |t.log| == |t.named| && Run(t, steps).Some?
    ensures o in Run(t, steps).value.links <==> PutBack(steps, o) || (o in t.links && !RekeyedAway(steps, o))
    decreases |steps|
  {
    if steps != [] {
      RekeyedAwaySplits(steps, o);
      PutBackSplits(steps, o);
      LinkedIffPutBack(Effect(t, steps[0]), steps[1..], o);
      assert o in Effect(t, steps[0]).links
             <==> PutsLink(steps[0], o) || (o in t.links && !(steps[0].RekeyLink? && steps[0].observation == o));
    }
  }

  lemma {:induction false} RunKeepsNamed(t: Tables, steps: seq<Step>, o: ObservationId)
    requires |t.log| == |t.named| && Run(t, steps).Some? && IsNamed(t, o)
    ensures IsNamed(Run(t, steps).value, o)
    decreases |steps|
  {
    if steps != [] {
      StepKeepsNamed(t, steps[0], o);
      RunKeepsNamed(Effect(t, steps[0]), steps[1..], o);
    }
  }

  lemma {:induction false} RekeyedIsNamed(t: Tables, steps: seq<Step>, o: ObservationId)
    requires LogRows(t) && LinkRows(t) && Run(t, steps).Some? && RekeyedAway(steps, o)
    ensures IsNamed(Run(t, steps).value, o)
    decreases |steps|
  {
    RekeyedAwaySplits(steps, o);
    if steps[0].RekeyLink? && steps[0].observation == o {
      assert o in t.named[t.links[o].resolution];
      RunKeepsNamed(t, steps, o);
    } else {
      StepKeepsLinks(t, steps[0]);
      RekeyedIsNamed(Effect(t, steps[0]), steps[1..], o);
    }
  }

  /** Every link row that the statements move away from an observation they put back. */
  predicate AllPutBack(steps: seq<Step>) {
    forall i | 0 <= i < |steps| && steps[i].RekeyLink? :: PutBack(steps, steps[i].observation)
  }

  lemma AllPutBackIff(steps: seq<Step>)
    ensures AllPutBack(steps) <==> forall o | RekeyedAway(steps, o) :: PutBack(steps, o)
  {
  }

  lemma PutBackIsLinked(t: Tables, steps: seq<Step>)
    requires |t.log| == |t.named| && Run(t, steps).Some?
    ensures AllPutBack(steps) <==> forall o | RekeyedAway(steps, o) :: o in Run(t, steps).value.links
  {
    AllPutBackIff(steps);
    forall o | RekeyedAway(steps, o) ensures o in Run(t, steps).value.links <==> PutBack(steps, o) {
      LinkedIffPutBack(t, steps, o);
    }
  }

  lemma KeepsLinkedIff(t: Tables, steps: seq<Step>)
    requires LogRows(t) && LinkRows(t) && Run(t, steps).Some?
    requires LinksAreExact(Run(t, steps).value) <==> KeepsLinked(t, Run(t, steps).value)
    ensures KeepsLinked(t, Run(t, steps).value) <==> AllPutBack(steps)
  {
    var u := Run(t, steps).value;
    AllPutBackIff(steps);
    forall o ensures o in u.links <==> PutBack(steps, o) || (o in t.links && !RekeyedAway(steps, o)) {
      LinkedIffPutBack(t, steps, o);
    }
    if KeepsLinked(t, u) {
      forall o | RekeyedAway(steps, o) ensures PutBack(steps, o) {
        RekeyedIsNamed(t, steps, o);
      }
    }
  }

  /**
   A governed transaction that commits on a sound snapshot leaves exact links, and a
   sound snapshot, exactly when its statements put back every link row they move away.
   */
  lemma SoundIffRelinked(t: Tables, steps: seq<Step>)
    requires Sound(t) && AllGoverned(|t.log|, steps) && Commits(t, steps)
    ensures Sound(Transact(t, steps)) <==> AllPutBack(steps)
    ensures LinksAreExact(Transact(t, steps)) <==> AllPutBack(steps)
  {
    var u := Run(t, steps).value;
    FollowsItself(t);
    RunFollows(t, t, false, steps);
    CommitKeepsSoundIff(t, u, Touched(steps));
    CommitExactLinks(t, u, Touched(steps));
    KeepsLinkedIff(t, steps);
  }

  /** The whole-table check misses an observation without its link exactly when nothing rests on it. */
  lemma UnlinkingIsSeenIff(t: Tables, u: Tables, o: ObservationId)
    requires DependentsFollow(t) && u == t.(links := t.links - {o})
    ensures DependentsFollow(u) <==> !RestsOn(t, o)
  {
    forall x, p | x != o ensures OwnedBy(u, x, p) == OwnedBy(t, x, p) {
    }
    forall p ensures !OwnedBy(u, o, p) {
    }
  }

  /** So a commit relinks what something rests on. */
  lemma RestedOnIsLinked(t: Tables, o: ObservationId)
    requires DependentsFollow(t) && RestsOn(t, o)
    ensures o in t.links
  {
    if c :| c in t.citations && c.1 == o && c.0 in t.evidence {
      assert OwnedBy(t, c.1, t.evidence[c.0].person);
    } else if f :| f in t.affiliations && t.affiliations[f].observation == o {
      assert OwnedBy(t, t.affiliations[f].observation, t.affiliations[f].person);
    } else {
      var s :| s in t.support && s.1 == o && s.0 in t.participants && t.participants[s.0].person.Some?;
      assert OwnedBy(t, s.1, t.participants[s.0].person.value);
    }
  }

  lemma StepKeepsRowsOfRest(t: Tables, s: Step)
    requires Admits(t, s)
    ensures t.citations <= Effect(t, s).citations && t.evidence.Keys <= Effect(t, s).evidence.Keys
    ensures t.support <= Effect(t, s).support
    ensures forall f | f in t.affiliations ::
              f in Effect(t, s).affiliations && Effect(t, s).affiliations[f].observation == t.affiliations[f].observation
    ensures forall p | p in t.participants ::
              && p in Effect(t, s).participants
              && (t.participants[p].person.Some? ==> Effect(t, s).participants[p].person.Some?)
  {
  }

  lemma RestStays(t: Tables, u: Tables, o: ObservationId)
    requires RestsOn(t, o)
    requires t.citations <= u.citations && t.evidence.Keys <= u.evidence.Keys && t.support <= u.support
    requires forall f | f in t.affiliations ::
               f in u.affiliations && u.affiliations[f].observation == t.affiliations[f].observation
    requires forall p | p in t.participants ::
               p in u.participants && (t.participants[p].person.Some? ==> u.participants[p].person.Some?)
    ensures RestsOn(u, o)
  {
    if c :| c in t.citations && c.1 == o && c.0 in t.evidence {
      assert c in u.citations && c.0 in u.evidence;
    } else if f :| f in t.affiliations && t.affiliations[f].observation == o {
      assert f in u.affiliations && u.affiliations[f].observation == o;
    } else {
      var x :| x in t.support && x.1 == o && x.0 in t.participants && t.participants[x.0].person.Some?;
      assert x in u.support && x.0 in u.participants && u.participants[x.0].person.Some?;
    }
  }

  /** What rests on an observation before a transaction still does at its commit. */
  lemma {:induction false} RunKeepsRest(t: Tables, steps: seq<Step>, o: ObservationId)
    requires |t.log| == |t.named| && Run(t, steps).Some? && RestsOn(t, o)
    ensures RestsOn(Run(t, steps).value, o)
    decreases |steps|
  {
    if steps != [] {
      StepKeepsRowsOfRest(t, steps[0]);
      RestStays(t, Effect(t, steps[0]), o);
      RunKeepsRest(Effect(t, steps[0]), steps[1..], o);
    }
  }

  /**
   What statements owe the observations whose link rows they move away: something rests
   on each in the snapshot they begin from, or they put the link row back.
   */
  ghost predicate Relinks(t: Tables, steps: seq<Step>) {
    forall o | RekeyedAway(steps, o) :: RestsOn(t, o) || PutBack(steps, o)
  }

  /** One governed transaction keeps a sound snapshot sound exactly when it does not commit or relinks. */
  lemma TransactKeepsSoundIff(t: Tables, steps: seq<Step>)
    requires Sound(t) && AllGoverned(|t.log|, steps)
    ensures Sound(Transact(t, steps)) <==> (Commits(t, steps) ==> Relinks(t, steps))
  {
    if Commits(t, steps) {
      SoundIffRelinked(t, steps);
      AllPutBackIff(steps);
      forall o | RekeyedAway(steps, o) && RestsOn(t, o) ensures PutBack(steps, o) {
        RestedOnIsPutBack(t, steps, o);
      }
    }
  }

  lemma RestedOnIsPutBack(t: Tables, steps: seq<Step>, o: ObservationId)
    requires Sound(t) && AllGoverned(|t.log|, steps) && Commits(t, steps)
    requires RekeyedAway(steps, o) && RestsOn(t, o)
    ensures PutBack(steps, o)
  {
    var u := Run(t, steps).value;
    FollowsItself(t);
    RunFollows(t, t, false, steps);
    LinkedIffPutBack(t, steps, o);
    RunKeepsRest(t, steps, o);
    if |t.log| < |u.log| {
      WholeTableChecksRun(|t.log|, u);
      RestedOnIsLinked(u, o);
    } else {
      RekeyedIsNamed(t, steps, o);
      UnresolvedIsLinked(t, u, o);
    }
  }

  lemma UnresolvedIsLinked(t: Tables, u: Tables, o: ObservationId)
    requires LogRows(t) && LinksAreExact(t) && LogRows(u) && LogGrows(t, u) && LinksFollow(t, u)
    requires |u.log| == |t.log| && IsNamed(u, o)
    ensures o in u.links
  {
    assert u.named == t.named;
  }
}
