/** What holds after every history of governed identity transactions. */
module IdentityTheorems {
  import opened Options
  import opened IdentityTables
  import opened IdentityGuards
  import opened IdentityCommit
  import opened IdentityInvariant
  import opened IdentityCorrection
  import opened SupersessionChains

  // ----- histories ------------------------------------------------------------------------

  /** The snapshot left by a sequence of transactions, each committed or rolled back whole. */
  function History(transactions: seq<seq<Step>>): (t: Tables)
    ensures |t.log| == |t.named|
  {
    if transactions == [] then EMPTY
    else Transact(History(transactions[..|transactions| - 1]), transactions[|transactions| - 1])
  }

  predicate GovernedHistory(transactions: seq<seq<Step>>) {
    transactions == [] ||
    (var init := transactions[..|transactions| - 1];
     GovernedHistory(init) && AllGoverned(|History(init).log|, transactions[|transactions| - 1]))
  }

  /** Every transaction of the history that commits relinks what its key rewrites unlinked. */
  ghost predicate RelinkingHistory(transactions: seq<seq<Step>>) {
    transactions == [] ||
    (var init := transactions[..|transactions| - 1];
     && RelinkingHistory(init)
     && (Commits(History(init), transactions[|transactions| - 1]) ==>
           Relinks(History(init), transactions[|transactions| - 1])))
  }

  lemma {:induction false} HistoryIsSound(transactions: seq<seq<Step>>)
    requires GovernedHistory(transactions) && RelinkingHistory(transactions)
    ensures Sound(History(transactions))
  {
    if transactions == [] {
      EmptyIsSound();
    } else {
      var init := transactions[..|transactions| - 1];
      HistoryIsSound(init);
      TransactKeepsSoundIff(History(init), transactions[|transactions| - 1]);
    }
  }

  /** Sound after every transaction of the history. */
  ghost predicate SoundThroughout(transactions: seq<seq<Step>>) {
    transactions == [] ||
    (SoundThroughout(transactions[..|transactions| - 1]) && Sound(History(transactions)))
  }

  lemma ThroughoutIsNow(transactions: seq<seq<Step>>)
    requires SoundThroughout(transactions)
    ensures Sound(History(transactions))
  {
    EmptyIsSound();
  }

  /** A governed history is sound throughout exactly when every transaction of it that commits relinks. */
  lemma {:induction false} SoundThroughoutIff(transactions: seq<seq<Step>>)
    requires GovernedHistory(transactions)
    ensures SoundThroughout(transactions) <==> RelinkingHistory(transactions)
  {
    if transactions != [] {
      var init := transactions[..|transactions| - 1];
      SoundThroughoutIff(init);
      if SoundThroughout(init) {
        ThroughoutIsNow(init);
        TransactKeepsSoundIff(History(init), transactions[|transactions| - 1]);
      }
    }
  }

  // ----- the links table is a fold of the resolution log ------------------------------------

  /** Each resolution in turn takes over the observations it names. */
  function FoldLinks(log: seq<Resolution>, named: seq<set<ObservationId>>): map<ObservationId, Link>
    requires |log| == |named|
  {
    if log == [] then map[]
    else
      var n := |log| - 1;
      FoldLinks(log[..n], named[..n]) + map o | o in named[n] :: Link(log[n].retained, n)
  }

  lemma {:induction false} FoldTakesTheLast(log: seq<Resolution>, named: seq<set<ObservationId>>, o: ObservationId)
    requires |log| == |named|
    ensures o in FoldLinks(log, named) <==> exists r :: 0 <= r < |named| && o in named[r]
    ensures o in FoldLinks(log, named) ==>
              var l := FoldLinks(log, named)[o];
              && l.resolution < |log|
              && o in named[l.resolution]
              && l.person == log[l.resolution].retained
              && forall r | 0 <= r < |named| :: o in named[r] ==> r <= l.resolution
    decreases |log|
  {
    if log != [] {
      var n := |log| - 1;
      FoldTakesTheLast(log[..n], named[..n], o);
      assert forall r | 0 <= r < n :: named[..n][r] == named[r] && log[..n][r] == log[r];
      if o in FoldLinks(log, named) && o !in named[n] {
        assert o in FoldLinks(log[..n], named[..n]);
      }
    }
  }

  lemma LinksFoldTheLog(t: Tables)
    requires LogRows(t) && LinksAreExact(t)
    ensures t.links == FoldLinks(t.log, t.named)
  {
    forall o | o in t.links || o in FoldLinks(t.log, t.named)
      ensures o in t.links && o in FoldLinks(t.log, t.named)
      ensures t.links[o] == FoldLinks(t.log, t.named)[o]
    {
      FoldTakesTheLast(t.log, t.named, o);
      assert o in t.links ==> LatestNaming(t, t.links[o].resolution, o);
    }
  }

  // ----- the theorems ------------------------------------------------------------------------

  /**
   After any such history: the links are the fold of the log, their owners are live, the
   aliases are what links and names call for, and affiliations and participants
   rest on observations their own person owns.
   */
  lemma EveryHistorySettles(transactions: seq<seq<Step>>)
    requires GovernedHistory(transactions) && RelinkingHistory(transactions)
    ensures var t := History(transactions);
            && t.links == FoldLinks(t.log, t.named)
            && OwnersAreLive(t)
            && AliasesAreExact(t)
            && AffiliationsFollow(t)
            && ParticipantsSupported(t)
  {
    HistoryIsSound(transactions);
    LinksFoldTheLog(History(transactions));
  }

  /** The people are settled even after a transaction that does not relink. */
  lemma {:induction false} HistoryKeepsPeople(transactions: seq<seq<Step>>)
    requires GovernedHistory(transactions)
    ensures PeopleSettled(History(transactions))
  {
    if transactions == [] {
      EmptyIsSound();
    } else {
      var init := transactions[..|transactions| - 1];
      HistoryKeepsPeople(init);
      TransactKeepsPeople(History(init), transactions[|transactions| - 1]);
    }
  }

  /** After any governed history the supersession pointers are disjoint finite simple chains. */
  lemma EveryHistoryKeepsChains(transactions: seq<seq<Step>>, p: PersonId) returns (chain: seq<PersonId>)
    requires GovernedHistory(transactions) && p in History(transactions).people
    ensures var people := History(transactions).people;
            && IsChain(people, chain) && chain[0] == p && Simple(chain)
            && forall other, i, j | IsChain(people, other) && 0 <= i < |chain| && 0 <= j < |other| && chain[i] == other[j] ::
                 if i <= j then chain == other[j - i..] else other == chain[i - j..]
  {
    HistoryKeepsPeople(transactions);
    chain := DisjointSimpleChains(History(transactions).people, p);
  }

  /** The row rules hold after any history at all, governed or not. */
  lemma {:induction false} HistoryKeepsRows(transactions: seq<seq<Step>>)
    ensures WellFormed(History(transactions))
  {
    if transactions != [] {
      var init, last := transactions[..|transactions| - 1], transactions[|transactions| - 1];
      HistoryKeepsRows(init);
      if Commits(History(init), last) {
        RunKeepsRows(History(init), last);
      }
    }
  }

  /**
   Self-skipping is sound: when a transaction that resolved anything commits, after any
   history and whether governed or not, all the whole-table checks held (evidence
   included), every skipped resolution has a later checked one over the same
   observations, and all of them are linked.
   */
  lemma SelfSkippingIsSound(transactions: seq<seq<Step>>, steps: seq<Step>)
    requires Commits(History(transactions), steps)
    requires |History(transactions).log| < |Transact(History(transactions), steps).log|
    ensures var t, u := History(transactions), Transact(History(transactions), steps);
            && DependentsFollow(u) && LinksAreLatest(u)
            && forall r | |t.log| <= r < |u.log| ::
                 && (forall o | o in u.named[r] :: o in u.links)
                 && (Skipped(u, r) ==>
                       exists later :: r < later < |u.log| && !Skipped(u, later) && u.named[later] == u.named[r])
  {
    var t, u := History(transactions), Transact(History(transactions), steps);
    HistoryKeepsRows(transactions);
    RunKeepsRows(t, steps);
    WholeTableChecksRun(|t.log|, u);
    forall r | |t.log| <= r < |u.log|
      ensures forall o | o in u.named[r] :: o in u.links
      ensures Skipped(u, r) ==>
                exists later :: r < later < |u.log| && !Skipped(u, later) && u.named[later] == u.named[r]
    {
      forall o | o in u.named[r] ensures o in u.links {
        NewlyNamedIsLinked(|t.log|, u, r, o);
      }
      if Skipped(u, r) {
        var later := SkippedHandsOff(u, r);
      }
    }
  }

  // ----- a split undoes a merge --------------------------------------------------------------------

  /** `u` is the committed outcome of a governed transaction whose only resolution is `r`, naming `on`. */
  ghost predicate CommittedOne(t: Tables, u: Tables, r: Resolution, on: set<ObservationId>)
    requires |t.log| == |t.named|
  {
    exists steps: seq<Step> ::
      && AllGoverned(|t.log|, steps)
      && Commits(t, steps)
      && Relinks(t, steps)
      && u == Transact(t, steps)
      && u.log == t.log + [r]
      && u.named == t.named + [on]
  }

  lemma CommittedOneIsSound(t: Tables, u: Tables, r: Resolution, on: set<ObservationId>)
    requires Sound(t) && CommittedOne(t, u, r, on)
    ensures Sound(u) && PeopleFollow(t, u)
    ensures u.log == t.log + [r] && u.named == t.named + [on]
    ensures FinalPeople(u, |t.log|)
  {
    var steps: seq<Step> :| AllGoverned(|t.log|, steps) && Commits(t, steps) && Relinks(t, steps) && u == Transact(t, steps)
      && u.log == t.log + [r] && u.named == t.named + [on];
    FollowsItself(t);
    RunFollows(t, t, false, steps);
    TransactKeepsSoundIff(t, steps);
    LastIsChecked(u);
    assert CompleteFinalState(u, |t.log|);
  }

  lemma FoldExtends(t: Tables, u: Tables, r: Resolution, on: set<ObservationId>)
    requires LogRows(t) && LinksAreExact(t) && LogRows(u) && LinksAreExact(u)
    requires u.log == t.log + [r] && u.named == t.named + [on]
    ensures u.links == t.links + map o | o in on :: Link(r.retained, |t.log|)
  {
    LinksFoldTheLog(t);
    LinksFoldTheLog(u);
    assert u.log[..|t.log|] == t.log && u.named[..|t.log|] == t.named;
  }

  /** The one row a resolution may rewrite. */
  predicate Rewrites(r: Resolution, p: PersonId) {
    if r.action == MergePerson then r.prior == Some(p) else r.retained == p
  }

  lemma OnlyItsPersonChanges(t: Tables, u: Tables, r: Resolution, p: PersonId)
    requires PeopleFollow(t, u) && u.log == t.log + [r]
    requires p in t.people && u.people[p] != t.people[p]
    ensures Rewrites(r, p)
  {
    assert Rewritten(|t.log|, u, p);
  }

  /** Such a transaction moves exactly the named observations, and rewrites no other pointer. */
  lemma OneResolutionMovesItsObservations(t: Tables, u: Tables, r: Resolution, on: set<ObservationId>)
    requires Sound(t) && CommittedOne(t, u, r, on)
    ensures Sound(u) && FinalPeople(u, |t.log|) && u.log == t.log + [r]
    ensures u.links == t.links + map o | o in on :: Link(r.retained, |t.log|)
    ensures t.people.Keys <= u.people.Keys
    ensures forall p | p in t.people && !Rewrites(r, p) :: u.people[p] == t.people[p]
  {
    CommittedOneIsSound(t, u, r, on);
    FoldExtends(t, u, r, on);
    forall p | p in t.people && u.people[p] != t.people[p] ensures Rewrites(r, p) {
      OnlyItsPersonChanges(t, u, r, p);
    }
  }

  /** The links of `t`, `u` and `v` before, between and after. */
  lemma LinksReturn(t: Tables, u: Tables, v: Tables, p: PersonId, q: PersonId, merged: nat, parted: nat)
    requires p != q
    requires u.links == t.links + map o | o in Owned(t, p) :: Link(q, merged)
    requires v.links == u.links + map o | o in Owned(t, p) :: Link(p, parted)
    ensures u.links.Keys == t.links.Keys && v.links.Keys == t.links.Keys
    ensures Owned(u, q) == Owned(t, q) + Owned(t, p) && Owned(u, p) == {}
    ensures forall o | o in t.links && o !in Owned(t, p) :: u.links[o] == t.links[o] && v.links[o] == t.links[o]
    ensures forall o | o in t.links :: v.links[o].person == t.links[o].person
  {
  }

  /** And the people of `t`, `u` and `v`. */
  lemma PointersReturn(t: Tables, u: Tables, v: Tables, merge: Resolution, split: Resolution, p: PersonId, q: PersonId)
    requires p != q
    requires merge.action == MergePerson && merge.retained == q && merge.prior == Some(p)
    requires split.action == SplitPerson && split.retained == p && split.prior == Some(q)
    requires p in t.people && t.people[p].supersededBy.None?
    requires u.log == t.log + [merge] && FinalPeople(u, |t.log|)
    requires v.log == u.log + [split] && FinalPeople(v, |u.log|)
    requires t.people.Keys <= u.people.Keys <= v.people.Keys
    requires forall x | x in t.people && !Rewrites(merge, x) :: u.people[x] == t.people[x]
    requires forall x | x in u.people && !Rewrites(split, x) :: v.people[x] == u.people[x]
    ensures u.people[p].supersededBy == Some(q)
    ensures forall x | x in t.people && x != p :: u.people[x] == t.people[x]
    ensures forall x | x in t.people :: v.people[x].supersededBy == t.people[x].supersededBy
  {
  }

  /**
   Merging live `p` into live `q` over exactly what `p` owns, then committing the
   inverse split over the same observations, restores every owner and every
   supersession pointer; in between, only `p`'s observations and `p`'s pointer moved.
   */
  lemma SplitUndoesMerge(t: Tables, u: Tables, v: Tables, merge: Resolution, split: Resolution, p: PersonId, q: PersonId)
    requires Sound(t) && p != q
    requires merge.action == MergePerson && merge.retained == q && merge.prior == Some(p)
    requires split.action == SplitPerson && split.retained == p && split.prior == Some(q)
    requires p in t.people && t.people[p].supersededBy.None?
    requires q in t.people && t.people[q].supersededBy.None?
    requires CommittedOne(t, u, merge, Owned(t, p))
    requires |u.log| == |u.named| && CommittedOne(u, v, split, Owned(t, p))
    ensures u.links.Keys == t.links.Keys && v.links.Keys == t.links.Keys
    ensures Owned(u, q) == Owned(t, q) + Owned(t, p) && Owned(u, p) == {}
    ensures forall o | o in t.links && o !in Owned(t, p) :: u.links[o] == t.links[o] && v.links[o] == t.links[o]
    ensures forall o | o in t.links :: v.links[o].person == t.links[o].person
    ensures p in u.people && u.people[p].supersededBy == Some(q)
    ensures forall x | x in t.people && x != p :: x in u.people && u.people[x] == t.people[x]
    ensures forall x | x in t.people :: x in v.people && v.people[x].supersededBy == t.people[x].supersededBy
  {
    OneResolutionMovesItsObservations(t, u, merge, Owned(t, p));
    OneResolutionMovesItsObservations(u, v, split, Owned(t, p));
    LinksReturn(t, u, v, p, q, |t.log|, |u.log|);
    PointersReturn(t, u, v, merge, split, p, q);
  }
}
