/**
 What the row triggers alone do not enforce: single statements that are
 admitted and commit outside the stated intent, and exactly what each one breaks.
 */
module IdentityGaps {
  import opened Options
  import opened IdentityTables
  import opened IdentityGuards
  import opened IdentityCommit
  import opened IdentityInvariant
  import opened SupersessionChains

  lemma OneStatement(t: Tables, s: Step)
    requires |t.log| == |t.named| && Admits(t, s)
    requires Effect(t, s).log == t.log && Effect(t, s).people.Keys == t.people.Keys && !TouchesParticipants(s)
    ensures Commits(t, [s]) && Transact(t, [s]) == Effect(t, s)
  {
    assert [s][1..] == [];
    assert Run(t, [s]) == Run(Effect(t, s), []);
    assert !Touched([s]);
  }

  lemma NamingRaisesLatest(t: Tables, u: Tables, r: nat, o: ObservationId)
    requires |t.named| == |t.log| && r < |t.named| && LinksAreExact(t)
    requires u.log == t.log && u.links == t.links && u.named == t.named[r := t.named[r] + {o}]
    requires o in t.links && r < t.links[o].resolution
    ensures LinksAreExact(u)
  {
    forall x | x in u.links ensures LatestNaming(u, u.links[x].resolution, x) {
      assert LatestNaming(t, t.links[x].resolution, x);
    }
    forall k, x | 0 <= k < |u.named| && x in u.named[k] ensures x in u.links {
      assert x == o || x in t.named[k];
    }
  }

  /**
   An observation named under an already committed resolution: nothing checks the
   row, and the links stay exact only if the observation is linked by a later one.
   */
  lemma NamingUnderAnOldResolution(t: Tables, r: nat, o: ObservationId)
    requires |t.named| == |t.log| && LinksAreExact(t) && Admits(t, NameObservation(r, o))
    ensures Commits(t, [NameObservation(r, o)])
    ensures LinksAreExact(Transact(t, [NameObservation(r, o)])) <==> o in t.links && r < t.links[o].resolution
  {
    var u := Effect(t, NameObservation(r, o));
    OneStatement(t, NameObservation(r, o));
    assert o in u.named[r];
    if o in t.links {
      assert LatestNaming(t, t.links[o].resolution, o);
      assert LatestNaming(u, u.links[o].resolution, o) ==> r <= u.links[o].resolution;
      if r < t.links[o].resolution {
        NamingRaisesLatest(t, u, r, o);
      }
    }
  }

  lemma SupersededOwners(t: Tables, u: Tables, p: PersonId, row: Person)
    requires OwnersAreLive(t) && p in t.people && row.supersededBy.Some?
    requires u.links == t.links && u.people == t.people[p := row]
    ensures OwnersAreLive(u) <==> forall o | o in t.links :: t.links[o].person != p
  {
    if OwnersAreLive(u) {
      forall o | o in t.links ensures t.links[o].person != p {
        assert u.people[u.links[o].person].supersededBy.None?;
      }
    }
  }

  /**
   A person pointed at another under an already committed merge of that pair: every
   link keeps a live owner only if the person owns none, and every walk stays finite
   only if the other's chain does not pass through the person.
   */
  lemma SupersedingUnderAnOldMerge(t: Tables, p: PersonId, q: PersonId, r: nat, chain: seq<PersonId>)
    requires Sound(t) && Admits(t, UpdatePerson(p, Some(q), Some(r)))
    requires IsChain(t.people, chain) && chain[0] == q
    ensures Commits(t, [UpdatePerson(p, Some(q), Some(r))])
    ensures var u := Transact(t, [UpdatePerson(p, Some(q), Some(r))]);
            && (OwnersAreLive(u) <==> forall o | o in t.links :: t.links[o].person != p)
            && (AllTerminate(u.people) <==> p !in chain)
  {
    var u := Effect(t, UpdatePerson(p, Some(q), Some(r)));
    OneStatement(t, UpdatePerson(p, Some(q), Some(r)));
    SupersededOwners(t, u, p, Person(Some(q), Some(r)));
    PointerClosesACycle(t.people, p, Person(Some(q), Some(r)), chain);
  }
}
