/** The identity plane as the mutable tables of one database session. */
module IdentityPlane {
  import opened Options
  import opened IdentityTables
  import opened IdentityGuards
  import opened IdentityCommit
  import opened IdentityInvariant
  import opened IdentityCorrection
  import opened IdentityRules
  import opened IdentityAcceptance

  lemma {:induction false} RunAppends(t: Tables, steps: seq<Step>, s: Step)
    requires |t.log| == |t.named|
    ensures var r := Run(t, steps);
            Run(t, steps + [s]) == if r.Some? && Admits(r.value, s) then Some(Effect(r.value, s)) else None
    decreases |steps|
  {
    if steps == [] {
      assert [s][1..] == [];
    } else {
      assert (steps + [s])[0] == steps[0] && (steps + [s])[1..] == steps[1..] + [s];
      if Admits(t, steps[0]) {
        RunAppends(Effect(t, steps[0]), steps[1..], s);
      }
    }
  }

  lemma TouchedAppends(steps: seq<Step>, s: Step)
    ensures Touched(steps + [s]) == (Touched(steps) || TouchesParticipants(s))
  {
    if Touched(steps) {
      var i :| 0 <= i < |steps| && TouchesParticipants(steps[i]);
      assert TouchesParticipants((steps + [s])[i]);
    }
    assert TouchesParticipants(s) ==> TouchesParticipants((steps + [s])[|steps|]);
  }

  /** A constraint trigger event waiting for the commit. */
  datatype Event = ResolutionInserted(position: nat) | PersonInserted(person: PersonId) | SupportTouched

  /** The events one admitted statement queues. */
  function Fired(t: Tables, s: Step): seq<Event> {
    match s
    case Resolve(_) => [ResolutionInserted(|t.log|)]
    case InsertPerson(p, _, _) => [PersonInserted(p)]
    case _ => if TouchesParticipants(s) then [SupportTouched] else []
  }

  /** What the event's trigger function finds when it runs. */
  predicate Passes(t: Tables, e: Event)
    requires |t.log| == |t.named|
  {
    match e
    case ResolutionInserted(r) => r < |t.log| && ExactObservations(t, r) && CompleteFinalState(t, r)
    case PersonInserted(p) => p in t.people && CanonicalPerson(t, p)
    case SupportTouched => ParticipantsSupported(t)
  }

  /** The queue holds one event for every row the transaction inserted, and nothing else. */
  ghost predicate QueueCovers(a: Tables, b: Tables, queue: seq<Event>, touched: bool) {
    && |a.log| <= |b.log|
    && a.people.Keys <= b.people.Keys
    && (forall r: nat :: ResolutionInserted(r) in queue <==> |a.log| <= r < |b.log|)
    && (forall p :: PersonInserted(p) in queue <==> p in b.people && p !in a.people)
    && (SupportTouched in queue <==> touched)
  }

  lemma InsertedRows(t: Tables, s: Step)
    requires Admits(t, s)
    ensures |Effect(t, s).log| == if s.Resolve? then |t.log| + 1 else |t.log|
    ensures Effect(t, s).people.Keys == t.people.Keys + if s.InsertPerson? then {s.person} else {}
    ensures s.InsertPerson? ==> s.person !in t.people
  {
  }

  lemma QueueGrows(a: Tables, b: Tables, c: Tables, queue: seq<Event>, touched: bool, s: Step)
    requires QueueCovers(a, b, queue, touched)
    requires |c.log| == if s.Resolve? then |b.log| + 1 else |b.log|
    requires c.people.Keys == b.people.Keys + if s.InsertPerson? then {s.person} else {}
    requires s.InsertPerson? ==> s.person !in b.people
    ensures QueueCovers(a, c, queue + Fired(b, s), touched || TouchesParticipants(s))
  {
    forall e ensures e in queue + Fired(b, s) <==> e in queue || e in Fired(b, s) {
    }
    forall p ensures PersonInserted(p) in queue + Fired(b, s) <==> p in c.people && p !in a.people {
      assert PersonInserted(p) in Fired(b, s) <==> s.InsertPerson? && s.person == p;
      assert p in c.people <==> p in c.people.Keys;
    }
  }

  lemma StatementAppends(a: Tables, t: Tables, queue: seq<Event>, failed: bool, steps: seq<Step>, s: Step)
    requires |a.log| == |a.named| && Run(a, steps) == (if failed then None else Some(t))
    requires !failed ==> QueueCovers(a, t, queue, Touched(steps))
    ensures failed || !Admits(t, s) ==> Run(a, steps + [s]).None?
    ensures !failed && Admits(t, s) ==>
              && Run(a, steps + [s]) == Some(Effect(t, s))
              && QueueCovers(a, Effect(t, s), queue + Fired(t, s), Touched(steps + [s]))
  {
    RunAppends(a, steps, s);
    TouchedAppends(steps, s);
    if !failed && Admits(t, s) {
      InsertedRows(t, s);
      QueueGrows(a, t, Effect(t, s), queue, Touched(steps), s);
    }
  }

  /** Running every queued event is the commit check of the specification. */
  lemma QueueDecides(a: Tables, b: Tables, queue: seq<Event>, touched: bool)
    requires |b.log| == |b.named| && QueueCovers(a, b, queue, touched)
    ensures (forall i | 0 <= i < |queue| :: Passes(b, queue[i])) <==> CommitAccepts(a, b, touched)
  {
    assert (forall i | 0 <= i < |queue| :: Passes(b, queue[i])) <==> (forall e | e in queue :: Passes(b, e));
    if forall e | e in queue :: Passes(b, e) {
      forall r | |a.log| <= r < |b.log| ensures ExactObservations(b, r) && CompleteFinalState(b, r) {
        assert ResolutionInserted(r) in queue;
      }
      forall p | p in b.people && p !in a.people ensures CanonicalPerson(b, p) {
        assert PersonInserted(p) in queue;
      }
    }
    if CommitAccepts(a, b, touched) {
      forall e | e in queue ensures Passes(b, e) {
        match e
        case ResolutionInserted(r) => assert |a.log| <= r < |b.log|;
        case PersonInserted(p) => assert p in b.people && p !in a.people;
        case SupportTouched =>
      }
    }
  }

  lemma GovernedCommitIsSound(t: Tables, steps: seq<Step>)
    requires |t.log| == |t.named|
    ensures Sound(t) && AllGoverned(|t.log|, steps) ==> (Sound(Transact(t, steps)) <==> (Commits(t, steps) ==> Relinks(t, steps)))
  {
    if Sound(t) && AllGoverned(|t.log|, steps) {
      TransactKeepsSoundIff(t, steps);
    }
  }

  /** The decision accepts, and none of the same case has a higher sequence. */
  ghost predicate RuledLast(t: Tables, x: Resolution) {
    && x.decision in t.decisions
    && t.decisions[x.decision].reviewCase == x.reviewCase && t.decisions[x.decision].disposition == Accept
    && forall d | d in t.decisions && t.decisions[d].reviewCase == x.reviewCase ::
         t.decisions[d].sequence <= t.decisions[x.decision].sequence
  }

  lemma AdmittedIsRuledLast(t: Tables, s: Step)
    requires s.Resolve? && Admits(t, s)
    ensures RuledLast(t, s.resolution)
  {
  }

  lemma CommitSettles(t: Tables, steps: seq<Step>)
    requires |t.log| == |t.named|
    ensures Commits(t, steps) ==> ResolvesTheReviewed(t, Transact(t, steps))
    ensures Declared(t) && ParticipantsHold(t) && Run(t, steps).Some? ==>
              (Commits(t, steps) <==> Settled(t, Run(t, steps).value))
  {
    if Commits(t, steps) {
      CommitNamesTheReviewed(t, steps);
    }
    if Declared(t) && ParticipantsHold(t) && Run(t, steps).Some? {
      CommitsIff(t, steps);
    }
  }

  /** Whatever is resolved since `t` names just what was put under review. */
  ghost predicate ResolvesTheReviewed(t: Tables, u: Tables)
    requires |u.log| == |u.named|
  {
    forall r | |t.log| <= r < |u.log| :: NamesTheReviewed(u, r)
  }

  /**
   One session: the tables its statements change in place, the snapshot its open
   transaction began from, the queue of deferred trigger events, and whether a
   statement has been refused since then.
   */
  class Session {
    var tables: Tables
    var committed: Tables
    var queue: seq<Event>
    var failed: bool
    ghost var steps: seq<Step>

    /** The tables are what the statements of the open transaction make of the committed ones. */
    ghost predicate Valid()
      reads this
    {
      && |committed.log| == |committed.named|
      && |tables.log| == |tables.named|
      && Run(committed, steps) == (if failed then None else Some(tables))
      && (!failed ==> QueueCovers(committed, tables, queue, Touched(steps)))
    }

    constructor ()
      ensures Valid() && committed == EMPTY && tables == EMPTY && steps == []
    {
      tables, committed, queue, failed, steps := EMPTY, EMPTY, [], false, [];
    }

    /** One statement; a refusal dooms the transaction and changes nothing. */
    method Execute(s: Step) returns (ok: bool)
      requires Valid()
      modifies this
      ensures Valid() && committed == old(committed) && steps == old(steps) + [s]
      ensures ok == (!old(failed) && Admits(old(tables), s))
      ensures failed == !ok
      ensures tables == if ok then Effect(old(tables), s) else old(tables)
      ensures ok && s.Resolve? ==> RuledLast(old(tables), s.resolution)
    {
      ok := !failed && Admits(tables, s);
      StatementAppends(committed, tables, queue, failed, steps, s);
      if ok && s.Resolve? {
        AdmittedIsRuledLast(tables, s);
      }
      if ok {
        queue := queue + Fired(tables, s);
        tables := Effect(tables, s);
      }
      failed := !ok;
      steps := steps + [s];
    }

    /** Fires the queued triggers in order and stops at the first that raises. */
    method FireQueue() returns (ok: bool)
      requires Valid() && !failed
      ensures ok == CommitAccepts(committed, tables, Touched(steps))
    {
      ok := true;
      var i := 0;
      while i < |queue| && ok
        invariant 0 <= i <= |queue|
        invariant ok ==> forall k | 0 <= k < i :: Passes(tables, queue[k])
        invariant !ok ==> exists k :: 0 <= k < |queue| && !Passes(tables, queue[k])
      {
        ok := Passes(tables, queue[i]);
        i := i + 1;
      }
      QueueDecides(committed, tables, queue, Touched(steps));
    }

    /** Keeps the transaction if every queued trigger returns, and takes all of it back otherwise. */
    method Commit() returns (ok: bool)
      requires Valid()
      modifies this
      ensures Valid() && steps == [] && committed == tables
      ensures ok == Commits(old(committed), old(steps))
      ensures tables == Transact(old(committed), old(steps))
      ensures ok ==> ResolvesTheReviewed(old(committed), tables)
      ensures Declared(old(committed)) && ParticipantsHold(old(committed)) && !old(failed) ==>
                (ok <==> Settled(old(committed), old(tables)))
      ensures Sound(old(committed)) && AllGoverned(|old(committed).log|, old(steps)) ==>
                (Sound(tables) <==> (ok ==> Relinks(old(committed), old(steps))))
    {
      ok := !failed;
      if ok {
        ok := FireQueue();
      }
      GovernedCommitIsSound(committed, steps);
      CommitSettles(committed, steps);
      if ok {
        committed := tables;
      } else {
        tables := committed;
      }
      queue, failed, steps := [], false, [];
    }
  }
}
