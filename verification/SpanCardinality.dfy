/**
 "At least one span": a rule over two tables that is only ever checked for the rows a
 transaction touched. The same two triggers guard proposals and assertions, so a
 subject stands for either.
 */
module SpanCardinality {
  import opened Options

  datatype SubjectId = Subject(n: nat)
  datatype SpanId = Span(n: nat)

  type Link = (SubjectId, SpanId)

  datatype Tables = Tables(subjects: set<SubjectId>, links: set<Link>)

  datatype Step =
    | InsertSubject(subject: SubjectId)
    | DeleteSubject(subject: SubjectId)
    | InsertLink(link: Link)
    | DeleteLink(link: Link)
    | UpdateLink(link: Link, moved: Link)

  /** What the two deferred triggers are queued for. */
  datatype Event = Inserted(subject: SubjectId) | LinkDeleted(subject: SubjectId)

  predicate Cited(t: Tables, p: SubjectId) {
    exists l | l in t.links :: l.0 == p
  }

  /** The rule as documented. */
  predicate EveryoneCited(t: Tables) {
    forall p | p in t.subjects :: Cited(t, p)
  }

  /** The foreign key of the links. */
  predicate LinksAreOwned(t: Tables) {
    forall l | l in t.links :: l.0 in t.subjects
  }

  predicate Admits(t: Tables, s: Step) {
    match s
    case InsertSubject(p) => p !in t.subjects
    case DeleteSubject(p) => p in t.subjects
    case InsertLink(l) => l.0 in t.subjects && l !in t.links
    case DeleteLink(l) => l in t.links
    case UpdateLink(l, moved) => l in t.links && moved.0 in t.subjects && (moved == l || moved !in t.links)
  }

  function LinksOf(t: Tables, p: SubjectId): set<Link> {
    set l | l in t.links && l.0 == p
  }

  /** The tables with the statement's row written, whatever the keys say; deleting a subject cascades to its links. */
  function Written(t: Tables, s: Step): Tables {
    match s
    case InsertSubject(p) => t.(subjects := t.subjects + {p})
    case DeleteSubject(p) => Tables(t.subjects - {p}, t.links - LinksOf(t, p))
    case InsertLink(l) => t.(links := t.links + {l})
    case DeleteLink(l) => t.(links := t.links - {l})
    case UpdateLink(l, moved) => t.(links := t.links - {l} + {moved})
  }

  function Effect(t: Tables, s: Step): Tables
    requires Admits(t, s)
  {
    Written(t, s)
  }

  /** A statement changes how many rows there are as an INSERT or a DELETE does, and an UPDATE not at all. */
  ghost predicate Counts(t: Tables, s: Step) {
    var u := Written(t, s);
    match s
    case InsertSubject(_) => u.subjects > t.subjects
    case DeleteSubject(_) => u.subjects < t.subjects
    case InsertLink(_) => u.links > t.links
    case DeleteLink(_) => u.links < t.links
    case UpdateLink(l, _) => l in t.links && |u.links| == |t.links|
  }

  /** The keys accept exactly the statements that leave every link owned and the rows counted right. */
  lemma AcceptedIff(t: Tables, s: Step)
    requires LinksAreOwned(t)
    ensures Admits(t, s) <==> Counts(t, s) && LinksAreOwned(Written(t, s))
  {
    match s
    case InsertLink(l) => InsertedLinkAccepted(t, l);
    case DeleteLink(l) => assert l in t.links <==> t.links - {l} < t.links;
    case UpdateLink(l, moved) => MovedLinkAccepted(t, l, moved);
    case InsertSubject(p) => assert p in t.subjects + {p};
    case DeleteSubject(p) => assert p in t.subjects <==> t.subjects - {p} < t.subjects;
  }

  lemma InsertedLinkAccepted(t: Tables, l: Link)
    requires LinksAreOwned(t)
    ensures LinksAreOwned(Written(t, InsertLink(l))) <==> l.0 in t.subjects
    ensures t.links + {l} > t.links <==> l !in t.links
  {
    assert l in Written(t, InsertLink(l)).links;
  }

  lemma MovedLinkAccepted(t: Tables, l: Link, moved: Link)
    requires LinksAreOwned(t)
    ensures LinksAreOwned(Written(t, UpdateLink(l, moved))) <==> moved.0 in t.subjects
    ensures l in t.links ==> (|t.links - {l} + {moved}| == |t.links| <==> moved == l || moved !in t.links)
  {
    assert moved in Written(t, UpdateLink(l, moved)).links;
    if l in t.links {
      ReplacingCounts(t.links, l, moved);
    }
  }

  lemma ReplacingCounts(links: set<Link>, l: Link, moved: Link)
    requires l in links
    ensures |links - {l} + {moved}| == |links| <==> moved == l || moved !in links
  {
    assert |links - {l}| == |links| - 1;
    if moved in links - {l} {
      assert links - {l} + {moved} == links - {l};
    }
  }

  /** AFTER INSERT on the subjects and AFTER DELETE on the links; an updated link queues nothing. */
  function Queued(t: Tables, s: Step): set<Event> {
    match s
    case InsertSubject(p) => {Inserted(p)}
    case DeleteSubject(p) => if Cited(t, p) then {LinkDeleted(p)} else {}
    case DeleteLink(l) => {LinkDeleted(l.0)}
    case _ => {}
  }

  /** `a_proposal_cites_a_span`: only the delete path first looks whether the subject is still there. */
  predicate Passes(t: Tables, e: Event) {
    match e
    case Inserted(p) => Cited(t, p)
    case LinkDeleted(p) => p !in t.subjects || Cited(t, p)
  }

  // ----- transactions ---------------------------------------------------------------------------

  function Run(t: Tables, steps: seq<Step>): Option<(Tables, set<Event>)> {
    if steps == [] then Some((t, {}))
    else
      var s := steps[|steps| - 1];
      var r := Run(t, steps[..|steps| - 1]);
      if r.Some? && Admits(r.value.0, s) then
        Some((Effect(r.value.0, s), r.value.1 + Queued(r.value.0, s)))
      else None
  }

  predicate Commits(t: Tables, steps: seq<Step>) {
    var r := Run(t, steps);
    r.Some? && forall e | e in r.value.1 :: Passes(r.value.0, e)
  }

  function Transact(t: Tables, steps: seq<Step>): Tables {
    if Commits(t, steps) then Run(t, steps).value.0 else t
  }

  predicate MovesNoLink(steps: seq<Step>) {
    forall s | s in steps :: !s.UpdateLink?
  }

  predicate OnlyAdds(steps: seq<Step>) {
    forall s | s in steps :: s.InsertSubject? || s.InsertLink?
  }

  /** The subjects the transaction inserted, whatever became of them. */
  ghost predicate InsertedIn(steps: seq<Step>, p: SubjectId) {
    InsertSubject(p) in steps
  }

  lemma {:induction false} RunKeepsOwners(t: Tables, steps: seq<Step>)
    requires LinksAreOwned(t) && Run(t, steps).Some?
    ensures LinksAreOwned(Run(t, steps).value.0)
  {
    if steps != [] {
      RunKeepsOwners(t, steps[..|steps| - 1]);
    }
  }

  lemma {:induction false} InsertsAreQueued(t: Tables, steps: seq<Step>, p: SubjectId)
    requires Run(t, steps).Some?
    ensures Inserted(p) in Run(t, steps).value.1 <==> InsertedIn(steps, p)
  {
    if steps != [] {
      InsertsAreQueued(t, steps[..|steps| - 1], p);
      assert steps == steps[..|steps| - 1] + [steps[|steps| - 1]];
    }
  }

  // ----- what a transaction leaves, read off its statements -------------------------------------

  predicate Puts(s: Step, l: Link) {
    s == InsertLink(l) || (s.UpdateLink? && s.moved == l)
  }

  predicate Takes(s: Step, l: Link) {
    s == DeleteLink(l) || s == DeleteSubject(l.0) || (s.UpdateLink? && s.link == l && s.moved != l)
  }

  predicate NeverTaken(steps: seq<Step>, from: nat, l: Link) {
    forall j | from <= j < |steps| :: !Takes(steps[j], l)
  }

  /** The link was put by a statement and not taken since, or was there and is never taken. */
  ghost predicate EndsInPlace(t: Tables, steps: seq<Step>, l: Link) {
    || (l in t.links && NeverTaken(steps, 0, l))
    || exists i: nat :: i < |steps| && Puts(steps[i], l) && NeverTaken(steps, i + 1, l)
  }

  predicate NeverDeleted(steps: seq<Step>, from: nat, p: SubjectId) {
    forall j | from <= j < |steps| :: steps[j] != DeleteSubject(p)
  }

  ghost predicate Survives(t: Tables, steps: seq<Step>, p: SubjectId) {
    || (p in t.subjects && NeverDeleted(steps, 0, p))
    || exists i: nat :: i < |steps| && steps[i] == InsertSubject(p) && NeverDeleted(steps, i + 1, p)
  }

  lemma NeverTakenThen(steps: seq<Step>, s: Step, from: nat, l: Link)
    requires from <= |steps|
    ensures NeverTaken(steps + [s], from, l) <==> NeverTaken(steps, from, l) && !Takes(s, l)
  {
    var all := steps + [s];
    assert all[|steps|] == s;
    forall j | 0 <= j < |steps| ensures all[j] == steps[j] {
    }
  }

  lemma NeverDeletedThen(steps: seq<Step>, s: Step, from: nat, p: SubjectId)
    requires from <= |steps|
    ensures NeverDeleted(steps + [s], from, p) <==> NeverDeleted(steps, from, p) && s != DeleteSubject(p)
  {
    var all := steps + [s];
    assert all[|steps|] == s;
    forall j | 0 <= j < |steps| ensures all[j] == steps[j] {
    }
  }

  lemma EndsInPlaceThen(t: Tables, steps: seq<Step>, s: Step, l: Link)
    ensures EndsInPlace(t, steps + [s], l) <==> Puts(s, l) || (EndsInPlace(t, steps, l) && !Takes(s, l))
  {
    var all := steps + [s];
    forall from: nat | from <= |steps| ensures NeverTaken(all, from, l) <==> NeverTaken(steps, from, l) && !Takes(s, l) {
      NeverTakenThen(steps, s, from, l);
    }
    assert NeverTaken(all, |steps| + 1, l) && all[|steps|] == s;
    if i: nat :| i < |steps| && Puts(steps[i], l) && NeverTaken(steps, i + 1, l) {
      assert all[i] == steps[i];
    }
  }

  lemma SurvivesThen(t: Tables, steps: seq<Step>, s: Step, p: SubjectId)
    ensures Survives(t, steps + [s], p) <==> s == InsertSubject(p) || (Survives(t, steps, p) && s != DeleteSubject(p))
  {
    var all := steps + [s];
    forall from: nat | from <= |steps|
      ensures NeverDeleted(all, from, p) <==> NeverDeleted(steps, from, p) && s != DeleteSubject(p)
    {
      NeverDeletedThen(steps, s, from, p);
    }
    assert NeverDeleted(all, |steps| + 1, p) && all[|steps|] == s;
    if i: nat :| i < |steps| && steps[i] == InsertSubject(p) && NeverDeleted(steps, i + 1, p) {
      assert all[i] == steps[i];
    }
  }

  lemma {:induction false} LinksLeft(t: Tables, steps: seq<Step>, l: Link)
    requires Run(t, steps).Some?
    ensures l in Run(t, steps).value.0.links <==> EndsInPlace(t, steps, l)
  {
    if steps != [] {
      var init, s := steps[..|steps| - 1], steps[|steps| - 1];
      LinksLeft(t, init, l);
      assert steps == init + [s];
      EndsInPlaceThen(t, init, s, l);
    }
  }

  lemma {:induction false} SubjectsLeft(t: Tables, steps: seq<Step>, p: SubjectId)
    requires Run(t, steps).Some?
    ensures p in Run(t, steps).value.0.subjects <==> Survives(t, steps, p)
  {
    if steps != [] {
      var init, s := steps[..|steps| - 1], steps[|steps| - 1];
      SubjectsLeft(t, init, p);
      assert steps == init + [s];
      SurvivesThen(t, init, s, p);
    }
  }

  // ----- the checks decide the rule but for moved links ---------------------------------------------

  predicate MovedOff(s: Step, p: SubjectId) {
    s.UpdateLink? && s.link.0 == p
  }

  /** Every surviving subject that a move took a link off has some link that ends in place. */
  ghost predicate MovesLeaveCited(t: Tables, steps: seq<Step>) {
    forall i | 0 <= i < |steps| && steps[i].UpdateLink? && Survives(t, steps, steps[i].link.0) ::
      LeftCited(t, steps, steps[i].link.0)
  }

  ghost predicate LeftCited(t: Tables, steps: seq<Step>, p: SubjectId) {
    exists span :: EndsInPlace(t, steps, (p, span))
  }

  lemma LeftCitedIsCited(t: Tables, steps: seq<Step>, p: SubjectId)
    requires Run(t, steps).Some?
    ensures Cited(Run(t, steps).value.0, p) <==> LeftCited(t, steps, p)
  {
    var u := Run(t, steps).value.0;
    if l :| l in u.links && l.0 == p {
      LinksLeft(t, steps, (p, l.1));
      assert l == (p, l.1);
    }
    if span :| EndsInPlace(t, steps, (p, span)) {
      LinksLeft(t, steps, (p, span));
    }
  }

  /** A subject that nothing queued and no move took from is an old one, and it has every link it had. */
  lemma {:induction false} UnqueuedIsUntouched(t: Tables, steps: seq<Step>, p: SubjectId)
    requires Run(t, steps).Some? && forall s | s in steps :: !MovedOff(s, p)
    requires Inserted(p) !in Run(t, steps).value.1 && LinkDeleted(p) !in Run(t, steps).value.1
    ensures p in Run(t, steps).value.0.subjects ==> p in t.subjects
    ensures forall l | l in t.links && l.0 == p :: l in Run(t, steps).value.0.links
  {
    if steps != [] {
      var init, s := steps[..|steps| - 1], steps[|steps| - 1];
      UnqueuedIsUntouched(t, init, p);
      assert s in steps;
    }
  }

  lemma CheckedIsCited(t: Tables, steps: seq<Step>, p: SubjectId)
    requires LinksAreOwned(t) && EveryoneCited(t) && Commits(t, steps) && MovesLeaveCited(t, steps)
    requires p in Run(t, steps).value.0.subjects
    ensures Cited(Run(t, steps).value.0, p)
  {
    var (u, queue) := Run(t, steps).value;
    if Inserted(p) in queue {
      assert Passes(u, Inserted(p));
    } else if LinkDeleted(p) in queue {
      assert Passes(u, LinkDeleted(p));
    } else if i :| 0 <= i < |steps| && MovedOff(steps[i], p) {
      SubjectsLeft(t, steps, p);
      LeftCitedIsCited(t, steps, p);
    } else {
      UnqueuedIsUntouched(t, steps, p);
    }
  }

  /**
   Checking the touched rows and reading the moves off the statements decides as checking
   the whole table, and one thing more: a subject inserted and deleted again in one
   transaction makes it fail.
   */
  lemma ChecksAndMovesDecide(t: Tables, steps: seq<Step>)
    requires LinksAreOwned(t) && EveryoneCited(t) && Run(t, steps).Some?
    ensures var u := Run(t, steps).value.0;
            Commits(t, steps) && MovesLeaveCited(t, steps)
            <==> EveryoneCited(u) && forall p | InsertedIn(steps, p) :: p in u.subjects
  {
    var (u, queue) := Run(t, steps).value;
    forall p ensures Inserted(p) in queue <==> InsertedIn(steps, p) {
      InsertsAreQueued(t, steps, p);
    }
    if Commits(t, steps) && MovesLeaveCited(t, steps) {
      forall p | p in u.subjects ensures Cited(u, p) {
        CheckedIsCited(t, steps, p);
      }
      forall p | InsertedIn(steps, p) ensures p in u.subjects {
        InsertedStay(t, steps, p);
      }
    }
    if EveryoneCited(u) {
      forall p | Survives(t, steps, p) ensures LeftCited(t, steps, p) {
        SubjectsLeft(t, steps, p);
        LeftCitedIsCited(t, steps, p);
      }
    }
  }

  lemma InsertedStay(t: Tables, steps: seq<Step>, p: SubjectId)
    requires LinksAreOwned(t) && Commits(t, steps) && InsertedIn(steps, p)
    ensures p in Run(t, steps).value.0.subjects
  {
    var (u, queue) := Run(t, steps).value;
    InsertsAreQueued(t, steps, p);
    RunKeepsOwners(t, steps);
    assert Passes(u, Inserted(p));
  }

  /** A transaction that commits keeps the whole-table rule exactly when its moves leave everyone cited. */
  lemma CommitKeepsRuleIff(t: Tables, steps: seq<Step>)
    requires LinksAreOwned(t) && EveryoneCited(t) && Commits(t, steps)
    ensures EveryoneCited(Transact(t, steps)) <==> MovesLeaveCited(t, steps)
  {
    ChecksAndMovesDecide(t, steps);
    forall p | InsertedIn(steps, p) ensures p in Run(t, steps).value.0.subjects {
      InsertedStay(t, steps, p);
    }
  }

  /** Without moves the checks alone decide. */
  lemma TouchedRowsDecide(t: Tables, steps: seq<Step>)
    requires LinksAreOwned(t) && EveryoneCited(t) && MovesNoLink(steps) && Run(t, steps).Some?
    ensures var u := Run(t, steps).value.0;
            Commits(t, steps) <==> EveryoneCited(u) && forall p | InsertedIn(steps, p) :: p in u.subjects
  {
    ChecksAndMovesDecide(t, steps);
  }

  // ----- histories -----------------------------------------------------------------------------------

  function History(transactions: seq<seq<Step>>): Tables {
    if transactions == [] then Tables({}, {})
    else
      var last := |transactions| - 1;
      Transact(History(transactions[..last]), transactions[last])
  }

  lemma {:induction false} LinksStayOwned(transactions: seq<seq<Step>>)
    ensures LinksAreOwned(History(transactions))
  {
    if transactions != [] {
      var last := |transactions| - 1;
      LinksStayOwned(transactions[..last]);
      if Commits(History(transactions[..last]), transactions[last]) {
        RunKeepsOwners(History(transactions[..last]), transactions[last]);
      }
    }
  }

  /** The rule holds after every transaction of the history. */
  ghost predicate CitedThroughout(transactions: seq<seq<Step>>) {
    transactions == [] ||
    (CitedThroughout(transactions[..|transactions| - 1]) && EveryoneCited(History(transactions)))
  }

  /** Every transaction of the history that commits leaves those it moved links off cited. */
  ghost predicate MovesLeaveCitedThroughout(transactions: seq<seq<Step>>) {
    transactions == [] ||
    (var init, last := transactions[..|transactions| - 1], transactions[|transactions| - 1];
     && MovesLeaveCitedThroughout(init)
     && (Commits(History(init), last) ==> MovesLeaveCited(History(init), last)))
  }

  lemma ThroughoutIsNow(transactions: seq<seq<Step>>)
    requires CitedThroughout(transactions)
    ensures EveryoneCited(History(transactions))
  {
  }

  /** Over any history the whole-table rule holds throughout exactly when every commit's moves leave everyone cited. */
  lemma {:induction false} CitedThroughoutIff(transactions: seq<seq<Step>>)
    ensures CitedThroughout(transactions) <==> MovesLeaveCitedThroughout(transactions)
  {
    if transactions != [] {
      var init, last := transactions[..|transactions| - 1], transactions[|transactions| - 1];
      CitedThroughoutIff(init);
      if CitedThroughout(init) {
        ThroughoutIsNow(init);
        LinksStayOwned(init);
        if Commits(History(init), last) {
          CommitKeepsRuleIff(History(init), last);
        }
      }
    }
  }

  /** In particular as long as no link is moved. */
  lemma {:induction false} EveryoneStaysCited(transactions: seq<seq<Step>>)
    requires forall steps | steps in transactions :: MovesNoLink(steps)
    ensures EveryoneCited(History(transactions)) && LinksAreOwned(History(transactions))
  {
    StillnessLeavesCited(transactions);
    CitedThroughoutIff(transactions);
    ThroughoutIsNow(transactions);
    LinksStayOwned(transactions);
  }

  lemma {:induction false} StillnessLeavesCited(transactions: seq<seq<Step>>)
    requires forall steps | steps in transactions :: MovesNoLink(steps)
    ensures MovesLeaveCitedThroughout(transactions)
  {
    if transactions != [] {
      assert transactions[|transactions| - 1] in transactions;
      StillnessLeavesCited(transactions[..|transactions| - 1]);
    }
  }

  /**
   A transaction that only moves one link always commits, and the rule then holds exactly
   when the link stays with its subject or was not its last.
   */
  lemma MovingALinkIsUnseen(t: Tables, l: Link, moved: Link)
    requires LinksAreOwned(t) && EveryoneCited(t) && Admits(t, UpdateLink(l, moved))
    ensures Commits(t, [UpdateLink(l, moved)])
    ensures EveryoneCited(Transact(t, [UpdateLink(l, moved)])) <==> (moved.0 == l.0 || LinksOf(t, l.0) != {l})
  {
    var s := UpdateLink(l, moved);
    assert [s][..0] == [];
    assert Run(t, []) == Some((t, {})) && Queued(t, s) == {} && {} + Queued(t, s) == {};
    assert Run(t, [s]) == Some((Effect(t, s), {}));
    var u := Effect(t, s);
    forall p | p in t.subjects && p != l.0 ensures Cited(u, p) {
      var k :| k in t.links && k.0 == p;
      assert k in u.links;
    }
    if moved.0 == l.0 {
      assert moved in u.links;
    } else if LinksOf(t, l.0) != {l} {
      assert l in LinksOf(t, l.0);
      var k :| k in LinksOf(t, l.0) && k != l;
      assert k in u.links;
    } else {
      forall k | k in u.links ensures k.0 != l.0 {
        assert k in LinksOf(t, l.0) || k == moved || k.0 != l.0;
      }
    }
  }

  // ----- once the links are immutable -------------------------------------------------------------

  /** With links immutable and subjects undeletable only inserts are ever queued, and they are enough. */
  lemma InsertChecksSuffice(t: Tables, steps: seq<Step>)
    requires LinksAreOwned(t) && EveryoneCited(t) && OnlyAdds(steps) && Run(t, steps).Some?
    ensures forall e | e in Run(t, steps).value.1 :: e.Inserted?
    ensures Commits(t, steps) <==> EveryoneCited(Run(t, steps).value.0)
  {
    OnlyInsertsQueued(t, steps);
    TouchedRowsDecide(t, steps);
  }

  lemma {:induction false} OnlyInsertsQueued(t: Tables, steps: seq<Step>)
    requires OnlyAdds(steps) && Run(t, steps).Some?
    ensures forall e | e in Run(t, steps).value.1 :: e.Inserted?
    ensures forall p | InsertedIn(steps, p) :: p in Run(t, steps).value.0.subjects
  {
    if steps != [] {
      var init, s := steps[..|steps| - 1], steps[|steps| - 1];
      assert s in steps;
      OnlyInsertsQueued(t, init);
      assert steps == init + [s];
    }
  }

  // ----- the tables themselves ----------------------------------------------------------------------

  class SpanTables {
    var subjects: set<SubjectId>
    var links: set<Link>
    var committed: Tables
    var queue: set<Event>
    var failed: bool
    ghost var steps: seq<Step>

    function Contents(): Tables
      reads this
    {
      Tables(subjects, links)
    }

    ghost predicate Valid()
      reads this
    {
      && (!failed ==> Run(committed, steps) == Some((Contents(), queue)))
      && (failed ==> Run(committed, steps).None?)
    }

    constructor ()
      ensures Valid() && steps == [] && committed == Tables({}, {})
    {
      subjects, links, committed, queue, failed, steps := {}, {}, Tables({}, {}), {}, false, [];
    }

    method Execute(s: Step) returns (ok: bool)
      requires Valid()
      modifies this
      ensures Valid() && committed == old(committed) && steps == old(steps) + [s]
      ensures ok == (!old(failed) && Admits(old(Contents()), s)) == !failed
      ensures Contents() == if ok then Effect(old(Contents()), s) else old(Contents())
      ensures queue == if ok then old(queue) + Queued(old(Contents()), s) else old(queue)
    {
      assert (steps + [s])[..|steps|] == steps;
      ok := !failed && Admits(Contents(), s);
      if ok {
        queue := queue + Queued(Contents(), s);
        match s
        case InsertSubject(p) => subjects := subjects + {p};
        case DeleteSubject(p) =>
          links := links - LinksOf(Contents(), p);
          subjects := subjects - {p};
        case InsertLink(l) => links := links + {l};
        case DeleteLink(l) => links := links - {l};
        case UpdateLink(l, moved) => links := links - {l} + {moved};
      }
      failed := !ok;
      steps := steps + [s];
    }

    /** Runs each queued check once; the rule then holds for every row, touched or not. */
    method Commit() returns (ok: bool)
      requires Valid()
      modifies this
      ensures Valid() && steps == [] && committed == Contents()
      ensures ok == Commits(old(committed), old(steps))
      ensures Contents() == Transact(old(committed), old(steps))
      ensures old(LinksAreOwned(committed) && EveryoneCited(committed)) ==>
                && LinksAreOwned(Contents())
                && (EveryoneCited(Contents()) <==> (ok ==> MovesLeaveCited(old(committed), old(steps))))
    {
      if LinksAreOwned(committed) && EveryoneCited(committed) && Commits(committed, steps) {
        RunKeepsOwners(committed, steps);
        CommitKeepsRuleIff(committed, steps);
      }
      ok := !failed;
      var left := queue;
      while ok && left != {}
        invariant left <= queue
        invariant ok ==> !failed && forall e | e in queue && e !in left :: Passes(Contents(), e)
        invariant !ok ==> failed || exists e | e in queue :: !Passes(Contents(), e)
        decreases |left|
      {
        var e :| e in left;
        ok := Passes(Contents(), e);
        left := left - {e};
      }
      if ok {
        committed := Contents();
      } else {
        subjects, links := committed.subjects, committed.links;
      }
      queue, failed, steps := {}, false, [];
    }
  }
}
