/**
 Review and promotion: proposals and assertions move only along governed
 transitions, cases, decisions and receipts never change, and a proposal that names
 an accepted record is checked against its assertion at commit.
 */
module ReviewPlane {
  import opened Options

  datatype ProposalId = Proposal(n: nat)
  datatype AssertionId = Assertion(n: nat)
  datatype CaseId = Case(n: nat)
  datatype DecisionId = Decision(n: nat)
  datatype ReceiptId = Receipt(n: nat)
  datatype VersionId = Version(n: nat)

  datatype ProposalState =
    Proposed | NeedsReview | Accepted | CorrectedAccepted | Rejected | Deferred | Unresolved | Superseded | Invalidated
  datatype AssertionState =
    AcceptedRecord | RevalidationRequired | ProposedRecord | Contradicted | Stale | SupersededRecord | Withdrawn
  datatype Disposition = Accept | CorrectAndAccept | Defer | Escalate | MarkUnresolved | Reject | Reprocess
  datatype RecordType = CommitmentType | DecisionType | FollowUpType | IssueType | OpenQuestionType | RiskType | TaskType

  /** The columns of a proposal that no update may change. */
  datatype Origin = Origin(version: VersionId, kind: RecordType, evidence: string, createdAt: int)

  datatype ProposalRow = ProposalRow(
    origin: Origin,
    state: ProposalState,
    value: Option<string>,
    quarantine: Option<string>,
    recordType: Option<string>,
    recordId: Option<AssertionId>)

  datatype AssertionRow = AssertionRow(
    version: VersionId,
    proposal: ProposalId,
    decision: DecisionId,
    kind: RecordType,
    state: AssertionState,
    value: Option<string>,
    supersededBy: Option<AssertionId>,
    acceptedAt: int,
    revalidationAt: Option<int>)

  datatype CaseRow = CaseRow(proposal: ProposalId)
  datatype DecisionRow = DecisionRow(review: CaseId, sequence: nat, disposition: Disposition, decidedAt: int)
  datatype ReceiptRow = ReceiptRow(assertion: AssertionId, decision: DecisionId, issuedAt: int)

  datatype Tables = Tables(
    proposals: map<ProposalId, ProposalRow>,
    assertions: map<AssertionId, AssertionRow>,
    cases: map<CaseId, CaseRow>,
    decisions: map<DecisionId, DecisionRow>,
    receipts: map<ReceiptId, ReceiptRow>)

  /** DELETE is refused on all five tables and UPDATE on the last three, so these are all the statements. */
  datatype Step =
    | InsertProposal(proposal: ProposalId, proposalRow: ProposalRow)
    | UpdateProposal(proposal: ProposalId, proposalRow: ProposalRow)
    | InsertAssertion(assertion: AssertionId, assertionRow: AssertionRow)
    | UpdateAssertion(assertion: AssertionId, assertionRow: AssertionRow)
    | InsertCase(review: CaseId, caseRow: CaseRow)
    | InsertDecision(decision: DecisionId, decisionRow: DecisionRow)
    | InsertReceipt(receipt: ReceiptId, receiptRow: ReceiptRow)

  const ASSERTION := "assertion"

  // ----- guards ---------------------------------------------------------------------------------

  /** The CHECKs of `capture_proposals`. */
  predicate ProposalRowOk(row: ProposalRow) {
    && row.state.Invalidated? == row.quarantine.Some?
    && row.recordType.None? == row.recordId.None?
  }

  predicate AssertionRowOk(row: AssertionRow) {
    row.state.RevalidationRequired? == row.revalidationAt.Some?
  }

  predicate Open(s: ProposalState) {
    s.Proposed? || s.NeedsReview?
  }

  predicate SetAside(s: ProposalState) {
    s.Rejected? || s.Deferred? || s.Unresolved?
  }

  predicate IsAccepted(s: ProposalState) {
    s.Accepted? || s.CorrectedAccepted?
  }

  predicate RecordKept(was: ProposalRow, row: ProposalRow) {
    row.recordType == was.recordType && row.recordId == was.recordId
  }

  /** `review_state_transition_is_governed`, on proposals. */
  predicate ProposalMoves(was: ProposalRow, row: ProposalRow) {
    && row.origin == was.origin
    && (|| (was.state.Proposed? && row.state.NeedsReview?
            && row.value == was.value && row.quarantine == was.quarantine && RecordKept(was, row))
        || (Open(was.state) && SetAside(row.state)
            && row.value == was.value && row.quarantine == was.quarantine && RecordKept(was, row))
        || (Open(was.state) && IsAccepted(row.state)
            && row.quarantine == was.quarantine
            && row.recordType == Some(ASSERTION) && was.recordType.None?
            && row.recordId.Some? && was.recordId.None?
            && row.value == was.value)
        || ((Open(was.state) || SetAside(was.state)) && row.state.Invalidated?
            && was.quarantine.None? && row.quarantine.Some?
            && row.value == was.value && RecordKept(was, row)))
  }

  /** The same, on assertions. */
  predicate AssertionMoves(was: AssertionRow, row: AssertionRow) {
    && was.state.AcceptedRecord? && row.state.RevalidationRequired?
    && was.revalidationAt.None? && row.revalidationAt.Some?
    && row == was.(state := row.state, revalidationAt := row.revalidationAt)
  }

  predicate AssertionKeysOk(t: Tables, a: AssertionId, row: AssertionRow) {
    && row.proposal in t.proposals && row.decision in t.decisions
    && (row.supersededBy.Some? ==> row.supersededBy.value in t.assertions || row.supersededBy == Some(a))
    && forall b | b in t.assertions ::
         && t.assertions[b].proposal != row.proposal
         && (row.supersededBy.Some? ==> t.assertions[b].supersededBy != row.supersededBy)
  }

  predicate Admits(t: Tables, s: Step) {
    match s
    case InsertProposal(p, row) => p !in t.proposals && ProposalRowOk(row)
    case UpdateProposal(p, row) => p in t.proposals && ProposalMoves(t.proposals[p], row) && ProposalRowOk(row)
    case InsertAssertion(a, row) => a !in t.assertions && AssertionRowOk(row) && AssertionKeysOk(t, a, row)
    case UpdateAssertion(a, row) => a in t.assertions && AssertionMoves(t.assertions[a], row) && AssertionRowOk(row)
    case InsertCase(c, row) =>
      c !in t.cases && row.proposal in t.proposals && forall d | d in t.cases :: t.cases[d].proposal != row.proposal
    case InsertDecision(d, row) =>
      && d !in t.decisions && row.review in t.cases && row.sequence >= 1
      && forall e | e in t.decisions ::
           t.decisions[e].review != row.review || t.decisions[e].sequence != row.sequence
    case InsertReceipt(r, row) =>
      && r !in t.receipts && row.assertion in t.assertions && row.decision in t.decisions
      && forall q | q in t.receipts :: t.receipts[q].assertion != row.assertion
  }

  /** The tables with the statement's row written, whatever the triggers say. */
  function Written(t: Tables, s: Step): Tables {
    match s
    case InsertProposal(p, row) => t.(proposals := t.proposals[p := row])
    case UpdateProposal(p, row) => t.(proposals := t.proposals[p := row])
    case InsertAssertion(a, row) => t.(assertions := t.assertions[a := row])
    case UpdateAssertion(a, row) => t.(assertions := t.assertions[a := row])
    case InsertCase(c, row) => t.(cases := t.cases[c := row])
    case InsertDecision(d, row) => t.(decisions := t.decisions[d := row])
    case InsertReceipt(r, row) => t.(receipts := t.receipts[r := row])
  }

  function Effect(t: Tables, s: Step): Tables
    requires Admits(t, s)
  {
    Written(t, s)
  }

  // ----- the accepted-record check at commit -------------------------------------------------------

  /** The assertion `a` is exactly what the row of proposal `p` says it accepted. */
  predicate Backs(t: Tables, p: ProposalId, row: ProposalRow, a: AssertionRow) {
    && a.proposal == p
    && a.version == row.origin.version
    && a.kind == row.origin.kind
    && (a.state.AcceptedRecord? || a.state.RevalidationRequired?)
    && a.supersededBy.None?
  }

  /** It was decided in the proposal's own review case, the way the proposal's state says. */
  predicate DecidedFor(t: Tables, p: ProposalId, row: ProposalRow, a: AssertionRow) {
    && a.decision in t.decisions
    && var d := t.decisions[a.decision];
    && a.acceptedAt == d.decidedAt
    && d.review in t.cases && t.cases[d.review].proposal == p
    && (|| (row.state.Accepted? && d.disposition.Accept? && a.value == row.value)
        || (row.state.CorrectedAccepted? && d.disposition.CorrectAndAccept? && a.value.Some?))
  }

  predicate Receipted(t: Tables, id: AssertionId, a: AssertionRow) {
    exists r | r in t.receipts ::
      && t.receipts[r].assertion == id
      && t.receipts[r].decision == a.decision
      && t.receipts[r].issuedAt == a.acceptedAt
  }

  predicate Bound(t: Tables, p: ProposalId, row: ProposalRow) {
    && row.recordType == Some(ASSERTION)
    && row.recordId.Some? && row.recordId.value in t.assertions
    && var a := t.assertions[row.recordId.value];
    && Backs(t, p, row, a) && DecidedFor(t, p, row, a) && Receipted(t, row.recordId.value, a)
  }

  /** `an_accepted_record_names_an_assertion`, on the row image of one insert or update. */
  predicate RecordCheck(t: Tables, p: ProposalId, image: ProposalRow) {
    image.recordId.Some? ==> Bound(t, p, image)
  }

  // ----- the declared rules, column by column ------------------------------------------------------

  ghost predicate ProposalDeclared(row: ProposalRow) {
    && (row.state == Invalidated <==> row.quarantine != None)
    && (row.recordType != None <==> row.recordId != None)
  }

  ghost predicate AssertionDeclared(t: Tables, row: AssertionRow) {
    && (row.state == RevalidationRequired <==> row.revalidationAt != None)
    && row.proposal in t.proposals && row.decision in t.decisions
    && (row.supersededBy.Some? ==> row.supersededBy.value in t.assertions)
  }

  ghost predicate ProposalsDeclared(t: Tables) {
    forall p | p in t.proposals :: ProposalDeclared(t.proposals[p])
  }

  ghost predicate AssertionsDeclared(t: Tables) {
    && (forall a | a in t.assertions :: AssertionDeclared(t, t.assertions[a]))
    && (forall a, b | a in t.assertions && b in t.assertions && a != b ::
          && t.assertions[a].proposal != t.assertions[b].proposal
          && (t.assertions[a].supersededBy.Some? ==> t.assertions[a].supersededBy != t.assertions[b].supersededBy))
  }

  ghost predicate CasesDeclared(t: Tables) {
    && (forall c | c in t.cases :: t.cases[c].proposal in t.proposals)
    && (forall c, d | c in t.cases && d in t.cases && c != d :: t.cases[c].proposal != t.cases[d].proposal)
  }

  ghost predicate DecisionsDeclared(t: Tables) {
    && (forall d | d in t.decisions :: t.decisions[d].review in t.cases && t.decisions[d].sequence > 0)
    && (forall d, e | d in t.decisions && e in t.decisions && d != e ::
          t.decisions[d].review == t.decisions[e].review ==> t.decisions[d].sequence != t.decisions[e].sequence)
  }

  ghost predicate ReceiptsDeclared(t: Tables) {
    && (forall r | r in t.receipts :: t.receipts[r].assertion in t.assertions && t.receipts[r].decision in t.decisions)
    && (forall r, q | r in t.receipts && q in t.receipts && r != q ::
          t.receipts[r].assertion != t.receipts[q].assertion)
  }

  /** What the tables hold at any time: the CHECKs, the references and the unique keys. */
  ghost predicate Declared(t: Tables) {
    ProposalsDeclared(t) && AssertionsDeclared(t) && CasesDeclared(t) && DecisionsDeclared(t) && ReceiptsDeclared(t)
  }

  /** The states a proposal may be moved to. */
  function Next(s: ProposalState): set<ProposalState> {
    match s
    case Proposed => {NeedsReview, Rejected, Deferred, Unresolved, Accepted, CorrectedAccepted, Invalidated}
    case NeedsReview => {Rejected, Deferred, Unresolved, Accepted, CorrectedAccepted, Invalidated}
    case Rejected => {Invalidated}
    case Deferred => {Invalidated}
    case Unresolved => {Invalidated}
    case _ => {}
  }

  /** A move keeps the origin and the value; acceptance alone writes the record columns, invalidation alone the quarantine. */
  ghost predicate ProposalKeeps(was: ProposalRow, row: ProposalRow) {
    && row.state in Next(was.state)
    && row.origin == was.origin && row.value == was.value
    && (if row.state == Invalidated
        then was.quarantine == None && row.quarantine != None
        else row.quarantine == was.quarantine)
    && if row.state in {Accepted, CorrectedAccepted}
       then && was.recordType == None && was.recordId == None
            && row.recordType == Some("assertion") && row.recordId != None
       else row.recordId == was.recordId && row.recordType == was.recordType
  }

  /** An accepted record that is to be revalidated keeps every column but its state and that instant. */
  ghost predicate AssertionKeeps(was: AssertionRow, row: AssertionRow) {
    && was.state == AcceptedRecord && row.state == RevalidationRequired
    && was.revalidationAt == None && row.revalidationAt != None
    && row.version == was.version && row.proposal == was.proposal && row.decision == was.decision
    && row.kind == was.kind && row.value == was.value && row.supersededBy == was.supersededBy
    && row.acceptedAt == was.acceptedAt
  }

  ghost predicate ProposalsKept(t: Tables, u: Tables) {
    forall p | p in t.proposals ::
      p in u.proposals && (u.proposals[p] == t.proposals[p] || ProposalKeeps(t.proposals[p], u.proposals[p]))
  }

  ghost predicate AssertionsKept(t: Tables, u: Tables) {
    forall a | a in t.assertions ::
      a in u.assertions && (u.assertions[a] == t.assertions[a] || AssertionKeeps(t.assertions[a], u.assertions[a]))
  }

  ghost predicate FilingsKept(t: Tables, u: Tables) {
    && (forall c | c in t.cases :: c in u.cases && u.cases[c] == t.cases[c])
    && (forall d | d in t.decisions :: d in u.decisions && u.decisions[d] == t.decisions[d])
    && (forall r | r in t.receipts :: r in u.receipts && u.receipts[r] == t.receipts[r])
  }

  /** What a statement leaves of the rows that are there. */
  ghost predicate Keeps(t: Tables, u: Tables) {
    ProposalsKept(t, u) && AssertionsKept(t, u) && FilingsKept(t, u)
  }

  /** An INSERT finds its key unused; an UPDATE finds its row and changes it. */
  predicate Finds(t: Tables, s: Step) {
    match s
    case InsertProposal(p, _) => p !in t.proposals
    case UpdateProposal(p, row) => p in t.proposals && row != t.proposals[p]
    case InsertAssertion(a, _) => a !in t.assertions
    case UpdateAssertion(a, row) => a in t.assertions && row != t.assertions[a]
    case InsertCase(c, _) => c !in t.cases
    case InsertDecision(d, _) => d !in t.decisions
    case InsertReceipt(r, _) => r !in t.receipts
  }

  lemma MovesAreKept(was: ProposalRow, row: ProposalRow)
    ensures ProposalMoves(was, row) <==> ProposalKeeps(was, row)
  {
  }

  /** Nothing is deleted, so a table that a statement does not write keeps its rules and its rows. */
  lemma UnwrittenAssertionsStay(t: Tables, u: Tables)
    requires AssertionsDeclared(t) && u.assertions == t.assertions
    requires t.proposals.Keys <= u.proposals.Keys && t.decisions.Keys <= u.decisions.Keys
    ensures AssertionsDeclared(u) && AssertionsKept(t, u)
  {
    forall a | a in u.assertions ensures AssertionDeclared(u, u.assertions[a]) {
      assert AssertionDeclared(t, t.assertions[a]);
    }
  }

  lemma UnwrittenProposalsStay(t: Tables, u: Tables)
    requires ProposalsDeclared(t) && u.proposals == t.proposals
    ensures ProposalsDeclared(u) && ProposalsKept(t, u)
  {
  }

  lemma UnwrittenFilingsStay(t: Tables, u: Tables)
    requires CasesDeclared(t) && DecisionsDeclared(t) && ReceiptsDeclared(t)
    requires t.proposals.Keys <= u.proposals.Keys && t.assertions.Keys <= u.assertions.Keys
    requires u.cases == t.cases && u.decisions == t.decisions && u.receipts == t.receipts
    ensures CasesDeclared(u) && DecisionsDeclared(u) && ReceiptsDeclared(u) && FilingsKept(t, u)
  {
  }

  lemma InsertProposalAccepted(t: Tables, p: ProposalId, row: ProposalRow)
    requires Declared(t) && p !in t.proposals
    ensures ProposalsDeclared(t.(proposals := t.proposals[p := row])) <==> ProposalRowOk(row)
    ensures ProposalsKept(t, t.(proposals := t.proposals[p := row]))
  {
    assert t.proposals[p := row][p] == row;
  }

  lemma UpdateProposalAccepted(t: Tables, p: ProposalId, row: ProposalRow)
    requires Declared(t) && p in t.proposals && row != t.proposals[p]
    ensures var u := t.(proposals := t.proposals[p := row]);
            ProposalMoves(t.proposals[p], row) && ProposalRowOk(row) <==> ProposalsDeclared(u) && ProposalsKept(t, u)
  {
    var u := t.(proposals := t.proposals[p := row]);
    assert u.proposals[p] == row;
    MovesAreKept(t.proposals[p], row);
  }

  lemma ProposalStatementsAccepted(t: Tables, s: Step)
    requires Declared(t) && (s.InsertProposal? || s.UpdateProposal?)
    ensures Admits(t, s) <==> Finds(t, s) && Declared(Written(t, s)) && Keeps(t, Written(t, s))
  {
    var u := t.(proposals := t.proposals[s.proposal := s.proposalRow]);
    UnwrittenAssertionsStay(t, u);
    UnwrittenFilingsStay(t, u);
    if s.InsertProposal? && Finds(t, s) {
      InsertProposalAccepted(t, s.proposal, s.proposalRow);
    }
    if s.UpdateProposal? && Finds(t, s) {
      UpdateProposalAccepted(t, s.proposal, s.proposalRow);
    }
  }

  lemma InsertedAssertionDeclared(t: Tables, a: AssertionId, row: AssertionRow)
    requires AssertionsDeclared(t) && a !in t.assertions
    ensures var u := t.(assertions := t.assertions[a := row]);
            && (forall b | b in t.assertions :: AssertionDeclared(u, t.assertions[b]))
            && (AssertionDeclared(u, row)
                <==> && AssertionRowOk(row) && row.proposal in t.proposals && row.decision in t.decisions
                     && (row.supersededBy.Some? ==> row.supersededBy.value in t.assertions || row.supersededBy == Some(a)))
  {
    var u := t.(assertions := t.assertions[a := row]);
    forall b | b in t.assertions ensures AssertionDeclared(u, t.assertions[b]) {
      assert AssertionDeclared(t, t.assertions[b]);
    }
  }

  lemma InsertAssertionAccepted(t: Tables, a: AssertionId, row: AssertionRow)
    requires AssertionsDeclared(t) && a !in t.assertions
    ensures AssertionsDeclared(t.(assertions := t.assertions[a := row]))
            <==> AssertionRowOk(row) && AssertionKeysOk(t, a, row)
    ensures AssertionsKept(t, t.(assertions := t.assertions[a := row]))
  {
    var u := t.(assertions := t.assertions[a := row]);
    assert u.assertions[a] == row;
    assert forall b | b in t.assertions :: b in u.assertions && u.assertions[b] == t.assertions[b];
    InsertedAssertionDeclared(t, a, row);
  }

  lemma RevalidationIsKept(was: AssertionRow, row: AssertionRow)
    ensures AssertionMoves(was, row) <==> AssertionKeeps(was, row)
  {
  }

  lemma UpdatedAssertionDeclared(t: Tables, a: AssertionId, row: AssertionRow)
    requires AssertionsDeclared(t) && a in t.assertions && AssertionKeeps(t.assertions[a], row)
    ensures AssertionsDeclared(t.(assertions := t.assertions[a := row])) <==> AssertionRowOk(row)
  {
    var u := t.(assertions := t.assertions[a := row]);
    assert u.assertions[a] == row && AssertionDeclared(t, t.assertions[a]);
    assert AssertionDeclared(u, row) <==> AssertionRowOk(row);
    forall b | b in t.assertions && b != a ensures u.assertions[b] == t.assertions[b] && AssertionDeclared(u, u.assertions[b]) {
      assert AssertionDeclared(t, t.assertions[b]);
    }
  }

  lemma UpdatedAssertionKept(t: Tables, a: AssertionId, row: AssertionRow)
    requires a in t.assertions && row != t.assertions[a]
    ensures AssertionsKept(t, t.(assertions := t.assertions[a := row])) <==> AssertionKeeps(t.assertions[a], row)
  {
    assert t.assertions[a := row][a] == row;
  }

  lemma UpdateAssertionAccepted(t: Tables, a: AssertionId, row: AssertionRow)
    requires AssertionsDeclared(t) && a in t.assertions && row != t.assertions[a]
    ensures var u := t.(assertions := t.assertions[a := row]);
            AssertionMoves(t.assertions[a], row) && AssertionRowOk(row) <==> AssertionsDeclared(u) && AssertionsKept(t, u)
  {
    assert AssertionDeclared(t, t.assertions[a]);
    RevalidationIsKept(t.assertions[a], row);
    UpdatedAssertionKept(t, a, row);
    if AssertionKeeps(t.assertions[a], row) {
      UpdatedAssertionDeclared(t, a, row);
    }
  }

  lemma AssertionStatementsAccepted(t: Tables, s: Step)
    requires Declared(t) && (s.InsertAssertion? || s.UpdateAssertion?)
    ensures Admits(t, s) <==> Finds(t, s) && Declared(Written(t, s)) && Keeps(t, Written(t, s))
  {
    var u := t.(assertions := t.assertions[s.assertion := s.assertionRow]);
    UnwrittenProposalsStay(t, u);
    UnwrittenFilingsStay(t, u);
    if s.InsertAssertion? && Finds(t, s) {
      InsertAssertionAccepted(t, s.assertion, s.assertionRow);
    }
    if s.UpdateAssertion? && Finds(t, s) {
      UpdateAssertionAccepted(t, s.assertion, s.assertionRow);
    }
  }

  lemma InsertCaseAccepted(t: Tables, c: CaseId, row: CaseRow)
    requires CasesDeclared(t) && DecisionsDeclared(t) && ReceiptsDeclared(t) && c !in t.cases
    ensures var u := t.(cases := t.cases[c := row]);
            && DecisionsDeclared(u) && ReceiptsDeclared(u) && FilingsKept(t, u)
            && (CasesDeclared(u)
                <==> row.proposal in t.proposals && forall d | d in t.cases :: t.cases[d].proposal != row.proposal)
  {
    assert t.cases[c := row][c] == row;
  }

  lemma InsertDecisionAccepted(t: Tables, d: DecisionId, row: DecisionRow)
    requires CasesDeclared(t) && DecisionsDeclared(t) && ReceiptsDeclared(t) && d !in t.decisions
    ensures var u := t.(decisions := t.decisions[d := row]);
            && CasesDeclared(u) && ReceiptsDeclared(u) && FilingsKept(t, u)
            && (DecisionsDeclared(u)
                <==> && row.review in t.cases && row.sequence > 0
                     && forall e | e in t.decisions ::
                          t.decisions[e].review == row.review ==> t.decisions[e].sequence != row.sequence)
  {
    assert t.decisions[d := row][d] == row;
  }

  lemma InsertReceiptAccepted(t: Tables, r: ReceiptId, row: ReceiptRow)
    requires CasesDeclared(t) && DecisionsDeclared(t) && ReceiptsDeclared(t) && r !in t.receipts
    ensures var u := t.(receipts := t.receipts[r := row]);
            && CasesDeclared(u) && DecisionsDeclared(u) && FilingsKept(t, u)
            && (ReceiptsDeclared(u)
                <==> && row.assertion in t.assertions && row.decision in t.decisions
                     && forall q | q in t.receipts :: t.receipts[q].assertion != row.assertion)
  {
    assert t.receipts[r := row][r] == row;
  }

  lemma CaseStatementsAccepted(t: Tables, s: Step)
    requires Declared(t) && s.InsertCase?
    ensures Admits(t, s) <==> Finds(t, s) && Declared(Written(t, s)) && Keeps(t, Written(t, s))
  {
    var u := t.(cases := t.cases[s.review := s.caseRow]);
    UnwrittenProposalsStay(t, u);
    UnwrittenAssertionsStay(t, u);
    if Finds(t, s) {
      InsertCaseAccepted(t, s.review, s.caseRow);
    }
  }

  lemma DecisionStatementsAccepted(t: Tables, s: Step)
    requires Declared(t) && s.InsertDecision?
    ensures Admits(t, s) <==> Finds(t, s) && Declared(Written(t, s)) && Keeps(t, Written(t, s))
  {
    var u := t.(decisions := t.decisions[s.decision := s.decisionRow]);
    UnwrittenProposalsStay(t, u);
    UnwrittenAssertionsStay(t, u);
    if Finds(t, s) {
      InsertDecisionAccepted(t, s.decision, s.decisionRow);
    }
  }

  lemma ReceiptStatementsAccepted(t: Tables, s: Step)
    requires Declared(t) && s.InsertReceipt?
    ensures Admits(t, s) <==> Finds(t, s) && Declared(Written(t, s)) && Keeps(t, Written(t, s))
  {
    var u := t.(receipts := t.receipts[s.receipt := s.receiptRow]);
    UnwrittenProposalsStay(t, u);
    UnwrittenAssertionsStay(t, u);
    if Finds(t, s) {
      InsertReceiptAccepted(t, s.receipt, s.receiptRow);
    }
  }

  /** The guards accept exactly the statements after which the declared rules hold and the rows are kept. */
  lemma AcceptedIff(t: Tables, s: Step)
    requires Declared(t)
    ensures Admits(t, s) <==> Finds(t, s) && Declared(Written(t, s)) && Keeps(t, Written(t, s))
  {
    match s
    case InsertProposal(_, _) => ProposalStatementsAccepted(t, s);
    case UpdateProposal(_, _) => ProposalStatementsAccepted(t, s);
    case InsertAssertion(_, _) => AssertionStatementsAccepted(t, s);
    case UpdateAssertion(_, _) => AssertionStatementsAccepted(t, s);
    case InsertCase(_, _) => CaseStatementsAccepted(t, s);
    case InsertDecision(_, _) => DecisionStatementsAccepted(t, s);
    case InsertReceipt(_, _) => ReceiptStatementsAccepted(t, s);
  }

  /**
   The record that a proposal names, column by column: an assertion of this proposal,
   still accepted or due for revalidation and not superseded, that a decision of the
   proposal's own case accepted as it stood or as corrected, with a receipt of the instant.
   */
  ghost predicate RecordedAsDecided(t: Tables, p: ProposalId, row: ProposalRow) {
    && row.recordType == Some("assertion") && row.recordId.Some? && row.recordId.value in t.assertions
    && var a := t.assertions[row.recordId.value];
    && a.proposal == p && a.version == row.origin.version && a.kind == row.origin.kind
    && a.state in {AcceptedRecord, RevalidationRequired} && a.supersededBy == None
    && a.decision in t.decisions
    && var d := t.decisions[a.decision];
    && d.review in t.cases && t.cases[d.review].proposal == p
    && (row.state, d.disposition) in {(Accepted, Accept), (CorrectedAccepted, CorrectAndAccept)}
    && (if row.state == Accepted then a.value == row.value else a.value != None)
    && d.decidedAt == a.acceptedAt
    && exists r | r in t.receipts :: t.receipts[r] == ReceiptRow(row.recordId.value, a.decision, d.decidedAt)
  }

  lemma RecordCheckIff(t: Tables, p: ProposalId, row: ProposalRow)
    ensures RecordCheck(t, p, row) <==> row.recordId == None || RecordedAsDecided(t, p, row)
  {
    if RecordCheck(t, p, row) && row.recordId.Some? {
      var a := t.assertions[row.recordId.value];
      var r :| r in t.receipts && t.receipts[r].assertion == row.recordId.value
               && t.receipts[r].decision == a.decision && t.receipts[r].issuedAt == a.acceptedAt;
      assert t.receipts[r] == ReceiptRow(row.recordId.value, a.decision, t.decisions[a.decision].decidedAt);
    }
    if RecordedAsDecided(t, p, row) {
      var a := t.assertions[row.recordId.value];
      var r :| r in t.receipts
               && t.receipts[r] == ReceiptRow(row.recordId.value, a.decision, t.decisions[a.decision].decidedAt);
      assert Receipted(t, row.recordId.value, a);
    }
  }

  // ----- transactions -------------------------------------------------------------------------------

  type Image = (ProposalId, ProposalRow)

  /** Every insert and every update of a proposal queues its new row as it was then. */
  function Queued(s: Step): seq<Image> {
    match s
    case InsertProposal(p, row) => [(p, row)]
    case UpdateProposal(p, row) => [(p, row)]
    case _ => []
  }

  function Images(steps: seq<Step>): seq<Image> {
    if steps == [] then [] else Images(steps[..|steps| - 1]) + Queued(steps[|steps| - 1])
  }

  function Run(t: Tables, steps: seq<Step>): Option<Tables> {
    if steps == [] then Some(t)
    else
      var r := Run(t, steps[..|steps| - 1]);
      if r.Some? && Admits(r.value, steps[|steps| - 1]) then Some(Effect(r.value, steps[|steps| - 1])) else None
  }

  predicate Commits(t: Tables, steps: seq<Step>) {
    var r := Run(t, steps);
    r.Some? && forall e | e in Images(steps) :: RecordCheck(r.value, e.0, e.1)
  }

  function Transact(t: Tables, steps: seq<Step>): Tables {
    if Commits(t, steps) then Run(t, steps).value else t
  }

  /** The revision arrives over proposals that were written without it. */
  function Legacy(proposals: map<ProposalId, ProposalRow>): Tables {
    Tables(proposals, map[], map[], map[], map[])
  }

  function History(legacy: map<ProposalId, ProposalRow>, transactions: seq<seq<Step>>): Tables {
    if transactions == [] then Legacy(legacy)
    else
      var last := |transactions| - 1;
      Transact(History(legacy, transactions[..last]), transactions[last])
  }

  // ----- governed transitions strictly descend ------------------------------------------------------

  function Rank(s: ProposalState): nat {
    match s
    case Proposed => 3
    case NeedsReview => 2
    case Rejected => 1
    case Deferred => 1
    case Unresolved => 1
    case _ => 0
  }

  function Updates(steps: seq<Step>, p: ProposalId): nat {
    if steps == [] then 0
    else
      var s := steps[|steps| - 1];
      Updates(steps[..|steps| - 1], p) + if UpdatesProposal(s, p) then 1 else 0
  }

  function AssertionUpdates(steps: seq<Step>, a: AssertionId): nat {
    if steps == [] then 0
    else
      var s := steps[|steps| - 1];
      AssertionUpdates(steps[..|steps| - 1], a) + if s.UpdateAssertion? && s.assertion == a then 1 else 0
  }

  /** What every statement keeps of the rows that are already there. */
  ghost predicate Descends(t: Tables, u: Tables) {
    && (forall p | p in t.proposals :: p in u.proposals && ProposalDescends(t.proposals[p], u.proposals[p]))
    && (forall a | a in t.assertions :: a in u.assertions && AssertionDescends(t.assertions[a], u.assertions[a]))
    && (forall c | c in t.cases :: c in u.cases && u.cases[c] == t.cases[c])
    && (forall d | d in t.decisions :: d in u.decisions && u.decisions[d] == t.decisions[d])
    && (forall r | r in t.receipts :: r in u.receipts && u.receipts[r] == t.receipts[r])
  }

  predicate ProposalDescends(was: ProposalRow, row: ProposalRow) {
    row == was || (row.origin == was.origin && row.value == was.value && Rank(row.state) < Rank(was.state))
  }

  predicate AssertionDescends(was: AssertionRow, row: AssertionRow) {
    row == was || AssertionMoves(was, row)
  }

  lemma StepDescends(t: Tables, s: Step)
    requires Admits(t, s)
    ensures Descends(t, Effect(t, s))
  {
    match s
    case UpdateProposal(p, row) => assert ProposalDescends(t.proposals[p], row);
    case UpdateAssertion(a, row) => assert AssertionDescends(t.assertions[a], row);
    case _ =>
  }

  lemma DescentComposes(t: Tables, mid: Tables, u: Tables)
    requires Descends(t, mid) && Descends(mid, u)
    ensures Descends(t, u)
  {
    forall p | p in t.proposals ensures p in u.proposals && ProposalDescends(t.proposals[p], u.proposals[p]) {
      assert ProposalDescends(mid.proposals[p], u.proposals[p]);
    }
    forall a | a in t.assertions ensures a in u.assertions && AssertionDescends(t.assertions[a], u.assertions[a]) {
      assert AssertionDescends(mid.assertions[a], u.assertions[a]);
    }
  }

  lemma {:induction false} RunDescends(t: Tables, steps: seq<Step>)
    requires Run(t, steps).Some?
    ensures Descends(t, Run(t, steps).value)
  {
    if steps != [] {
      var mid := Run(t, steps[..|steps| - 1]).value;
      RunDescends(t, steps[..|steps| - 1]);
      StepDescends(mid, steps[|steps| - 1]);
      DescentComposes(t, mid, Run(t, steps).value);
    }
  }

  predicate UpdatesProposal(s: Step, p: ProposalId) {
    s.UpdateProposal? && s.proposal == p
  }

  lemma StepSpendsRank(t: Tables, s: Step, p: ProposalId)
    requires Admits(t, s)
    ensures var u := Effect(t, s);
            && (p in t.proposals ==> p in u.proposals)
            && (p in t.proposals && !UpdatesProposal(s, p) ==> u.proposals[p] == t.proposals[p])
            && (UpdatesProposal(s, p) ==>
                  p in t.proposals && Rank(u.proposals[p].state) < Rank(t.proposals[p].state))
  {
  }

  /** The rank a proposal has left to spend; one that is not there yet may start with 3. */
  function RankLeft(t: Tables, p: ProposalId): nat {
    if p in t.proposals then Rank(t.proposals[p].state) else 3
  }

  /** Each update of a proposal spends rank, so no proposal is ever updated more than three times. */
  lemma {:induction false} UpdatesSpendRank(t: Tables, steps: seq<Step>, p: ProposalId)
    requires Run(t, steps).Some?
    ensures RankLeft(Run(t, steps).value, p) + Updates(steps, p) <= RankLeft(t, p)
  {
    if steps != [] {
      UpdatesSpendRank(t, steps[..|steps| - 1], p);
      StepSpendsRank(Run(t, steps[..|steps| - 1]).value, steps[|steps| - 1], p);
    }
  }

  lemma {:induction false} AssertionsMoveOnce(t: Tables, steps: seq<Step>, a: AssertionId)
    requires Run(t, steps).Some?
    ensures var u := Run(t, steps).value;
            && AssertionUpdates(steps, a) <= 1
            && (AssertionUpdates(steps, a) == 1 ==> a in u.assertions && u.assertions[a].state.RevalidationRequired?)
            && (a in t.assertions && !t.assertions[a].state.AcceptedRecord? ==> AssertionUpdates(steps, a) == 0)
  {
    if steps != [] {
      var init := steps[..|steps| - 1];
      AssertionsMoveOnce(t, init, a);
      RunDescends(t, init);
    }
  }

  /** The statements that committed, in order. */
  function Committed(legacy: map<ProposalId, ProposalRow>, transactions: seq<seq<Step>>): seq<Step> {
    if transactions == [] then []
    else
      var last := |transactions| - 1;
      var t := History(legacy, transactions[..last]);
      Committed(legacy, transactions[..last]) + if Commits(t, transactions[last]) then transactions[last] else []
  }

  lemma {:induction false} RunsCompose(t: Tables, first: seq<Step>, then_: seq<Step>)
    requires Run(t, first).Some?
    ensures Run(t, first + then_) == Run(Run(t, first).value, then_)
  {
    if then_ == [] {
      assert first + then_ == first;
    } else {
      var last := |then_| - 1;
      RunsCompose(t, first, then_[..last]);
      assert (first + then_)[..|first| + last] == first + then_[..last];
      assert (first + then_)[|first| + last] == then_[last];
    }
  }

  lemma {:induction false} HistoryIsOneRun(legacy: map<ProposalId, ProposalRow>, transactions: seq<seq<Step>>)
    ensures Run(Legacy(legacy), Committed(legacy, transactions)) == Some(History(legacy, transactions))
  {
    if transactions != [] {
      var last := |transactions| - 1;
      HistoryIsOneRun(legacy, transactions[..last]);
      var t := History(legacy, transactions[..last]);
      if Commits(t, transactions[last]) {
        RunsCompose(Legacy(legacy), Committed(legacy, transactions[..last]), transactions[last]);
      } else {
        assert Committed(legacy, transactions[..last]) + [] == Committed(legacy, transactions[..last]);
      }
    }
  }

  /** The statements that committed since `before`, in order. */
  function Later(legacy: map<ProposalId, ProposalRow>, before: seq<seq<Step>>, after: seq<seq<Step>>): seq<Step> {
    if after == [] then []
    else
      var last := |after| - 1;
      var t := History(legacy, before + after[..last]);
      Later(legacy, before, after[..last]) + if Commits(t, after[last]) then after[last] else []
  }

  lemma HistoryThen(legacy: map<ProposalId, ProposalRow>, transactions: seq<seq<Step>>, steps: seq<Step>)
    ensures History(legacy, transactions + [steps]) == Transact(History(legacy, transactions), steps)
    ensures Committed(legacy, transactions + [steps])
            == Committed(legacy, transactions) + if Commits(History(legacy, transactions), steps) then steps else []
  {
    assert (transactions + [steps])[..|transactions|] == transactions;
  }

  lemma LaterThen(legacy: map<ProposalId, ProposalRow>, before: seq<seq<Step>>, init: seq<seq<Step>>, steps: seq<Step>)
    ensures Later(legacy, before, init + [steps])
            == Later(legacy, before, init) + if Commits(History(legacy, before + init), steps) then steps else []
  {
    assert (init + [steps])[..|init|] == init;
  }

  lemma {:induction false} HistoryGoesOn(legacy: map<ProposalId, ProposalRow>, before: seq<seq<Step>>, after: seq<seq<Step>>)
    ensures Run(History(legacy, before), Later(legacy, before, after)) == Some(History(legacy, before + after))
    decreases |after|
  {
    if after == [] {
      assert before + after == before;
    } else {
      var init, steps := after[..|after| - 1], after[|after| - 1];
      HistoryGoesOn(legacy, before, init);
      assert after == init + [steps] && before + after == (before + init) + [steps];
      HistoryThen(legacy, before + init, steps);
      LaterThen(legacy, before, init, steps);
      LaterRuns(History(legacy, before), Later(legacy, before, init), History(legacy, before + init), steps);
    }
  }

  lemma LaterRuns(t: Tables, first: seq<Step>, mid: Tables, steps: seq<Step>)
    requires Run(t, first) == Some(mid)
    ensures Run(t, first + if Commits(mid, steps) then steps else []) == Some(Transact(mid, steps))
  {
    if Commits(mid, steps) {
      RunsCompose(t, first, steps);
    } else {
      assert first + [] == first;
    }
  }

  lemma {:induction false} CommittedGoesOn(legacy: map<ProposalId, ProposalRow>, before: seq<seq<Step>>, after: seq<seq<Step>>)
    ensures Committed(legacy, before + after) == Committed(legacy, before) + Later(legacy, before, after)
    decreases |after|
  {
    if after == [] {
      assert before + after == before;
    } else {
      var init, steps := after[..|after| - 1], after[|after| - 1];
      CommittedGoesOn(legacy, before, init);
      assert after == init + [steps] && before + after == (before + init) + [steps];
      HistoryThen(legacy, before + init, steps);
      LaterThen(legacy, before, init, steps);
      Associates(Committed(legacy, before), Later(legacy, before, init),
                 if Commits(History(legacy, before + init), steps) then steps else []);
    }
  }

  lemma Associates(x: seq<Step>, y: seq<Step>, z: seq<Step>)
    ensures (x + y) + z == x + (y + z)
  {
  }

  lemma {:induction false} UpdatesAdd(first: seq<Step>, then_: seq<Step>, p: ProposalId)
    ensures Updates(first + then_, p) == Updates(first, p) + Updates(then_, p)
  {
    if then_ == [] {
      assert first + then_ == first;
    } else {
      var init, s := then_[..|then_| - 1], then_[|then_| - 1];
      UpdatesAdd(first, init, p);
      assert first + then_ == (first + init) + [s];
      UpdatesThen(first + init, s, p);
    }
  }

  lemma UpdatesThen(steps: seq<Step>, s: Step, p: ProposalId)
    ensures Updates(steps + [s], p) == Updates(steps, p) + if UpdatesProposal(s, p) then 1 else 0
  {
    assert (steps + [s])[..|steps|] == steps;
  }

  lemma UpdatesFrom(legacy: map<ProposalId, ProposalRow>, before: seq<seq<Step>>, after: seq<seq<Step>>, p: ProposalId)
    ensures Updates(Committed(legacy, before + after), p)
            <= Updates(Committed(legacy, before), p) + RankLeft(History(legacy, before), p)
    ensures Updates(Committed(legacy, before), p) <= Updates(Committed(legacy, before + after), p)
  {
    HistoryGoesOn(legacy, before, after);
    CommittedGoesOn(legacy, before, after);
    UpdatesSpendRank(History(legacy, before), Later(legacy, before, after), p);
    UpdatesAdd(Committed(legacy, before), Later(legacy, before, after), p);
  }

  /**
   Over a whole history a proposal is updated at most three times and an assertion at
   most once. From any point on, a proposal is updated at most as often as its state
   there leaves room for, and never again once it is accepted, invalidated or superseded.
   */
  lemma UpdatesAreFew(
      legacy: map<ProposalId, ProposalRow>, before: seq<seq<Step>>, after: seq<seq<Step>>, p: ProposalId, a: AssertionId)
    ensures Updates(Committed(legacy, before + after), p) <= 3
    ensures AssertionUpdates(Committed(legacy, before + after), a) <= 1
    ensures p in History(legacy, before).proposals ==>
              var s := History(legacy, before).proposals[p].state;
              && Updates(Committed(legacy, before + after), p) <= Updates(Committed(legacy, before), p) + Rank(s)
              && (IsAccepted(s) || s.Invalidated? || s.Superseded? ==>
                    Updates(Committed(legacy, before + after), p) == Updates(Committed(legacy, before), p))
  {
    HistoryIsOneRun(legacy, before + after);
    UpdatesSpendRank(Legacy(legacy), Committed(legacy, before + after), p);
    AssertionsMoveOnce(Legacy(legacy), Committed(legacy, before + after), a);
    UpdatesFrom(legacy, before, after, p);
  }

  /** Whatever happens later, a proposal keeps its origin and value, and a settled one keeps its whole row. */
  lemma LineageIsKept(legacy: map<ProposalId, ProposalRow>, before: seq<seq<Step>>, after: seq<seq<Step>>, p: ProposalId)
    requires p in History(legacy, before).proposals
    ensures var was := History(legacy, before).proposals[p];
            && p in History(legacy, before + after).proposals
            && var row := History(legacy, before + after).proposals[p];
            && row.origin == was.origin && row.value == was.value
            && (row != was ==> Rank(row.state) < Rank(was.state))
            && (IsAccepted(was.state) || was.state.Invalidated? || was.state.Superseded? ==> row == was)
  {
    HistoryGoesOn(legacy, before, after);
    RunDescends(History(legacy, before), Later(legacy, before, after));
  }

  // ----- the binding ------------------------------------------------------------------------------------

  /** A binding stands whatever statements follow it. */
  lemma BoundStands(t: Tables, u: Tables, p: ProposalId, row: ProposalRow)
    requires Descends(t, u) && Bound(t, p, row)
    ensures Bound(u, p, row)
  {
    var id := row.recordId.value;
    var was, a := t.assertions[id], u.assertions[id];
    assert AssertionDescends(was, a);
    assert t.decisions[was.decision] == u.decisions[a.decision];
    var r :| r in t.receipts
             && t.receipts[r].assertion == id
             && t.receipts[r].decision == was.decision
             && t.receipts[r].issuedAt == was.acceptedAt;
    assert r in u.receipts && u.receipts[r] == t.receipts[r];
    assert Receipted(u, id, a);
  }

  lemma {:induction false} TouchedRowIsQueued(t: Tables, steps: seq<Step>, p: ProposalId)
    requires Run(t, steps).Some?
    requires p in Run(t, steps).value.proposals
    ensures (p in t.proposals && Run(t, steps).value.proposals[p] == t.proposals[p])
            || (p, Run(t, steps).value.proposals[p]) in Images(steps)
  {
    if steps != [] {
      var mid := Run(t, steps[..|steps| - 1]).value;
      if p in mid.proposals {
        TouchedRowIsQueued(t, steps[..|steps| - 1], p);
      }
    }
  }

  /** Every queued image is of a row that is still there, changed only downwards. */
  lemma {:induction false} ImagesDescend(t: Tables, steps: seq<Step>, e: Image)
    requires Run(t, steps).Some? && e in Images(steps)
    ensures var u := Run(t, steps).value;
            && e.0 in u.proposals
            && (e.1.recordId.Some? ==> u.proposals[e.0].recordId.Some?)
            && (e.1 == u.proposals[e.0] || Rank(u.proposals[e.0].state) < Rank(e.1.state))
            && (e.1.recordId.Some? && e.1 != u.proposals[e.0] ==> !IsAccepted(u.proposals[e.0].state))
  {
    var init := steps[..|steps| - 1];
    if e in Images(init) {
      ImagesDescend(t, init, e);
    }
  }

  /** Some statement inserts the proposal or updates it. */
  ghost predicate Touched(steps: seq<Step>, p: ProposalId) {
    exists s | s in steps :: (s.InsertProposal? || s.UpdateProposal?) && s.proposal == p
  }

  lemma ImagesThen(steps: seq<Step>, s: Step)
    ensures Images(steps + [s]) == Images(steps) + Queued(s)
  {
    assert (steps + [s])[..|steps|] == steps;
  }

  lemma {:induction false} ImagesAreTouched(steps: seq<Step>, e: Image)
    requires e in Images(steps)
    ensures Touched(steps, e.0)
  {
    var init, s := steps[..|steps| - 1], steps[|steps| - 1];
    if e in Images(init) {
      ImagesAreTouched(init, e);
      var w :| w in init && (w.InsertProposal? || w.UpdateProposal?) && w.proposal == e.0;
      assert w in steps;
    } else {
      assert s in steps;
    }
  }

  /** Checking the queued images, some of them stale, decides as checking the rows they became. */
  lemma ImagesDecideAsRows(t: Tables, steps: seq<Step>)
    requires Run(t, steps).Some?
    ensures var u := Run(t, steps).value;
            Commits(t, steps)
            <==> forall p | p in u.proposals && Touched(steps, p) :: RecordCheck(u, p, u.proposals[p])
  {
    var u := Run(t, steps).value;
    if Commits(t, steps) {
      forall p | p in u.proposals && Touched(steps, p) ensures RecordCheck(u, p, u.proposals[p]) {
        TouchedImageIsLast(t, steps, p);
        assert RecordCheck(u, p, u.proposals[p]);
      }
    }
    if forall p | p in u.proposals && Touched(steps, p) :: RecordCheck(u, p, u.proposals[p]) {
      forall e | e in Images(steps) ensures RecordCheck(u, e.0, e.1) {
        ImagesDescend(t, steps, e);
        ImagesAreTouched(steps, e);
      }
    }
  }

  lemma {:induction false} TouchedImageIsLast(t: Tables, steps: seq<Step>, p: ProposalId)
    requires Run(t, steps).Some? && Touched(steps, p)
    ensures p in Run(t, steps).value.proposals
    ensures (p, Run(t, steps).value.proposals[p]) in Images(steps)
  {
    var init, s := steps[..|steps| - 1], steps[|steps| - 1];
    var mid := Run(t, init).value;
    StepSpendsRank(mid, s, p);
    if (s.InsertProposal? || s.UpdateProposal?) && s.proposal == p {
      assert Queued(s) == [(p, Effect(mid, s).proposals[p])];
    } else {
      var w :| w in steps && (w.InsertProposal? || w.UpdateProposal?) && w.proposal == p;
      assert w in init;
      TouchedImageIsLast(t, init, p);
    }
  }

  /** A commit succeeds exactly when each proposal written in it that names a record names the one that was decided. */
  lemma CommitsIff(t: Tables, steps: seq<Step>)
    requires Run(t, steps).Some?
    ensures var u := Run(t, steps).value;
            Commits(t, steps)
            <==> forall p | p in u.proposals && Touched(steps, p) && u.proposals[p].recordId.Some? ::
                   RecordedAsDecided(u, p, u.proposals[p])
  {
    var u := Run(t, steps).value;
    ImagesDecideAsRows(t, steps);
    forall p | p in u.proposals
      ensures RecordCheck(u, p, u.proposals[p])
              <==> u.proposals[p].recordId.None? || RecordedAsDecided(u, p, u.proposals[p])
    {
      RecordCheckIff(u, p, u.proposals[p]);
    }
  }

  lemma TouchedBefore(first: seq<Step>, then_: seq<Step>, p: ProposalId)
    requires Touched(first + then_, p) && !Touched(then_, p)
    ensures Touched(first, p)
  {
    var w :| w in first + then_ && (w.InsertProposal? || w.UpdateProposal?) && w.proposal == p;
    assert w in first;
  }

  /** A proposal that any committed statement has touched is bound to the record it names, if it names one. */
  lemma {:induction false} TouchedIsBound(legacy: map<ProposalId, ProposalRow>, transactions: seq<seq<Step>>, p: ProposalId)
    requires Touched(Committed(legacy, transactions), p)
    ensures var t := History(legacy, transactions); p in t.proposals && RecordCheck(t, p, t.proposals[p])
  {
    var last := |transactions| - 1;
    var t, steps := History(legacy, transactions[..last]), transactions[last];
    if !Commits(t, steps) {
      assert Committed(legacy, transactions) == Committed(legacy, transactions[..last]);
      TouchedIsBound(legacy, transactions[..last], p);
    } else if Touched(steps, p) {
      ImagesDecideAsRows(t, steps);
      TouchedImageIsLast(t, steps, p);
    } else {
      TouchedBefore(Committed(legacy, transactions[..last]), steps, p);
      TouchedIsBound(legacy, transactions[..last], p);
      RunDescends(t, steps);
      TouchedRowIsQueued(t, steps, p);
      if t.proposals[p].recordId.Some? {
        BoundStands(t, Run(t, steps).value, p, t.proposals[p]);
      }
    }
  }

  /**
   Wherever a history has led, a proposal that a committed statement has touched names no
   record or the record that was decided; one that none has touched is as the revision found it.
   */
  lemma BindingIsKept(legacy: map<ProposalId, ProposalRow>, transactions: seq<seq<Step>>, p: ProposalId)
    requires p in History(legacy, transactions).proposals
    ensures var t := History(legacy, transactions);
            if Touched(Committed(legacy, transactions), p)
            then t.proposals[p].recordId == None || RecordedAsDecided(t, p, t.proposals[p])
            else p in legacy && t.proposals[p] == legacy[p]
  {
    var t := History(legacy, transactions);
    if Touched(Committed(legacy, transactions), p) {
      TouchedIsBound(legacy, transactions, p);
      RecordCheckIff(t, p, t.proposals[p]);
    } else {
      HistoryIsOneRun(legacy, transactions);
      UntouchedStays(Legacy(legacy), Committed(legacy, transactions), p);
    }
  }

  lemma UntouchedStays(t: Tables, steps: seq<Step>, p: ProposalId)
    requires Run(t, steps).Some? && !Touched(steps, p) && p in Run(t, steps).value.proposals
    ensures p in t.proposals && Run(t, steps).value.proposals[p] == t.proposals[p]
  {
    TouchedRowIsQueued(t, steps, p);
    if (p, Run(t, steps).value.proposals[p]) in Images(steps) {
      ImagesAreTouched(steps, (p, Run(t, steps).value.proposals[p]));
    }
  }

  /** Once the record that was decided is named, it stays named and stays so through every later transaction. */
  lemma BindingIsFinal(legacy: map<ProposalId, ProposalRow>, before: seq<seq<Step>>, after: seq<seq<Step>>, p: ProposalId)
    requires p in History(legacy, before).proposals
    requires RecordedAsDecided(History(legacy, before), p, History(legacy, before).proposals[p])
    ensures var u := History(legacy, before + after);
            && p in u.proposals && u.proposals[p] == History(legacy, before).proposals[p]
            && RecordedAsDecided(u, p, u.proposals[p])
  {
    LineageIsKept(legacy, before, after, p);
    HistoryGoesOn(legacy, before, after);
    var t := History(legacy, before);
    RunDescends(t, Later(legacy, before, after));
    RecordCheckIff(t, p, t.proposals[p]);
    BoundStands(t, History(legacy, before + after), p, t.proposals[p]);
    RecordCheckIff(History(legacy, before + after), p, t.proposals[p]);
  }

  /** The two proposals name one record. */
  predicate Share(t: Tables, p: ProposalId, q: ProposalId) {
    && p in t.proposals && q in t.proposals && p != q
    && t.proposals[p].recordId.Some? && t.proposals[q].recordId == t.proposals[p].recordId
  }

  /**
   When two proposals name one record, one of them is a row from before the revision
   that nothing has touched since; two rows that were touched never share.
   */
  lemma RecordsAreNotShared(legacy: map<ProposalId, ProposalRow>, transactions: seq<seq<Step>>, p: ProposalId, q: ProposalId)
    requires Share(History(legacy, transactions), p, q)
    ensures var t := History(legacy, transactions);
            || (p in legacy && t.proposals[p] == legacy[p] && !Touched(Committed(legacy, transactions), p))
            || (q in legacy && t.proposals[q] == legacy[q] && !Touched(Committed(legacy, transactions), q))
  {
    BindingIsKept(legacy, transactions, p);
    BindingIsKept(legacy, transactions, q);
    if Touched(Committed(legacy, transactions), p) && Touched(Committed(legacy, transactions), q) {
      assert false;
    }
  }

  // ----- acceptance is reached from anywhere --------------------------------------------------------------

  lemma {:induction false} RunKeepsDeclared(t: Tables, steps: seq<Step>)
    requires Declared(t) && Run(t, steps).Some?
    ensures Declared(Run(t, steps).value)
  {
    if steps != [] {
      RunKeepsDeclared(t, steps[..|steps| - 1]);
      AcceptedIff(Run(t, steps[..|steps| - 1]).value, steps[|steps| - 1]);
    }
  }

  lemma HistoryIsDeclared(legacy: map<ProposalId, ProposalRow>, transactions: seq<seq<Step>>)
    requires forall l | l in legacy :: ProposalDeclared(legacy[l])
    ensures Declared(History(legacy, transactions))
  {
    HistoryIsOneRun(legacy, transactions);
    RunKeepsDeclared(Legacy(legacy), Committed(legacy, transactions));
  }

  /** The identifiers under which one acceptance is filed, its instant, and the corrected value if there is one. */
  datatype Filing = Filing(
    assertion: AssertionId, review: CaseId, decision: DecisionId, sequence: nat, receipt: ReceiptId, at: int,
    correction: Option<string>)

  /** `p` is open for review and nothing has been recorded from it. */
  predicate Acceptable(t: Tables, p: ProposalId) {
    && p in t.proposals && Open(t.proposals[p].state) && t.proposals[p].recordId.None?
    && forall b | b in t.assertions :: t.assertions[b].proposal != p
  }

  /** The filing's identifiers are unused, but for the proposal's own case when it has one. */
  predicate Fresh(t: Tables, p: ProposalId, f: Filing) {
    && f.assertion !in t.assertions && f.decision !in t.decisions && f.receipt !in t.receipts
    && (if f.review in t.cases then t.cases[f.review] == CaseRow(p)
        else forall c | c in t.cases :: t.cases[c].proposal != p)
    && f.sequence >= 1
    && forall e | e in t.decisions :: t.decisions[e].review != f.review || t.decisions[e].sequence != f.sequence
  }

  function AcceptedRow(row: ProposalRow, f: Filing): ProposalRow {
    row.(state := if f.correction.Some? then CorrectedAccepted else Accepted,
         recordType := Some("assertion"), recordId := Some(f.assertion))
  }

  function Ruling(f: Filing): DecisionRow {
    DecisionRow(f.review, f.sequence, if f.correction.Some? then CorrectAndAccept else Accept, f.at)
  }

  function RecordOf(p: ProposalId, row: ProposalRow, f: Filing): AssertionRow {
    AssertionRow(row.origin.version, p, f.decision, row.origin.kind, AcceptedRecord,
                 if f.correction.Some? then f.correction else row.value, None, f.at, None)
  }

  /** The tables with the acceptance of `p` filed in them, and nothing else changed. */
  function FiledFor(t: Tables, p: ProposalId, f: Filing): Tables
    requires p in t.proposals
  {
    Tables(
      t.proposals,
      t.assertions[f.assertion := RecordOf(p, t.proposals[p], f)],
      t.cases[f.review := CaseRow(p)],
      t.decisions[f.decision := Ruling(f)],
      t.receipts[f.receipt := ReceiptRow(f.assertion, f.decision, f.at)])
  }

  function AcceptedAs(t: Tables, p: ProposalId, f: Filing): Tables
    requires p in t.proposals
  {
    FiledFor(t, p, f).(proposals := t.proposals[p := AcceptedRow(t.proposals[p], f)])
  }

  /** The acceptance, as it stood or as corrected, names the record that was decided. */
  lemma AcceptanceBinds(t: Tables, p: ProposalId, f: Filing)
    requires p in t.proposals
    ensures RecordedAsDecided(AcceptedAs(t, p, f), p, AcceptedRow(t.proposals[p], f))
    ensures Bound(AcceptedAs(t, p, f), p, AcceptedRow(t.proposals[p], f))
  {
    var u := AcceptedAs(t, p, f);
    assert u.receipts[f.receipt] == ReceiptRow(f.assertion, f.decision, f.at);
    RecordCheckIff(u, p, AcceptedRow(t.proposals[p], f));
  }

  lemma RunThen(t: Tables, steps: seq<Step>, s: Step)
    ensures Run(t, steps + [s]) ==
            (var r := Run(t, steps); if r.Some? && Admits(r.value, s) then Some(Effect(r.value, s)) else None)
  {
    assert (steps + [s])[..|steps|] == steps;
  }

  lemma StepTo(t: Tables, steps: seq<Step>, mid: Tables, s: Step, next: Tables)
    requires Run(t, steps) == Some(mid) && Admits(mid, s) && Effect(mid, s) == next
    ensures Run(t, steps + [s]) == Some(next) && Images(steps + [s]) == Images(steps) + Queued(s)
  {
    RunThen(t, steps, s);
    ImagesThen(steps, s);
  }

  lemma CaseOpens(t: Tables, p: ProposalId, f: Filing) returns (steps: seq<Step>)
    requires Acceptable(t, p) && Fresh(t, p, f)
    ensures Run(t, steps) == Some(t.(cases := t.cases[f.review := CaseRow(p)])) && Images(steps) == []
  {
    if f.review in t.cases {
      steps := [];
      assert t.cases[f.review := CaseRow(p)] == t.cases;
    } else {
      steps := [] + [InsertCase(f.review, CaseRow(p))];
      StepTo(t, [], t, InsertCase(f.review, CaseRow(p)), t.(cases := t.cases[f.review := CaseRow(p)]));
    }
  }

  lemma FilingRuns(t: Tables, p: ProposalId, f: Filing) returns (steps: seq<Step>)
    requires Declared(t) && Acceptable(t, p) && Fresh(t, p, f)
    ensures Run(t, steps) == Some(FiledFor(t, p, f)) && Images(steps) == []
  {
    var u := FiledFor(t, p, f);
    var begun := CaseOpens(t, p, f);
    var t1 := t.(cases := u.cases);
    var t2 := t1.(decisions := u.decisions);
    var t3 := t2.(assertions := u.assertions);
    var s1 := InsertDecision(f.decision, Ruling(f));
    var s2 := InsertAssertion(f.assertion, RecordOf(p, t.proposals[p], f));
    var s3 := InsertReceipt(f.receipt, ReceiptRow(f.assertion, f.decision, f.at));
    StepTo(t, begun, t1, s1, t2);
    StepTo(t, begun + [s1], t2, s2, t3);
    StepTo(t, begun + [s1] + [s2], t3, s3, u);
    steps := begun + [s1] + [s2] + [s3];
  }

  lemma AcceptanceRuns(t: Tables, p: ProposalId, f: Filing) returns (steps: seq<Step>)
    requires Declared(t) && Acceptable(t, p) && Fresh(t, p, f)
    ensures Commits(t, steps) && Run(t, steps) == Some(AcceptedAs(t, p, f))
  {
    var filing := FilingRuns(t, p, f);
    var s := UpdateProposal(p, AcceptedRow(t.proposals[p], f));
    assert ProposalDeclared(t.proposals[p]);
    StepTo(t, filing, FiledFor(t, p, f), s, AcceptedAs(t, p, f));
    AcceptanceBinds(t, p, f);
    steps := filing + [s];
  }

  /**
   Wherever a history has led, a proposal that is open and unrecorded can be accepted, with
   its own value or a corrected one, in one transaction that files the whole record and leaves every other row as it was.
   */
  lemma AcceptanceCommits(legacy: map<ProposalId, ProposalRow>, transactions: seq<seq<Step>>, p: ProposalId, f: Filing)
    requires forall l | l in legacy :: ProposalDeclared(legacy[l])
    requires Acceptable(History(legacy, transactions), p) && Fresh(History(legacy, transactions), p, f)
    ensures var t := History(legacy, transactions);
            && RecordedAsDecided(AcceptedAs(t, p, f), p, AcceptedRow(t.proposals[p], f))
            && exists steps :: Commits(t, steps) && History(legacy, transactions + [steps]) == AcceptedAs(t, p, f)
  {
    var t := History(legacy, transactions);
    HistoryIsDeclared(legacy, transactions);
    AcceptanceBinds(t, p, f);
    var steps := AcceptanceRuns(t, p, f);
    HistoryThen(legacy, transactions, steps);
  }

  /** A number that none of these identifiers reaches. */
  ghost function Unreached(used: set<ProposalId>): (n: nat)
    ensures forall p | p in used :: p.n < n
    decreases |used|
  {
    if used == {} then 0
    else
      var k :| k in used;
      var n := Unreached(used - {k});
      if k.n < n then n else k.n + 1
  }

  lemma ProposingCommits(legacy: map<ProposalId, ProposalRow>, p: ProposalId, row: ProposalRow)
    requires p !in legacy && ProposalDeclared(row) && row.recordId.None?
    ensures History(legacy, [] + [[] + [InsertProposal(p, row)]]) == Legacy(legacy[p := row])
  {
    var t, s := Legacy(legacy), InsertProposal(p, row);
    StepTo(t, [], t, s, Legacy(legacy[p := row]));
    HistoryThen(legacy, [], [] + [s]);
  }

  /** A row older than the revision shares its record once a proposal made since is accepted under its name. */
  lemma LegacyRowsAreShared(legacy: map<ProposalId, ProposalRow>, l: ProposalId)
    requires forall q | q in legacy :: ProposalDeclared(legacy[q])
    requires l in legacy && legacy[l].recordId.Some?
    ensures exists transactions, p :: Share(History(legacy, transactions), p, l)
  {
    var p := Proposal(Unreached(legacy.Keys));
    assert p !in legacy.Keys;
    var row := ProposalRow(Origin(Version(0), TaskType, "", 0), Proposed, None, None, None, None);
    var f := Filing(legacy[l].recordId.value, Case(0), Decision(0), 1, Receipt(0), 0, None);
    var before := [] + [[] + [InsertProposal(p, row)]];
    ProposingCommits(legacy, p, row);
    var t := History(legacy, before);
    AcceptanceCommits(legacy, before, p, f);
    var steps :| Commits(t, steps) && History(legacy, before + [steps]) == AcceptedAs(t, p, f);
    assert Share(History(legacy, before + [steps]), p, l);
  }

  /** Two proposals can come to name one record exactly when a row older than the revision names one. */
  lemma SharingIff(legacy: map<ProposalId, ProposalRow>)
    requires forall l | l in legacy :: ProposalDeclared(legacy[l])
    ensures (exists transactions, p, q :: Share(History(legacy, transactions), p, q))
            <==> exists l | l in legacy :: legacy[l].recordId.Some?
  {
    if transactions, p, q :| Share(History(legacy, transactions), p, q) {
      RecordsAreNotShared(legacy, transactions, p, q);
    }
    if l :| l in legacy && legacy[l].recordId.Some? {
      LegacyRowsAreShared(legacy, l);
    }
  }

  /** No image that the statements queue names a record. */
  ghost predicate Recordless(steps: seq<Step>) {
    forall e | e in Images(steps) :: e.1.recordId.None?
  }

  lemma UpdateTo(t: Tables, p: ProposalId, was: ProposalRow, row: ProposalRow, steps: seq<Step>)
    requires p in t.proposals && Run(t, steps) == Some(t.(proposals := t.proposals[p := was]))
    requires ProposalMoves(was, row) && ProposalRowOk(row) && row.recordId.None? && Recordless(steps)
    ensures var after := steps + [UpdateProposal(p, row)];
            && Run(t, after) == Some(t.(proposals := t.proposals[p := row]))
            && Recordless(after) && Updates(after, p) == Updates(steps, p) + 1
  {
    var mid, next := t.(proposals := t.proposals[p := was]), t.(proposals := t.proposals[p := row]);
    assert mid.proposals[p := row] == next.proposals;
    StepTo(t, steps, mid, UpdateProposal(p, row), next);
    UpdatesThen(steps, UpdateProposal(p, row), p);
  }

  lemma NothingYet(t: Tables, p: ProposalId)
    requires p in t.proposals
    ensures Run(t, []) == Some(t.(proposals := t.proposals[p := t.proposals[p]]))
    ensures Recordless([]) && Updates([], p) == 0
  {
    assert t.proposals[p := t.proposals[p]] == t.proposals;
  }

  lemma ThreeUpdatesRun(t: Tables, p: ProposalId, row1: ProposalRow, row2: ProposalRow, row3: ProposalRow)
    returns (steps: seq<Step>)
    requires p in t.proposals
    requires ProposalMoves(t.proposals[p], row1) && ProposalMoves(row1, row2) && ProposalMoves(row2, row3)
    requires ProposalRowOk(row1) && ProposalRowOk(row2) && ProposalRowOk(row3)
    requires row1.recordId.None? && row2.recordId.None? && row3.recordId.None?
    ensures Commits(t, steps) && Updates(steps, p) == 3
  {
    NothingYet(t, p);
    UpdateTo(t, p, t.proposals[p], row1, []);
    var once := [] + [UpdateProposal(p, row1)];
    UpdateTo(t, p, row1, row2, once);
    var twice := once + [UpdateProposal(p, row2)];
    UpdateTo(t, p, row2, row3, twice);
    steps := twice + [UpdateProposal(p, row3)];
    RecordlessCommits(t, steps);
  }

  lemma RecordlessCommits(t: Tables, steps: seq<Step>)
    requires Run(t, steps).Some? && Recordless(steps)
    ensures Commits(t, steps)
  {
  }

  /** And three updates are possible wherever a proposal is still as it was proposed, so the bound is met. */
  lemma ThreeUpdatesCommit(legacy: map<ProposalId, ProposalRow>, transactions: seq<seq<Step>>, p: ProposalId, reason: string)
    requires forall l | l in legacy :: ProposalDeclared(legacy[l])
    requires var t := History(legacy, transactions);
             p in t.proposals && t.proposals[p].state.Proposed? && t.proposals[p].recordId.None?
    ensures exists steps :: Commits(History(legacy, transactions), steps) && Updates(steps, p) == 3
  {
    HistoryIsDeclared(legacy, transactions);
    var t := History(legacy, transactions);
    var row := t.proposals[p];
    assert ProposalDeclared(row);
    var steps := ThreeUpdatesRun(t, p, row.(state := NeedsReview), row.(state := Deferred),
                                 row.(state := Invalidated, quarantine := Some(reason)));
  }

  // ----- the tables themselves ------------------------------------------------------------------------------

  class ReviewTables {
    var proposals: map<ProposalId, ProposalRow>
    var assertions: map<AssertionId, AssertionRow>
    var cases: map<CaseId, CaseRow>
    var decisions: map<DecisionId, DecisionRow>
    var receipts: map<ReceiptId, ReceiptRow>
    var committed: Tables
    var queue: seq<Image>
    var failed: bool
    ghost var steps: seq<Step>

    function Contents(): Tables
      reads this
    {
      Tables(proposals, assertions, cases, decisions, receipts)
    }

    ghost predicate Valid()
      reads this
    {
      && queue == Images(steps)
      && (!failed ==> Run(committed, steps) == Some(Contents()))
      && (failed ==> Run(committed, steps).None?)
    }

    constructor (legacy: map<ProposalId, ProposalRow>)
      ensures Valid() && steps == [] && committed == Legacy(legacy)
    {
      proposals, assertions, cases, decisions, receipts := legacy, map[], map[], map[], map[];
      committed, queue, failed, steps := Legacy(legacy), [], false, [];
    }

    method Execute(s: Step) returns (ok: bool)
      requires Valid()
      modifies this
      ensures Valid() && committed == old(committed) && steps == old(steps) + [s]
      ensures ok == (!old(failed) && Admits(old(Contents()), s)) == !failed
      ensures Contents() == if ok then Written(old(Contents()), s) else old(Contents())
    {
      RunThen(committed, steps, s);
      ImagesThen(steps, s);
      ok := !failed && Admits(Contents(), s);
      if ok {
        match s
        case InsertProposal(p, row) => proposals := proposals[p := row];
        case UpdateProposal(p, row) => proposals := proposals[p := row];
        case InsertAssertion(a, row) => assertions := assertions[a := row];
        case UpdateAssertion(a, row) => assertions := assertions[a := row];
        case InsertCase(c, row) => cases := cases[c := row];
        case InsertDecision(d, row) => decisions := decisions[d := row];
        case InsertReceipt(r, row) => receipts := receipts[r := row];
      }
      failed := !ok;
      queue := queue + Queued(s);
      steps := steps + [s];
    }

    /** Runs the queued checks in order; the first that fails takes the transaction back. */
    method Commit() returns (ok: bool)
      requires Valid()
      modifies this
      ensures Valid() && steps == [] && committed == Contents()
      ensures ok == Commits(old(committed), old(steps))
      ensures ok == (&& !old(failed)
                     && var u := old(Contents());
                        forall p | p in u.proposals && Touched(old(steps), p) && u.proposals[p].recordId.Some? ::
                          RecordedAsDecided(u, p, u.proposals[p]))
      ensures Contents() == Transact(old(committed), old(steps))
    {
      if !failed {
        CommitsIff(committed, steps);
      }
      ok := !failed;
      var i := 0;
      while ok && i < |queue|
        invariant 0 <= i <= |queue|
        invariant ok ==> !failed && forall k | 0 <= k < i :: RecordCheck(Contents(), queue[k].0, queue[k].1)
        invariant !ok ==> failed || exists e | e in queue :: !RecordCheck(Contents(), e.0, e.1)
      {
        ok := RecordCheck(Contents(), queue[i].0, queue[i].1);
        assert queue[i] in queue;
        i := i + 1;
      }
      if ok {
        committed := Contents();
      } else {
        proposals, assertions, cases := committed.proposals, committed.assertions, committed.cases;
        decisions, receipts := committed.decisions, committed.receipts;
      }
      queue, failed, steps := [], false, [];
    }
  }
}
