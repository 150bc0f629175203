/**
 Knowledge client profiles: which role a client is bound to, what the profile tooling
 plans and grants for it, and how the grants table answers when it is applied.
 */
module GrantPlanner {
  import opened Options

  datatype Capability =
    | AssertionsRead | AssertionsList | AssertionsSearch | AssertionsHistory | AssertionsReveal
    | AssertionsCreate | AssertionsSubmit | DiscoveryCheckpoint
    | RecordEventsList | RecordEventsProvenance
    | ReviewList | ReviewDecide
    | OtherCapability(name: string)

  datatype Purpose =
    | AssertionRead | AssertionAuthoring | AssertionObservation
    | RecordEventRead | RecordEventProvenanceRead
    | CaptureReview | ReviewDisposition
    | OtherPurpose(name: string)

  datatype Profile = DiscoveryV1 | DiscoveryV2 | OperatorReviewV1
  datatype Role = Discovery | OperatorReview | Manager | Unbound

  /** The four role allowlists; the gateway list binds no role. */
  datatype Allowlists = Allowlists(discovery: set<string>, operatorReview: set<string>, manager: set<string>)

  // ----- the vocabularies ---------------------------------------------------------------------------

  /** The single purpose that may invoke the capability. */
  function SolePurpose(c: Capability): Purpose {
    match c
    case AssertionsCreate => AssertionAuthoring
    case AssertionsSubmit => AssertionObservation
    case DiscoveryCheckpoint => AssertionObservation
    case RecordEventsList => RecordEventRead
    case RecordEventsProvenance => RecordEventProvenanceRead
    case ReviewList => CaptureReview
    case ReviewDecide => ReviewDisposition
    case OtherCapability(name) => OtherPurpose(name)
    case _ => AssertionRead
  }

  predicate IsWrite(c: Capability) {
    c.AssertionsCreate? || c.AssertionsSubmit? || c.DiscoveryCheckpoint? || c.ReviewDecide?
  }

  /** The profile's capabilities, sorted by their names. */
  function Members(p: Profile): (caps: seq<Capability>)
    ensures Distinct(caps)
  {
    match p
    case DiscoveryV1 => [AssertionsRead, AssertionsSubmit, DiscoveryCheckpoint, RecordEventsList]
    case DiscoveryV2 => [AssertionsRead, AssertionsSubmit, DiscoveryCheckpoint, RecordEventsList, RecordEventsProvenance]
    case OperatorReviewV1 => [AssertionsRead, ReviewDecide, ReviewList]
  }

  predicate Distinct<T(==)>(s: seq<T>) {
    forall i, j | 0 <= i < j < |s| :: s[i] != s[j]
  }

  function CapabilityName(c: Capability): string {
    match c
    case AssertionsRead => "knowledge.assertions.read"
    case AssertionsList => "knowledge.assertions.list"
    case AssertionsSearch => "knowledge.assertions.search"
    case AssertionsHistory => "knowledge.assertions.history"
    case AssertionsReveal => "knowledge.assertions.reveal"
    case AssertionsCreate => "knowledge.assertions.create"
    case AssertionsSubmit => "knowledge.assertions.submit"
    case DiscoveryCheckpoint => "knowledge.discovery.checkpoint"
    case RecordEventsList => "record_events.list"
    case RecordEventsProvenance => "record_events.provenance"
    case ReviewList => "review.list"
    case ReviewDecide => "review.decide"
    case OtherCapability(name) => name
  }

  /** Text `a` sorts before text `b`: they part at some position, where `a` ends or has the lower character. */
  ghost predicate SortsBefore(a: string, b: string) {
    exists k | 0 <= k <= |a| && k < |b| :: a[..k] == b[..k] && (k == |a| || a[k] < b[k])
  }

  lemma PartAt(a: string, b: string, k: nat)
    requires k < |a| && k < |b| && a[..k] == b[..k] && a[k] < b[k]
    ensures SortsBefore(a, b)
  {
  }

  lemma SortingIsTransitive(a: string, b: string, c: string)
    requires SortsBefore(a, b) && SortsBefore(b, c)
    ensures SortsBefore(a, c)
  {
    var k :| 0 <= k <= |a| && k < |b| && a[..k] == b[..k] && (k == |a| || a[k] < b[k]);
    var l :| 0 <= l <= |b| && l < |c| && b[..l] == c[..l] && (l == |b| || b[l] < c[l]);
    var m := if k < l then k else l;
    assert a[..m] == a[..k][..m] && b[..m] == b[..k][..m] == b[..l][..m] && c[..m] == c[..l][..m];
    assert k < l ==> b[k] == b[..l][k] && c[k] == c[..l][k];
    assert l < k ==> a[l] == a[..k][l] && b[l] == b[..k][l];
  }

  lemma {:induction false} SortedByNeighbours(names: seq<string>, i: nat, j: nat)
    requires forall k | 0 <= k < |names| - 1 :: SortsBefore(names[k], names[k + 1])
    requires i < j < |names|
    ensures SortsBefore(names[i], names[j])
  {
    if i + 1 < j {
      SortedByNeighbours(names, i, j - 1);
      SortingIsTransitive(names[i], names[j - 1], names[j]);
    }
  }

  lemma NeighboursAreSorted()
    ensures SortsBefore(CapabilityName(AssertionsRead), CapabilityName(AssertionsSubmit))
    ensures SortsBefore(CapabilityName(AssertionsSubmit), CapabilityName(DiscoveryCheckpoint))
    ensures SortsBefore(CapabilityName(DiscoveryCheckpoint), CapabilityName(RecordEventsList))
    ensures SortsBefore(CapabilityName(RecordEventsList), CapabilityName(RecordEventsProvenance))
    ensures SortsBefore(CapabilityName(AssertionsRead), CapabilityName(ReviewDecide))
    ensures SortsBefore(CapabilityName(ReviewDecide), CapabilityName(ReviewList))
  {
    PartAt("knowledge.assertions.read", "knowledge.assertions.submit", 21);
    PartAt("knowledge.assertions.submit", "knowledge.discovery.checkpoint", 10);
    PartAt("knowledge.discovery.checkpoint", "record_events.list", 0);
    PartAt("record_events.list", "record_events.provenance", 14);
    PartAt("knowledge.assertions.read", "review.decide", 0);
    PartAt("review.decide", "review.list", 7);
  }

  /** The names of the profile's capabilities, as it lists them. */
  function MemberNames(p: Profile): (names: seq<string>)
    ensures |names| == |Members(p)|
  {
    seq(|Members(p)|, i requires 0 <= i < |Members(p)| => CapabilityName(Members(p)[i]))
  }

  /** Each profile lists its capabilities in the order of their names. */
  lemma MembersAreSorted(p: Profile, i: nat, j: nat)
    requires i < j < |Members(p)|
    ensures SortsBefore(MemberNames(p)[i], MemberNames(p)[j])
  {
    NeighboursAreSorted();
    SortedByNeighbours(MemberNames(p), i, j);
  }

  /**
   How the profiles stand to each other: the second discovery profile adds provenance to the
   first, and a discovery and the review profile have just the read in common.
   */
  lemma ProfilesCompare(c: Capability)
    ensures c in Members(DiscoveryV2) <==> c in Members(DiscoveryV1) || c == RecordEventsProvenance
    ensures RecordEventsProvenance !in Members(DiscoveryV1)
    ensures forall p | p != OperatorReviewV1 :: c in Members(p) && c in Members(OperatorReviewV1) <==> c == AssertionsRead
    ensures forall p | p != OperatorReviewV1 :: c in Members(p) && IsWrite(c) <==> c in {AssertionsSubmit, DiscoveryCheckpoint}
    ensures c in Members(OperatorReviewV1) && IsWrite(c) <==> c == ReviewDecide
    ensures c in Members(OperatorReviewV1) <==> c in {AssertionsRead, ReviewList, ReviewDecide}
    ensures c in Members(DiscoveryV1) && !IsWrite(c) <==> c in {AssertionsRead, RecordEventsList}
  {
  }

  /** Among these capabilities the purpose tells whether one writes, and in a profile only the two discovery writes share one. */
  lemma PurposesTell(c: Capability, d: Capability)
    requires !c.OtherCapability? && !d.OtherCapability?
    ensures IsWrite(c) <==> SolePurpose(c) in {AssertionAuthoring, AssertionObservation, ReviewDisposition}
    ensures SolePurpose(c) == SolePurpose(d) && IsWrite(c) && c != d ==> {c, d} == {AssertionsSubmit, DiscoveryCheckpoint}
    ensures SolePurpose(c) == SolePurpose(d) && !IsWrite(c) && c != d ==> SolePurpose(c) == AssertionRead
    ensures forall p | c in Members(p) && d in Members(p) && c != d && SolePurpose(c) == SolePurpose(d) ::
              {c, d} == {AssertionsSubmit, DiscoveryCheckpoint}
    ensures SolePurpose(c) == AssertionRead <==>
              c in {AssertionsRead, AssertionsList, AssertionsSearch, AssertionsHistory, AssertionsReveal}
  {
  }

  /** Narrowest first, so that an overlapping list still fails closed. */
  function RoleOf(lists: Allowlists, client: string): Role {
    if client in lists.discovery then Discovery
    else if client in lists.operatorReview then OperatorReview
    else if client in lists.manager then Manager
    else Unbound
  }

  function ProfileOf(role: Role): Option<Profile> {
    match role
    case Discovery => Some(DiscoveryV2)
    case OperatorReview => Some(OperatorReviewV1)
    case _ => None
  }

  /** A client's role is the first of its lists; only the first two roles bind a profile. */
  lemma RoleIff(lists: Allowlists, client: string)
    ensures ProfileOf(RoleOf(lists, client)) == Some(DiscoveryV2) <==> client in lists.discovery
    ensures ProfileOf(RoleOf(lists, client)) == Some(OperatorReviewV1) <==> client in lists.operatorReview - lists.discovery
    ensures RoleOf(lists, client) == Manager <==> client in lists.manager - lists.operatorReview - lists.discovery
    ensures RoleOf(lists, client) == Unbound <==> client !in lists.discovery + lists.operatorReview + lists.manager
  {
  }

  /** `resolve_knowledge_client_overlay`: what is left of the granted capabilities for a client in the role. */
  function Overlay(role: Role, granted: set<Capability>): set<Capability> {
    match ProfileOf(role)
    case Some(p) =>
      var allowed := granted * (set c | c in Members(p));
      if IsDiscoveryProfile(p) then allowed - {AssertionsCreate, ReviewDecide} else allowed
    case None => if role == Manager then granted else granted - {AssertionsSubmit, DiscoveryCheckpoint}
  }

  /**
   The overlay leaves a bound client just what its profile lists, leaves a manager
   everything, and keeps the discovery writes from everybody else; it strips no more
   when it is taken again.
   */
  lemma OverlayIff(role: Role, granted: set<Capability>, c: Capability)
    ensures c in Overlay(role, granted)
            <==> && c in granted
                 && match role
                    case Discovery => c in Members(DiscoveryV2)
                    case OperatorReview => c in Members(OperatorReviewV1)
                    case Manager => true
                    case Unbound => c !in Members(DiscoveryV2) || !IsWrite(c)
    ensures Overlay(role, Overlay(role, granted)) == Overlay(role, granted)
  {
  }

  datatype Refusal =
    | NeverPlanned | OutsideProfile
    | ManagerBound | NotBound | BoundToAnother | ClientNotFound | ApplyNotGiven
    | KnowledgeWrite | PurposeMissing

  predicate IsDiscoveryProfile(p: Profile) {
    p.DiscoveryV1? || p.DiscoveryV2?
  }

  /** `knowledge_profile_refusal`. */
  function ProfileRefusal(p: Profile, c: Capability): (r: Option<Refusal>)
    ensures r.None? <==> c in Members(p)
    ensures r == Some(NeverPlanned) <==> p in {DiscoveryV1, DiscoveryV2} && c in {AssertionsCreate, ReviewDecide}
    ensures r != None ==> r.value in {NeverPlanned, OutsideProfile}
  {
    if IsDiscoveryProfile(p) && (c.AssertionsCreate? || c.ReviewDecide?) then Some(NeverPlanned)
    else if c !in Members(p) then Some(OutsideProfile)
    else None
  }

  predicate KnowledgeWriteGrant(c: Capability) {
    c.AssertionsCreate? || c.AssertionsSubmit? || c.DiscoveryCheckpoint?
  }

  predicate KnowledgeGrant(c: Capability) {
    || c.AssertionsRead? || c.AssertionsList? || c.AssertionsSearch? || c.AssertionsHistory? || c.AssertionsReveal?
    || KnowledgeWriteGrant(c) || c.RecordEventsProvenance?
  }

  /** `raw_grant_refusal`, as the command calls it once the settings are loaded. */
  function RawRefusal(c: Capability, purpose: Option<Purpose>, lists: Allowlists, client: string): (r: Option<Refusal>)
    ensures r == Some(KnowledgeWrite) <==> c in {AssertionsCreate, AssertionsSubmit, DiscoveryCheckpoint}
    ensures r == Some(PurposeMissing) <==>
              purpose == None && (c == RecordEventsProvenance || SolePurpose(c) == AssertionRead)
    ensures r == None ==>
              forall p | ProfileOf(RoleOf(lists, client)) == Some(p) :: c in Members(p) && c !in {AssertionsSubmit, DiscoveryCheckpoint}
    ensures r != None ==>
              r.value in {KnowledgeWrite, PurposeMissing}
              || (r == Some(OutsideProfile) && exists p :: ProfileOf(RoleOf(lists, client)) == Some(p) && c !in Members(p))
  {
    if KnowledgeWriteGrant(c) then Some(KnowledgeWrite)
    else if KnowledgeGrant(c) && purpose.None? then Some(PurposeMissing)
    else
      var bound := ProfileOf(RoleOf(lists, client));
      if bound.Some? && c !in Members(bound.value) then Some(OutsideProfile) else None
  }

  // ----- the grants table -----------------------------------------------------------------------------

  /** Stored text, which may not belong to this build's vocabulary. */
  datatype Stored<T> = Recognised(value: T) | Unrecognised(text: string)

  datatype Row = Row(
    client: nat,
    scope: string,
    capability: Stored<Capability>,
    version: string,
    purpose: Option<Stored<Purpose>>,
    resource: string,
    isWrite: bool,
    expiresAt: Option<int>,
    revokedAt: Option<int>)

  const V1 := "v1"

  /** The client, scope and resource a plan is for. */
  datatype Target = Target(client: nat, scope: string, resource: string)

  /** The UNIQUE key; a NULL purpose makes a row unlike any other. */
  predicate SameKey(r: Row, q: Row) {
    && r.client == q.client && r.scope == q.scope && r.capability == q.capability && r.version == q.version
    && r.purpose.Some? && r.purpose == q.purpose && r.resource == q.resource
  }

  /** The columns of the UNIQUE constraint, unless the purpose is NULL. */
  function KeyOf(r: Row): Option<(nat, string, Stored<Capability>, string, Stored<Purpose>, string)> {
    if r.purpose == None then None
    else Some((r.client, r.scope, r.capability, r.version, r.purpose.value, r.resource))
  }

  lemma SameKeyIff(r: Row, q: Row)
    ensures SameKey(r, q) <==> KeyOf(r) != None && KeyOf(r) == KeyOf(q)
  {
  }

  predicate KeysHold(rows: seq<Row>) {
    forall i, j | 0 <= i < j < |rows| :: !SameKey(rows[i], rows[j])
  }

  predicate Collides(rows: seq<Row>, row: Row) {
    exists i | 0 <= i < |rows| :: SameKey(rows[i], row)
  }

  /** What the tooling inserts: one purpose, the capability's own write flag, no expiry. */
  function Granted(t: Target, c: Capability): Row {
    Row(t.client, t.scope, Recognised(c), V1, Some(Recognised(SolePurpose(c))), t.resource, IsWrite(c), None, None)
  }

  /** What the raw `grant` command inserts. */
  function RawRow(client: nat, scope: string, c: Capability, purpose: Option<Purpose>, resource: string,
                  isWrite: bool, expiresAt: Option<int>): Row
  {
    Row(client, scope, Recognised(c), V1, if purpose.Some? then Some(Recognised(purpose.value)) else None,
        resource, isWrite, expiresAt, None)
  }

  predicate Active(r: Row, t: Target, now: int) {
    && r.client == t.client && r.scope == t.scope && r.resource == t.resource
    && r.revokedAt.None?
    && (r.expiresAt.Some? ==> r.expiresAt.value > now)
  }

  /** `_grant_records` drops rows whose capability or purpose it cannot name. */
  predicate Readable(r: Row) {
    r.capability.Recognised? && (r.purpose.Some? ==> r.purpose.value.Recognised?)
  }

  /** The row counts as the profile's grant of `c`. */
  predicate Counts(r: Row, t: Target, c: Capability, now: int) {
    && Active(r, t, now)
    && r.capability == Recognised(c)
    && r.purpose == Some(Recognised(SolePurpose(c)))
    && r.isWrite == IsWrite(c)
  }

  predicate Present(rows: seq<Row>, t: Target, c: Capability, now: int) {
    exists i | 0 <= i < |rows| :: Counts(rows[i], t, c, now)
  }

  /** The row is the target's, names `c` in words this build knows, and is neither revoked nor expired. */
  ghost predicate Shown(r: Row, t: Target, c: Capability, now: int) {
    && (r.client, r.scope, r.resource) == (t.client, t.scope, t.resource)
    && r.capability == Recognised(c) && (r.purpose == None || r.purpose.value.Recognised?)
    && r.revokedAt == None && (r.expiresAt == None || now < r.expiresAt.value)
  }

  /** Some row already holds the key that granting `c` would need. */
  predicate Blocked(rows: seq<Row>, t: Target, c: Capability) {
    Collides(rows, Granted(t, c))
  }

  // ----- the plan ----------------------------------------------------------------------------------------

  function Missing(rows: seq<Row>, t: Target, caps: seq<Capability>, now: int): seq<Capability> {
    if caps == [] then []
    else
      var last := |caps| - 1;
      Missing(rows, t, caps[..last], now) + if Present(rows, t, caps[last], now) then [] else [caps[last]]
  }

  /** The plan names exactly the capabilities with no counting row, each once, and so it is minimal. */
  lemma {:induction false} PlanIsExact(rows: seq<Row>, t: Target, caps: seq<Capability>, now: int)
    requires Distinct(caps)
    ensures forall c :: c in Missing(rows, t, caps, now) <==> c in caps && !Present(rows, t, c, now)
    ensures Distinct(Missing(rows, t, caps, now))
  {
    if caps != [] {
      var last := |caps| - 1;
      PlanIsExact(rows, t, caps[..last], now);
      assert caps == caps[..last] + [caps[last]];
      assert caps[last] !in caps[..last];
    }
  }

  lemma {:induction false} NothingMissingIff(rows: seq<Row>, t: Target, caps: seq<Capability>, now: int)
    ensures Missing(rows, t, caps, now) == [] <==> forall c | c in caps :: Present(rows, t, c, now)
  {
    if caps != [] {
      var last := |caps| - 1;
      NothingMissingIff(rows, t, caps[..last], now);
      assert caps == caps[..last] + [caps[last]];
    }
  }

  /** The rows after granting each capability of a plan. */
  function Applied(rows: seq<Row>, t: Target, plan: seq<Capability>): seq<Row> {
    rows + seq(|plan|, i requires 0 <= i < |plan| => Granted(t, plan[i]))
  }

  /** A profile can be completed exactly when no key it needs is held by a row that does not count. */
  predicate CanComplete(rows: seq<Row>, t: Target, caps: seq<Capability>, now: int) {
    forall c | c in caps :: Present(rows, t, c, now) || !Blocked(rows, t, c)
  }

  lemma GrantedCounts(t: Target, c: Capability, now: int)
    ensures Counts(Granted(t, c), t, c, now)
  {
  }

  lemma AppliedPresence(rows: seq<Row>, t: Target, plan: seq<Capability>, c: Capability, now: int)
    ensures Present(Applied(rows, t, plan), t, c, now) <==> c in plan || Present(rows, t, c, now)
  {
    var after := Applied(rows, t, plan);
    if c in plan {
      var i :| 0 <= i < |plan| && plan[i] == c;
      GrantedCounts(t, c, now);
      assert after[|rows| + i] == Granted(t, c);
    } else if Present(rows, t, c, now) {
      var i :| 0 <= i < |rows| && Counts(rows[i], t, c, now);
      assert after[i] == rows[i];
    } else {
      forall i | 0 <= i < |after| ensures !Counts(after[i], t, c, now) {
        assert i >= |rows| ==> after[i] == Granted(t, plan[i - |rows|]);
      }
    }
  }

  /** Some row counts and never expires. */
  predicate Lasting(rows: seq<Row>, t: Target, c: Capability) {
    exists i | 0 <= i < |rows| :: Counts(rows[i], t, c, 0) && rows[i].expiresAt.None?
  }

  /** An instant after which every expiry in the table has passed. */
  function AllExpired(rows: seq<Row>, now: int): (later: int)
    ensures later >= now
    ensures forall i | 0 <= i < |rows| && rows[i].expiresAt.Some? :: rows[i].expiresAt.value <= later
  {
    if rows == [] then now
    else
      var last := |rows| - 1;
      var before := AllExpired(rows[..last], now);
      if rows[last].expiresAt.Some? && rows[last].expiresAt.value > before then rows[last].expiresAt.value else before
  }

  lemma PresentForever(rows: seq<Row>, t: Target, c: Capability, now: int)
    ensures (forall later | later >= now :: Present(rows, t, c, later)) <==> Lasting(rows, t, c)
  {
    if Lasting(rows, t, c) {
      var i :| 0 <= i < |rows| && Counts(rows[i], t, c, 0) && rows[i].expiresAt.None?;
      forall later | later >= now ensures Present(rows, t, c, later) {
        assert Counts(rows[i], t, c, later);
      }
    }
    var end := AllExpired(rows, now);
    if Present(rows, t, c, end) {
      var i :| 0 <= i < |rows| && Counts(rows[i], t, c, end);
      assert Counts(rows[i], t, c, 0) && rows[i].expiresAt.None?;
    }
  }

  /** Re-planning at the same instant is always empty. */
  lemma ReplanIsEmpty(rows: seq<Row>, t: Target, caps: seq<Capability>, now: int)
    requires Distinct(caps)
    ensures Missing(Applied(rows, t, Missing(rows, t, caps, now)), t, caps, now) == []
  {
    var plan := Missing(rows, t, caps, now);
    PlanIsExact(rows, t, caps, now);
    NothingMissingIff(Applied(rows, t, plan), t, caps, now);
    forall c | c in caps ensures Present(Applied(rows, t, plan), t, c, now) {
      AppliedPresence(rows, t, plan, c, now);
    }
  }

  ghost predicate StaysComplete(rows: seq<Row>, t: Target, caps: seq<Capability>, now: int) {
    forall later | later >= now :: Missing(rows, t, caps, later) == []
  }

  /** It stays complete exactly when each capability rests on a row that never expires. */
  lemma StaysCompleteIff(rows: seq<Row>, t: Target, caps: seq<Capability>, now: int)
    ensures StaysComplete(rows, t, caps, now) <==> forall c | c in caps :: Lasting(rows, t, c)
  {
    if StaysComplete(rows, t, caps, now) {
      forall c | c in caps ensures Lasting(rows, t, c) {
        PresentForever(rows, t, c, now);
        forall later | later >= now ensures Present(rows, t, c, later) {
          NothingMissingIff(rows, t, caps, later);
        }
      }
    }
    if forall c | c in caps :: Lasting(rows, t, c) {
      forall later | later >= now ensures Missing(rows, t, caps, later) == [] {
        NothingMissingIff(rows, t, caps, later);
        forall c | c in caps ensures Present(rows, t, c, later) {
          PresentForever(rows, t, c, now);
        }
      }
    }
  }

  /**
   At every later instant a new plan stays empty exactly when no capability rested on grants
   that were counted but expire: those were not renewed, only new ones were added.
   */
  lemma ReplanStaysEmptyIff(rows: seq<Row>, t: Target, caps: seq<Capability>, now: int)
    requires Distinct(caps)
    ensures StaysComplete(Applied(rows, t, Missing(rows, t, caps, now)), t, caps, now)
            <==> (forall c | c in caps && Present(rows, t, c, now) :: Lasting(rows, t, c))
  {
    var plan := Missing(rows, t, caps, now);
    PlanIsExact(rows, t, caps, now);
    StaysCompleteIff(Applied(rows, t, plan), t, caps, now);
    forall c ensures Lasting(Applied(rows, t, plan), t, c) <==> c in plan || Lasting(rows, t, c) {
      AppliedLasts(rows, t, plan, c);
    }
  }

  lemma AppliedLasts(rows: seq<Row>, t: Target, plan: seq<Capability>, c: Capability)
    ensures Lasting(Applied(rows, t, plan), t, c) <==> c in plan || Lasting(rows, t, c)
  {
    var after := Applied(rows, t, plan);
    if c in plan {
      var k :| 0 <= k < |plan| && plan[k] == c;
      GrantedCounts(t, c, 0);
      assert after[|rows| + k] == Granted(t, c);
    } else if Lasting(rows, t, c) {
      var k :| 0 <= k < |rows| && Counts(rows[k], t, c, 0) && rows[k].expiresAt.None?;
      assert after[k] == rows[k];
    } else {
      forall i | 0 <= i < |after| ensures !(Counts(after[i], t, c, 0) && after[i].expiresAt.None?) {
        assert i >= |rows| ==> after[i] == Granted(t, plan[i - |rows|]);
      }
    }
  }

  // ----- the other statements the tool makes on the table ------------------------------------------------

  /** A grant, a revocation of one row, and clearing the expiry of an unrevoked row. */
  datatype Op = Insert(row: Row) | Revoke(index: nat, at: int) | Renew(index: nat)

  /** A collision, a missing row and a revoked one leave the table as it was. */
  function After(rows: seq<Row>, op: Op): seq<Row> {
    match op
    case Insert(row) => if Collides(rows, row) then rows else rows + [row]
    case Revoke(i, at) => if i < |rows| then rows[i := rows[i].(revokedAt := Some(at))] else rows
    case Renew(i) => if i < |rows| && rows[i].revokedAt.None? then rows[i := rows[i].(expiresAt := None)] else rows
  }

  function AfterAll(rows: seq<Row>, ops: seq<Op>): seq<Row> {
    if ops == [] then rows else After(AfterAll(rows, ops[..|ops| - 1]), ops[|ops| - 1])
  }

  /** Every grant is written at version v1. */
  predicate AllV1(rows: seq<Row>) {
    forall i | 0 <= i < |rows| :: rows[i].version == V1
  }

  predicate InsertsV1(ops: seq<Op>) {
    forall i | 0 <= i < |ops| && ops[i].Insert? :: ops[i].row.version == V1
  }

  lemma {:induction false} TableKeepsItsKeys(rows: seq<Row>, ops: seq<Op>)
    requires KeysHold(rows) && AllV1(rows) && InsertsV1(ops)
    ensures KeysHold(AfterAll(rows, ops)) && AllV1(AfterAll(rows, ops))
  {
    if ops != [] {
      TableKeepsItsKeys(rows, ops[..|ops| - 1]);
    }
  }

  predicate SameGrant(r: Row, q: Row) {
    && r.client == q.client && r.scope == q.scope && r.capability == q.capability && r.version == q.version
    && r.purpose == q.purpose && r.resource == q.resource && r.isWrite == q.isWrite
  }

  predicate RevokedBy(ops: seq<Op>, i: nat) {
    exists k | 0 <= k < |ops| :: ops[k].Revoke? && ops[k].index == i
  }

  predicate RenewedBy(ops: seq<Op>, i: nat) {
    exists k | 0 <= k < |ops| :: ops[k].Renew? && ops[k].index == i
  }

  /** What any statements leave of a row: the same grant, revoked or renewed exactly as they name it. */
  lemma {:induction false} RowAfter(rows: seq<Row>, ops: seq<Op>, i: nat)
    requires i < |rows|
    ensures i < |AfterAll(rows, ops)|
    ensures var was, row := rows[i], AfterAll(rows, ops)[i];
            && SameGrant(row, was)
            && (row.revokedAt.None? <==> was.revokedAt.None? && !RevokedBy(ops, i))
            && (row.revokedAt.None? ==> row.expiresAt == if RenewedBy(ops, i) then None else was.expiresAt)
  {
    if ops != [] {
      var init, last := ops[..|ops| - 1], ops[|ops| - 1];
      RowAfter(rows, init, i);
      assert ops == init + [last];
      NamedByOne(init, last, i);
    }
  }

  lemma NamedByOne(ops: seq<Op>, last: Op, i: nat)
    ensures RevokedBy(ops + [last], i) <==> RevokedBy(ops, i) || (last.Revoke? && last.index == i)
    ensures RenewedBy(ops + [last], i) <==> RenewedBy(ops, i) || (last.Renew? && last.index == i)
  {
    var all := ops + [last];
    assert all[|ops|] == last;
    if k :| 0 <= k < |ops| && ops[k].Revoke? && ops[k].index == i {
      assert all[k] == ops[k];
    }
    if k :| 0 <= k < |ops| && ops[k].Renew? && ops[k].index == i {
      assert all[k] == ops[k];
    }
  }

  /** The row counts at `now`, is never revoked after, and does not expire or is renewed. */
  predicate Kept(rows: seq<Row>, t: Target, c: Capability, now: int, ops: seq<Op>, i: nat) {
    && i < |rows| && Counts(rows[i], t, c, now)
    && !RevokedBy(ops, i) && (rows[i].expiresAt.None? || RenewedBy(ops, i))
  }

  /** Only the row that counts now can count for good, for it holds the key. */
  lemma LastsIffKept(rows: seq<Row>, t: Target, c: Capability, now: int, ops: seq<Op>)
    requires KeysHold(rows) && AllV1(rows) && InsertsV1(ops) && Present(rows, t, c, now)
    ensures Lasting(AfterAll(rows, ops), t, c) <==> exists i: nat :: Kept(rows, t, c, now, ops, i)
  {
    var after := AfterAll(rows, ops);
    TableKeepsItsKeys(rows, ops);
    var i :| 0 <= i < |rows| && Counts(rows[i], t, c, now);
    RowAfter(rows, ops, i);
    if Lasting(after, t, c) {
      var k :| 0 <= k < |after| && Counts(after[k], t, c, 0) && after[k].expiresAt.None?;
      assert SameKey(after[i], after[k]) && SameKey(after[k], after[i]);
      assert i == k;
      assert Kept(rows, t, c, now, ops, i);
    }
    if k: nat :| Kept(rows, t, c, now, ops, k) {
      RowAfter(rows, ops, k);
      assert Counts(after[k], t, c, 0) && after[k].expiresAt.None?;
    }
  }

  /**
   Whatever the tool does after a profile is complete, it stays complete exactly when the
   row that counts for each capability is never revoked by those statements and either
   does not expire or is renewed by one of them.
   */
  lemma CompletionSurvives(rows: seq<Row>, t: Target, caps: seq<Capability>, now: int, ops: seq<Op>)
    requires KeysHold(rows) && AllV1(rows) && InsertsV1(ops)
    requires Missing(rows, t, caps, now) == []
    ensures StaysComplete(AfterAll(rows, ops), t, caps, now)
            <==> forall c | c in caps :: exists i: nat :: Kept(rows, t, c, now, ops, i)
  {
    NothingMissingIff(rows, t, caps, now);
    StaysCompleteIff(AfterAll(rows, ops), t, caps, now);
    forall c | c in caps ensures Lasting(AfterAll(rows, ops), t, c) <==> exists i: nat :: Kept(rows, t, c, now, ops, i) {
      LastsIffKept(rows, t, c, now, ops);
    }
  }

  /**
   Revoking a profile grant is for good: its row keeps the key, no statement of the tool
   clears it, and so the profile can never be completed for that target again.
   */
  lemma RevocationIsForGood(rows: seq<Row>, t: Target, caps: seq<Capability>, c: Capability, i: nat, ops: seq<Op>, now: int)
    requires KeysHold(rows) && AllV1(rows) && InsertsV1(ops)
    requires i < |rows| && SameKey(rows[i], Granted(t, c)) && rows[i].revokedAt.Some? && c in caps
    ensures !CanComplete(AfterAll(rows, ops), t, caps, now)
  {
    var after := AfterAll(rows, ops);
    RowAfter(rows, ops, i);
    TableKeepsItsKeys(rows, ops);
    HolderBlocks(after, t, caps, c, i, now);
  }

  /** A row that holds a key the profile needs and does not count keeps it from being completed. */
  lemma HolderBlocks(rows: seq<Row>, t: Target, caps: seq<Capability>, c: Capability, i: nat, now: int)
    requires KeysHold(rows) && AllV1(rows) && c in caps
    requires i < |rows| && SameKey(rows[i], Granted(t, c)) && !Counts(rows[i], t, c, now)
    ensures !CanComplete(rows, t, caps, now)
  {
    forall k | 0 <= k < |rows| ensures !Counts(rows[k], t, c, now) {
      if Counts(rows[k], t, c, now) {
        assert SameKey(rows[k], rows[i]) && SameKey(rows[i], rows[k]);
      }
    }
  }

  /** The row is a v1 grant to the target of `c`, for the capability's own purpose. */
  ghost predicate GrantRow(r: Row, t: Target, c: Capability) {
    && (r.client, r.scope, r.resource) == (t.client, t.scope, t.resource)
    && r.version == "v1" && r.capability == Recognised(c) && r.purpose == Some(Recognised(SolePurpose(c)))
  }

  /** It is revoked or expired, or states the other write flag. */
  ghost predicate Lapsed(r: Row, c: Capability, now: int) {
    r.revokedAt != None || (r.expiresAt != None && r.expiresAt.value <= now) || r.isWrite == !IsWrite(c)
  }

  lemma CountsIff(r: Row, t: Target, c: Capability, now: int)
    requires r.version == V1
    ensures SameKey(r, Granted(t, c)) <==> GrantRow(r, t, c)
    ensures Counts(r, t, c, now) <==> GrantRow(r, t, c) && !Lapsed(r, c, now)
  {
  }

  /** A profile can be completed exactly when none of the target's grants of its capabilities has lapsed. */
  lemma CanCompleteIff(rows: seq<Row>, t: Target, caps: seq<Capability>, now: int)
    requires KeysHold(rows) && AllV1(rows)
    ensures CanComplete(rows, t, caps, now)
            <==> forall c, i | c in caps && 0 <= i < |rows| && GrantRow(rows[i], t, c) :: !Lapsed(rows[i], c, now)
  {
    forall c, i | 0 <= i < |rows|
      ensures SameKey(rows[i], Granted(t, c)) <==> GrantRow(rows[i], t, c)
      ensures Counts(rows[i], t, c, now) <==> GrantRow(rows[i], t, c) && !Lapsed(rows[i], c, now)
    {
      CountsIff(rows[i], t, c, now);
    }
    if c, i :| c in caps && 0 <= i < |rows| && GrantRow(rows[i], t, c) && Lapsed(rows[i], c, now) {
      HolderBlocks(rows, t, caps, c, i, now);
    }
  }

  // ----- tables from which a profile is not reached ---------------------------------------------------------

  /** The raw `grant` of `c` for its own purpose, with whatever write flag and expiry the operator states. */
  function RawGrantOf(t: Target, c: Capability, isWrite: bool, expiresAt: Option<int>): Op {
    Insert(RawRow(t.client, t.scope, c, Some(SolePurpose(c)), t.resource, isWrite, expiresAt))
  }

  /** The raw command grants every capability of the client's own profile but the Knowledge writes. */
  lemma RawGrantsReach(lists: Allowlists, client: string, p: Profile, c: Capability)
    requires ProfileOf(RoleOf(lists, client)) == Some(p) && c in Members(p)
    ensures RawRefusal(c, Some(SolePurpose(c)), lists, client).None? <==> !KnowledgeWriteGrant(c)
  {
  }

  /**
   Starting from no grants at all: a profile grant that was revoked, a raw grant that has
   expired and one that states the other write flag each leave a table on which applying
   the profile is a unique violation.
   */
  lemma RevokedExpiredAndFlaggedBlock(t: Target, caps: seq<Capability>, c: Capability, at: int, expiry: int, now: int)
    requires c in caps && expiry <= now
    ensures !CanComplete(AfterAll([], [Insert(Granted(t, c)), Revoke(0, at)]), t, caps, now)
    ensures !CanComplete(AfterAll([], [RawGrantOf(t, c, IsWrite(c), Some(expiry))]), t, caps, now)
    ensures !CanComplete(AfterAll([], [RawGrantOf(t, c, !IsWrite(c), None)]), t, caps, now)
  {
    var granted := Insert(Granted(t, c));
    OneGrant(granted);
    assert [granted, Revoke(0, at)][..1] == [granted];
    assert AfterAll([], [granted, Revoke(0, at)]) == [Granted(t, c).(revokedAt := Some(at))];
    HolderBlocks([Granted(t, c).(revokedAt := Some(at))], t, caps, c, 0, now);
    var expired, flagged := RawGrantOf(t, c, IsWrite(c), Some(expiry)), RawGrantOf(t, c, !IsWrite(c), None);
    OneGrant(expired);
    HolderBlocks([expired.row], t, caps, c, 0, now);
    OneGrant(flagged);
    HolderBlocks([flagged.row], t, caps, c, 0, now);
  }

  lemma OneGrant(op: Op)
    requires op.Insert?
    ensures AfterAll([], [op]) == [op.row]
  {
    assert [op][..0] == [] && AfterAll([], []) == [];
  }

  /**
   A raw grant that still counts keeps its capability out of the plan; once it has expired a
   new plan names the capability again, and applying that plan is a unique violation.
   */
  lemma ExpiringGrantsReturn(t: Target, caps: seq<Capability>, c: Capability, now: int, expiry: int, later: int)
    requires Distinct(caps) && c in caps && now < expiry <= later
    ensures var rows := AfterAll([], [RawGrantOf(t, c, IsWrite(c), Some(expiry))]);
            var plan := Missing(rows, t, caps, now);
            && CanComplete(rows, t, caps, now) && c !in plan
            && c in Missing(Applied(rows, t, plan), t, caps, later)
            && !CanComplete(Applied(rows, t, plan), t, caps, later)
  {
    var op := RawGrantOf(t, c, IsWrite(c), Some(expiry));
    OneGrant(op);
    var rows := [op.row];
    var plan := Missing(rows, t, caps, now);
    var after := Applied(rows, t, plan);
    assert Counts(rows[0], t, c, now) && Present(rows, t, c, now);
    PlanIsExact(rows, t, caps, now);
    forall d | d in caps && d != c ensures !Blocked(rows, t, d) {
      assert !SameKey(rows[0], Granted(t, d));
    }
    AppliedPresence(rows, t, plan, c, later);
    assert !Counts(rows[0], t, c, later) && !Present(rows, t, c, later);
    PlanIsExact(after, t, caps, later);
    assert after[0] == rows[0] && SameKey(after[0], Granted(t, c));
    assert Blocked(after, t, c);
  }

  // ----- the commands -------------------------------------------------------------------------------------

  datatype Request = Request(client: string, scope: string, resource: string, profile: Profile, applying: bool, confirmed: bool)

  datatype Outcome =
    | Refused(why: Refusal)
    | Planned(actions: seq<Capability>, outside: set<Capability>)
    | Done(actions: seq<Capability>, outside: set<Capability>)
    | UniqueViolation

  class GrantTable {
    var rows: seq<Row>
    const clients: map<string, nat>

    constructor (clients: map<string, nat>)
      ensures rows == [] && this.clients == clients
    {
      this.clients := clients;
      rows := [];
    }

    /** `_run_knowledge_profile_command`: plan or apply exactly the profile the client is bound to. */
    method KnowledgeProfile(q: Request, lists: Allowlists, now: int) returns (outcome: Outcome)
      requires KeysHold(rows)
      modifies this`rows
      ensures KeysHold(rows)
      ensures var bound := ProfileOf(RoleOf(lists, q.client));
              outcome.Refused? <==>
                bound != Some(q.profile) || q.client !in clients || (q.applying && !q.confirmed)
      ensures outcome == Refused(ManagerBound) <==> RoleOf(lists, q.client) == Manager
      ensures outcome == Refused(NotBound) <==> RoleOf(lists, q.client) == Unbound
      ensures outcome == Refused(BoundToAnother) <==>
                ProfileOf(RoleOf(lists, q.client)).Some? && ProfileOf(RoleOf(lists, q.client)) != Some(q.profile)
      ensures outcome == Refused(ClientNotFound) <==>
                ProfileOf(RoleOf(lists, q.client)) == Some(q.profile) && q.client !in clients
      ensures !outcome.Done? ==> rows == old(rows)
      ensures !outcome.Refused? ==>
                var t := Target(clients[q.client], q.scope, q.resource);
                var plan := Missing(old(rows), t, Members(q.profile), now);
                && (outcome.Planned? <==> !q.applying)
                && (outcome.Planned? || outcome.Done? ==>
                      && outcome.actions == plan
                      && forall c :: c in outcome.outside <==>
                           && c !in Members(q.profile)
                           && exists i | 0 <= i < |old(rows)| ::
                                Shown(old(rows)[i], t, c, now))
                && (q.applying ==> (outcome.Done? <==> CanComplete(old(rows), t, Members(q.profile), now)))
                && (outcome.Done? ==>
                      && rows == Applied(old(rows), t, plan)
                      && Missing(rows, t, Members(q.profile), now) == [])
    {
      var role := RoleOf(lists, q.client);
      if role == Manager {
        return Refused(ManagerBound);
      }
      var bound := ProfileOf(role);
      if bound.None? {
        return Refused(NotBound);
      }
      if q.profile != bound.value {
        return Refused(BoundToAnother);
      }
      // No member of a profile is refused (ProfileRefusal), so the command's loop over them finds nothing.
      var desired := Members(bound.value);
      if q.client !in clients {
        return Refused(ClientNotFound);
      }
      var t := Target(clients[q.client], q.scope, q.resource);
      var actions := PlanFor(t, desired, now);
      var outside := OutsideOf(t, desired, now);
      if !q.applying {
        return Planned(actions, outside);
      }
      if !q.confirmed {
        return Refused(ApplyNotGiven);
      }
      PlanIsExact(rows, t, desired, now);
      ReplanIsEmpty(rows, t, desired, now);
      var ok := ApplyAll(t, actions);
      if !ok {
        return UniqueViolation;
      }
      return Done(actions, outside);
    }

    /** The loop that appends one action for each capability without a counting row. */
    method PlanFor(t: Target, desired: seq<Capability>, now: int) returns (actions: seq<Capability>)
      ensures actions == Missing(rows, t, desired, now)
    {
      actions := [];
      for i := 0 to |desired|
        invariant actions == Missing(rows, t, desired[..i], now)
      {
        assert desired[..i + 1][..i] == desired[..i];
        if !Present(rows, t, desired[i], now) {
          actions := actions + [desired[i]];
        }
      }
      assert desired[..|desired|] == desired;
    }

    /** Active grants the profile does not name: reported, never extended. */
    method OutsideOf(t: Target, desired: seq<Capability>, now: int) returns (outside: set<Capability>)
      ensures forall c :: c in outside <==>
                && c !in desired
                && exists i | 0 <= i < |rows| :: Shown(rows[i], t, c, now)
    {
      outside := {};
      for i := 0 to |rows|
        invariant forall c :: c in outside <==>
                    && c !in desired
                    && exists k | 0 <= k < i :: Shown(rows[k], t, c, now)
      {
        if Readable(rows[i]) && Active(rows[i], t, now) && rows[i].capability.value !in desired {
          outside := outside + {rows[i].capability.value};
        }
      }
    }

    /** One insert; the UNIQUE constraint may refuse it. */
    method Grant(row: Row) returns (ok: bool)
      requires KeysHold(rows)
      modifies this`rows
      ensures KeysHold(rows)
      ensures ok == forall i | 0 <= i < |old(rows)| :: KeyOf(row) == None || KeyOf(old(rows)[i]) != KeyOf(row)
      ensures rows == After(old(rows), Insert(row))
    {
      ok := !Collides(rows, row);
      if ok {
        rows := rows + [row];
      }
    }

    /** Grants each action in turn inside one transaction: a collision takes all of them back. */
    method ApplyAll(t: Target, actions: seq<Capability>) returns (ok: bool)
      requires KeysHold(rows) && Distinct(actions)
      modifies this`rows
      ensures KeysHold(rows)
      ensures ok <==> forall i | 0 <= i < |actions| :: !Blocked(old(rows), t, actions[i])
      ensures rows == if ok then Applied(old(rows), t, actions) else old(rows)
    {
      var saved := rows;
      for i := 0 to |actions|
        invariant KeysHold(rows)
        invariant rows == Applied(saved, t, actions[..i])
        invariant forall k | 0 <= k < i :: !Blocked(saved, t, actions[k])
      {
        ghost var row := Granted(t, actions[i]);
        assert Collides(rows, row) <==> Collides(saved, row) by {
          AppliedCollides(saved, t, actions[..i], actions[i]);
        }
        var granted := Grant(Granted(t, actions[i]));
        if !granted {
          rows := saved;
          assert Blocked(saved, t, actions[i]);
          return false;
        }
        assert actions[..i + 1] == actions[..i] + [actions[i]];
        assert rows == Applied(saved, t, actions[..i + 1]);
      }
      assert actions[..|actions|] == actions;
      return true;
    }

    /** `grant`: refused before anything is written for a Knowledge write or outside the client's profile. */
    method RawGrant(client: string, lists: Allowlists, c: Capability, purpose: Option<Purpose>, scope: string,
                    resource: string, isWrite: bool, expiresAt: Option<int>) returns (refused: Option<Refusal>, ok: bool)
      requires KeysHold(rows)
      modifies this`rows
      ensures KeysHold(rows)
      ensures refused.None? <==> RawRefusal(c, purpose, lists, client).None? && client in clients
      ensures ok <==> refused.None? && !Collides(old(rows), RawRow(clients[client], scope, c, purpose, resource, isWrite, expiresAt))
      ensures rows == if ok then old(rows) + [RawRow(clients[client], scope, c, purpose, resource, isWrite, expiresAt)]
                      else old(rows)
      ensures ok ==> !KnowledgeWriteGrant(c) && forall p | ProfileOf(RoleOf(lists, client)) == Some(p) :: c in Members(p)
    {
      refused := RawRefusal(c, purpose, lists, client);
      if refused.Some? {
        return refused, false;
      }
      if client !in clients {
        return Some(ClientNotFound), false;
      }
      ok := Grant(RawRow(clients[client], scope, c, purpose, resource, isWrite, expiresAt));
    }
  }

  lemma AppliedCollides(rows: seq<Row>, t: Target, plan: seq<Capability>, c: Capability)
    requires c !in plan
    ensures Collides(Applied(rows, t, plan), Granted(t, c)) <==> Collides(rows, Granted(t, c))
  {
    var after, row := Applied(rows, t, plan), Granted(t, c);
    if Collides(rows, row) {
      var i :| 0 <= i < |rows| && SameKey(rows[i], row);
      assert after[i] == rows[i];
    }
    if Collides(after, row) {
      var i :| 0 <= i < |after| && SameKey(after[i], row);
      assert i >= |rows| ==> after[i] == Granted(t, plan[i - |rows|]);
      assert after[i] == rows[i];
    }
  }
}
