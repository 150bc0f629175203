/**
 Native source accounts and their buckets: a bucket may name a parent, and the
 scope trigger is what keeps the parent relation a forest inside one account and
 one source kind.
 */
module NativeBuckets {
  import opened NativeIdentifiers
  import opened Options

  datatype Kind = Calendar | Contacts | Mail

  datatype AccountRow = AccountRow(kind: Kind, title: string)
  datatype BucketRow = BucketRow(account: AccountId, parent: Option<BucketId>, kind: Kind, title: string)

  type Buckets = map<BucketId, BucketRow>

  datatype Tables = Tables(accounts: map<AccountId, AccountRow>, buckets: Buckets)

  /** Statements that touch one row each; `RekeyBucket` rewrites one primary key. */
  datatype Step =
    | InsertAccount(account: AccountId, accountRow: AccountRow)
    | UpdateAccount(account: AccountId, accountRow: AccountRow)
    | DeleteAccount(account: AccountId)
    | InsertBucket(bucket: BucketId, bucketRow: BucketRow)
    | UpdateBucket(bucket: BucketId, bucketRow: BucketRow)
    | RekeyBucket(bucket: BucketId, renamed: BucketId)
    | DeleteBucket(bucket: BucketId)

  // ----- guards --------------------------------------------------------------------------------

  /** `native_bucket_scope_is_consistent`: it reads the table before the new row is in it. */
  predicate InScope(t: Tables, row: BucketRow) {
    && row.account in t.accounts
    && t.accounts[row.account].kind == row.kind
    && (row.parent.Some? ==>
          && row.parent.value in t.buckets
          && t.buckets[row.parent.value].account == row.account
          && t.buckets[row.parent.value].kind == row.kind)
  }

  predicate ScopeKept(was: BucketRow, row: BucketRow) {
    row.account == was.account && row.parent == was.parent && row.kind == was.kind
  }

  predicate IsParent(buckets: Buckets, b: BucketId) {
    exists c | c in buckets :: buckets[c].parent == Some(b)
  }

  predicate OwnsBuckets(t: Tables, a: AccountId) {
    exists b | b in t.buckets :: t.buckets[b].account == a
  }

  predicate Admits(t: Tables, s: Step) {
    match s
    case InsertAccount(a, _) => a !in t.accounts
    case UpdateAccount(a, row) => a in t.accounts && row.kind == t.accounts[a].kind
    case DeleteAccount(a) => a in t.accounts && !OwnsBuckets(t, a)
    case InsertBucket(b, row) => b !in t.buckets && row.parent != Some(b) && InScope(t, row)
    case UpdateBucket(b, row) => b in t.buckets && ScopeKept(t.buckets[b], row)
    case RekeyBucket(b, renamed) => b in t.buckets && renamed !in t.buckets && !IsParent(t.buckets, b)
    case DeleteBucket(b) => b in t.buckets && !IsParent(t.buckets, b)
  }

  /** The tables with the statement's row written, whatever the triggers say. */
  function Written(t: Tables, s: Step): Tables {
    match s
    case InsertAccount(a, row) => t.(accounts := t.accounts[a := row])
    case UpdateAccount(a, row) => t.(accounts := t.accounts[a := row])
    case DeleteAccount(a) => t.(accounts := t.accounts - {a})
    case InsertBucket(b, row) => t.(buckets := t.buckets[b := row])
    case UpdateBucket(b, row) => t.(buckets := t.buckets[b := row])
    case RekeyBucket(b, renamed) =>
      if b in t.buckets then t.(buckets := (t.buckets - {b})[renamed := t.buckets[b]]) else t
    case DeleteBucket(b) => t.(buckets := t.buckets - {b})
  }

  function Effect(t: Tables, s: Step): Tables
    requires Admits(t, s)
  {
    Written(t, s)
  }

  // ----- many identifiers rewritten at once ------------------------------------------------------------

  /** One UPDATE giving several buckets new identifiers; `origin` says which row each identifier goes to. */
  function Rekeyed(buckets: Buckets, origin: map<BucketId, BucketId>): Buckets
    requires forall n | n in origin :: origin[n] in buckets
  {
    map n | n in origin :: buckets[origin[n]]
  }

  /** Every row gets one identifier. */
  predicate IsRenaming(buckets: Buckets, origin: map<BucketId, BucketId>) {
    && (forall n | n in origin :: origin[n] in buckets)
    && (forall b | b in buckets :: exists n | n in origin :: origin[n] == b)
    && (forall m, n | m in origin && n in origin && m != n :: origin[m] != origin[n])
  }

  /** The foreign key and the CHECK, as they are tested when the statement ends; no trigger fires. */
  predicate KeysHold(buckets: Buckets) {
    forall b | b in buckets && buckets[b].parent.Some? ::
      buckets[b].parent.value in buckets && buckets[b].parent != Some(b)
  }

  predicate AdmitsRewrite(t: Tables, origin: map<BucketId, BucketId>) {
    IsRenaming(t.buckets, origin) && KeysHold(Rekeyed(t.buckets, origin))
  }

  function Rewritten(t: Tables, origin: map<BucketId, BucketId>): Tables
    requires forall n | n in origin :: origin[n] in t.buckets
  {
    t.(buckets := Rekeyed(t.buckets, origin))
  }

  /** Any statement: one that writes one row, or one that rewrites many identifiers. */
  datatype Statement = OneRow(step: Step) | ManyRows(origin: map<BucketId, BucketId>)

  predicate Accepts(t: Tables, x: Statement) {
    match x
    case OneRow(s) => Admits(t, s)
    case ManyRows(origin) => AdmitsRewrite(t, origin)
  }

  /** Refused statements leave the tables as they were. */
  function After(t: Tables, x: Statement): Tables {
    if !Accepts(t, x) then t
    else
      match x
      case OneRow(s) => Effect(t, s)
      case ManyRows(origin) => Rewritten(t, origin)
  }

  function History(statements: seq<Statement>): Tables {
    if statements == [] then Tables(map[], map[])
    else After(History(statements[..|statements| - 1]), statements[|statements| - 1])
  }

  // ----- the forest ------------------------------------------------------------------------------

  /** Every bucket is ranked above its parent. */
  ghost predicate Ranks(buckets: Buckets, rank: map<BucketId, nat>) {
    && buckets.Keys <= rank.Keys
    && forall b | b in buckets && buckets[b].parent.Some? ::
         buckets[b].parent.value in buckets && rank[buckets[b].parent.value] < rank[b]
  }

  ghost predicate Scoped(t: Tables) {
    forall b | b in t.buckets :: InScope(t, t.buckets[b])
  }

  ghost predicate Sound(t: Tables) {
    Scoped(t) && exists rank :: Ranks(t.buckets, rank)
  }

  lemma StepKeepsSound(t: Tables, s: Step)
    requires Sound(t) && Admits(t, s)
    ensures Sound(Effect(t, s))
  {
    var rank :| Ranks(t.buckets, rank);
    var u := Effect(t, s);
    match s
    case InsertBucket(b, row) =>
      var above := if row.parent.Some? then rank[row.parent.value] else 0;
      forall c | c in t.buckets ensures t.buckets[c].parent != Some(b) {
        assert InScope(t, t.buckets[c]);
      }
      assert Ranks(u.buckets, rank[b := above + 1]);
    case RekeyBucket(b, renamed) =>
      forall c | c in t.buckets ensures t.buckets[c].parent != Some(renamed) {
        assert InScope(t, t.buckets[c]);
      }
      assert Ranks(u.buckets, rank[renamed := rank[b]]);
    case _ =>
      assert Ranks(u.buckets, rank);
  }

  // ----- walking towards the root -------------------------------------------------------------------

  /** The bucket `n` levels above `b`, if the walk gets that far. */
  function Above(buckets: Buckets, b: BucketId, n: nat): Option<BucketId>
    decreases n
  {
    if b !in buckets then None
    else if n == 0 then Some(b)
    else if buckets[b].parent.None? then None
    else Above(buckets, buckets[b].parent.value, n - 1)
  }

  ghost predicate EndsAtARoot(buckets: Buckets, b: BucketId, n: nat) {
    var root := Above(buckets, b, n);
    root.Some? && root.value in buckets && buckets[root.value].parent.None?
  }

  lemma {:induction false} WalkEnds(buckets: Buckets, rank: map<BucketId, nat>, b: BucketId)
    requires Ranks(buckets, rank) && b in buckets
    ensures exists n: nat :: EndsAtARoot(buckets, b, n)
    decreases rank[b]
  {
    if buckets[b].parent.None? {
      assert EndsAtARoot(buckets, b, 0);
    } else {
      WalkEnds(buckets, rank, buckets[b].parent.value);
      var n: nat :| EndsAtARoot(buckets, buckets[b].parent.value, n);
      assert EndsAtARoot(buckets, b, n + 1);
    }
  }

  lemma {:induction false} WalkDescends(buckets: Buckets, rank: map<BucketId, nat>, b: BucketId, n: nat)
    requires Ranks(buckets, rank) && n > 0 && Above(buckets, b, n).Some?
    ensures Above(buckets, b, n).value in buckets && rank[Above(buckets, b, n).value] < rank[b]
    decreases n
  {
    if n > 1 {
      WalkDescends(buckets, rank, buckets[b].parent.value, n - 1);
    }
  }

  lemma {:induction false} WalkStaysInScope(t: Tables, b: BucketId, n: nat)
    requires Scoped(t) && Above(t.buckets, b, n).Some?
    ensures var a := Above(t.buckets, b, n).value;
            && a in t.buckets
            && t.buckets[a].account == t.buckets[b].account
            && t.buckets[a].kind == t.buckets[b].kind
    decreases n
  {
    if n > 0 {
      assert InScope(t, t.buckets[b]);
      WalkStaysInScope(t, t.buckets[b].parent.value, n - 1);
    }
  }

  ghost predicate NeverReturns(buckets: Buckets, b: BucketId) {
    forall n: nat | n > 0 :: Above(buckets, b, n) != Some(b)
  }

  ghost predicate StaysInScope(t: Tables, b: BucketId)
    requires b in t.buckets
  {
    var row := t.buckets[b];
    && row.account in t.accounts && t.accounts[row.account].kind == row.kind
    && forall n: nat, a | Above(t.buckets, b, n) == Some(a) ::
         a in t.buckets && t.buckets[a].account == row.account && t.buckets[a].kind == row.kind
  }

  lemma WalkNeverReturns(buckets: Buckets, rank: map<BucketId, nat>, b: BucketId)
    requires Ranks(buckets, rank)
    ensures NeverReturns(buckets, b)
  {
    forall n: nat | n > 0 ensures Above(buckets, b, n) != Some(b) {
      if Above(buckets, b, n).Some? {
        WalkDescends(buckets, rank, b, n);
      }
    }
  }

  lemma WalkHasOneScope(t: Tables, b: BucketId)
    requires Scoped(t) && b in t.buckets
    ensures StaysInScope(t, b)
  {
    assert InScope(t, t.buckets[b]);
    forall n: nat, a | Above(t.buckets, b, n) == Some(a)
      ensures a in t.buckets && t.buckets[a].account == t.buckets[b].account && t.buckets[a].kind == t.buckets[b].kind
    {
      WalkStaysInScope(t, b, n);
    }
  }

  // ----- the walks say it all -----------------------------------------------------------------------

  ghost predicate WalkEndsSomewhere(buckets: Buckets, b: BucketId) {
    exists n: nat :: EndsAtARoot(buckets, b, n)
  }

  ghost predicate WalksScoped(t: Tables) {
    forall b | b in t.buckets :: WalkEndsSomewhere(t.buckets, b) && NeverReturns(t.buckets, b) && StaysInScope(t, b)
  }

  lemma {:induction false} OneHeight(buckets: Buckets, b: BucketId, m: nat, n: nat)
    requires EndsAtARoot(buckets, b, m) && EndsAtARoot(buckets, b, n)
    ensures m == n
    decreases m
  {
    if buckets[b].parent.Some? {
      OneHeight(buckets, buckets[b].parent.value, m - 1, n - 1);
    }
  }

  /** How far the root is, where there is one. */
  ghost function Height(buckets: Buckets, b: BucketId): nat {
    if n: nat :| EndsAtARoot(buckets, b, n) then n else 0
  }

  lemma HeightsRank(buckets: Buckets)
    requires forall b | b in buckets :: WalkEndsSomewhere(buckets, b)
    ensures Ranks(buckets, map b | b in buckets :: Height(buckets, b))
  {
    forall b | b in buckets && buckets[b].parent.Some?
      ensures buckets[b].parent.value in buckets && Height(buckets, buckets[b].parent.value) < Height(buckets, b)
    {
      var p := buckets[b].parent.value;
      assert WalkEndsSomewhere(buckets, b);
      var n := Height(buckets, b);
      assert EndsAtARoot(buckets, b, n) && n > 0;
      assert EndsAtARoot(buckets, p, n - 1);
      OneHeight(buckets, p, n - 1, Height(buckets, p));
    }
  }

  lemma WalksScopeTheTable(t: Tables)
    requires forall b | b in t.buckets :: StaysInScope(t, b)
    requires forall b | b in t.buckets && t.buckets[b].parent.Some? :: t.buckets[b].parent.value in t.buckets
    ensures Scoped(t)
  {
    forall b | b in t.buckets ensures InScope(t, t.buckets[b]) {
      assert StaysInScope(t, b);
      if t.buckets[b].parent.Some? {
        assert Above(t.buckets, t.buckets[b].parent.value, 0) == t.buckets[b].parent;
        assert Above(t.buckets, b, 1) == t.buckets[b].parent;
      }
    }
  }

  lemma SoundWalksAreScoped(t: Tables)
    requires Sound(t)
    ensures WalksScoped(t)
  {
    var rank :| Ranks(t.buckets, rank);
    forall b | b in t.buckets
      ensures WalkEndsSomewhere(t.buckets, b) && NeverReturns(t.buckets, b) && StaysInScope(t, b)
    {
      WalkEnds(t.buckets, rank, b);
      WalkNeverReturns(t.buckets, rank, b);
      WalkHasOneScope(t, b);
    }
  }

  lemma EndedWalksHaveParents(buckets: Buckets, b: BucketId)
    requires WalkEndsSomewhere(buckets, b) && b in buckets && buckets[b].parent.Some?
    ensures buckets[b].parent.value in buckets
  {
    var n: nat :| EndsAtARoot(buckets, b, n);
    assert n > 0 && Above(buckets, buckets[b].parent.value, n - 1).Some?;
  }

  /** The tables are sound exactly when every walk ends, never returns, and keeps its scope. */
  lemma SoundIffWalksScoped(t: Tables)
    ensures Sound(t) <==> WalksScoped(t)
  {
    if Sound(t) {
      SoundWalksAreScoped(t);
    }
    if WalksScoped(t) {
      HeightsRank(t.buckets);
      forall b | b in t.buckets && t.buckets[b].parent.Some? ensures t.buckets[b].parent.value in t.buckets {
        EndedWalksHaveParents(t.buckets, b);
      }
      WalksScopeTheTable(t);
    }
  }

  // ----- what a rewrite of many identifiers keeps ---------------------------------------------------------

  /** An identifier that some child names and that goes to another row. */
  predicate TakenOver(buckets: Buckets, origin: map<BucketId, BucketId>, p: BucketId) {
    IsParent(buckets, p) && p in origin && origin[p] != p
  }

  /** Walking up from `b` in the old tables, the first parent's identifier that is taken over. */
  function FirstTaken(buckets: Buckets, origin: map<BucketId, BucketId>, b: BucketId, n: nat): Option<BucketId>
    decreases n
  {
    if b !in buckets || buckets[b].parent.None? then None
    else if TakenOver(buckets, origin, buckets[b].parent.value) then buckets[b].parent
    else if n == 0 then None
    else FirstTaken(buckets, origin, buckets[b].parent.value, n - 1)
  }

  /** The row that takes over `p` hangs below `q`, with no other identifier taken over between. */
  ghost predicate HangsBelow(buckets: Buckets, origin: map<BucketId, BucketId>, p: BucketId, q: BucketId)
    requires p in origin
  {
    exists n: nat :: FirstTaken(buckets, origin, origin[p], n) == Some(q)
  }

  /** The identifiers taken over can be ordered so that each goes to a row hanging only below smaller ones. */
  ghost predicate TakeoversDescend(buckets: Buckets, origin: map<BucketId, BucketId>) {
    exists order: map<BucketId, nat> :: Orders(buckets, origin, order)
  }

  ghost predicate Orders(buckets: Buckets, origin: map<BucketId, BucketId>, order: map<BucketId, nat>) {
    && (forall p | TakenOver(buckets, origin, p) :: p in order)
    && forall p, q | TakenOver(buckets, origin, p) && HangsBelow(buckets, origin, p, q) ::
         q in order && order[q] < order[p]
  }

  /** The row that takes an identifier over is of the account and kind of the row it is taken from. */
  ghost predicate TakersInScope(buckets: Buckets, origin: map<BucketId, BucketId>)
    requires IsRenaming(buckets, origin)
  {
    forall p | TakenOver(buckets, origin, p) && p in buckets ::
      buckets[origin[p]].account == buckets[p].account && buckets[origin[p]].kind == buckets[p].kind
  }

  lemma {:induction false} NewRanksDescend(buckets: Buckets, origin: map<BucketId, BucketId>, after: map<BucketId, nat>,
                                          m: BucketId, n: nat)
    requires IsRenaming(buckets, origin) && Ranks(Rekeyed(buckets, origin), after) && m in origin
    requires FirstTaken(buckets, origin, origin[m], n).Some?
    ensures var q := FirstTaken(buckets, origin, origin[m], n).value; q in origin && after[q] < after[m]
    decreases n
  {
    var now := Rekeyed(buckets, origin);
    var p := now[m].parent.value;
    assert p in now && after[p] < after[m];
    assert IsParent(buckets, p) by {
      assert buckets[origin[m]].parent == Some(p);
    }
    if !TakenOver(buckets, origin, p) {
      assert origin[p] == p;
      NewRanksDescend(buckets, origin, after, p, n - 1);
    }
  }

  lemma ForestOrdersTakeovers(buckets: Buckets, origin: map<BucketId, BucketId>, after: map<BucketId, nat>)
    requires IsRenaming(buckets, origin) && Ranks(Rekeyed(buckets, origin), after)
    ensures TakeoversDescend(buckets, origin)
  {
    var order := map p | p in origin :: after[p];
    forall p, q | TakenOver(buckets, origin, p) && HangsBelow(buckets, origin, p, q)
      ensures q in order && order[q] < order[p]
    {
      var n: nat :| FirstTaken(buckets, origin, origin[p], n) == Some(q);
      NewRanksDescend(buckets, origin, after, p, n);
    }
    assert Orders(buckets, origin, order);
  }

  lemma {:induction false} FirstTakenSettles(buckets: Buckets, rank: map<BucketId, nat>, origin: map<BucketId, BucketId>,
                                             b: BucketId, n: nat)
    requires Ranks(buckets, rank) && b in buckets && rank[b] <= n
    ensures FirstTaken(buckets, origin, b, n + 1) == FirstTaken(buckets, origin, b, n)
    decreases n
  {
    if buckets[b].parent.Some? && !TakenOver(buckets, origin, buckets[b].parent.value) && n > 0 {
      FirstTakenSettles(buckets, rank, origin, buckets[b].parent.value, n - 1);
    }
  }

  lemma {:induction false} FirstTakenIsTaken(buckets: Buckets, origin: map<BucketId, BucketId>, b: BucketId, n: nat)
    requires FirstTaken(buckets, origin, b, n).Some?
    ensures TakenOver(buckets, origin, FirstTaken(buckets, origin, b, n).value)
    decreases n
  {
    if !TakenOver(buckets, origin, buckets[b].parent.value) {
      FirstTakenIsTaken(buckets, origin, buckets[b].parent.value, n - 1);
    }
  }

  ghost predicate Capped(rank: map<BucketId, nat>, keys: set<BucketId>, top: nat) {
    forall b | b in keys && b in rank :: rank[b] < top
  }

  lemma {:induction false} RanksAreBounded(rank: map<BucketId, nat>, keys: set<BucketId>)
    requires keys <= rank.Keys
    ensures exists top: nat :: Capped(rank, keys, top)
    decreases |keys|
  {
    if keys == {} {
      assert Capped(rank, keys, 0);
    } else {
      var k :| k in keys;
      RanksAreBounded(rank, keys - {k});
      var top: nat :| Capped(rank, keys - {k}, top);
      assert Capped(rank, keys, top + rank[k] + 1);
    }
  }

  /** A row's new rank: by the takeover it hangs below first, and by its old rank there. */
  function NewRank(rank: nat, below: Option<nat>, top: nat): nat {
    if below.None? then rank else (below.value + 1) * top + rank
  }

  lemma NewRankOrders(rank: nat, other: nat, below: nat, over: Option<nat>, top: nat)
    requires other < top && (over.Some? ==> over.value < below)
    ensures NewRank(other, over, top) < NewRank(rank, Some(below), top)
  {
    if over.Some? {
      assert (over.value + 1) * top + top <= (below + 1) * top;
    }
  }

  lemma NewRankKeeps(rank: nat, other: nat, below: Option<nat>, top: nat)
    requires other < rank
    ensures NewRank(other, below, top) < NewRank(rank, below, top)
  {
  }

  ghost function Below(buckets: Buckets, origin: map<BucketId, BucketId>, order: map<BucketId, nat>, b: BucketId, top: nat)
    : Option<nat>
  {
    var q := FirstTaken(buckets, origin, b, top);
    if q.Some? && q.value in order then Some(order[q.value]) else None
  }

  lemma TakeoversKeepTheForest(buckets: Buckets, rank: map<BucketId, nat>, origin: map<BucketId, BucketId>,
                               order: map<BucketId, nat>)
    requires Ranks(buckets, rank) && IsRenaming(buckets, origin) && KeysHold(Rekeyed(buckets, origin))
    requires Orders(buckets, origin, order)
    ensures exists after :: Ranks(Rekeyed(buckets, origin), after)
  {
    RanksAreBounded(rank, buckets.Keys);
    var top: nat :| Capped(rank, buckets.Keys, top);
    var now := Rekeyed(buckets, origin);
    var after := map n | n in origin :: NewRank(rank[origin[n]], Below(buckets, origin, order, origin[n], top), top);
    forall n | n in now && now[n].parent.Some? ensures now[n].parent.value in now && after[now[n].parent.value] < after[n] {
      NewParentRanksBelow(buckets, rank, origin, order, n, top);
    }
    assert Ranks(now, after);
  }

  lemma NewParentRanksBelow(buckets: Buckets, rank: map<BucketId, nat>, origin: map<BucketId, BucketId>,
                            order: map<BucketId, nat>, n: BucketId, top: nat)
    requires Ranks(buckets, rank) && IsRenaming(buckets, origin) && KeysHold(Rekeyed(buckets, origin))
    requires Orders(buckets, origin, order) && Capped(rank, buckets.Keys, top)
    requires n in origin && buckets[origin[n]].parent.Some?
    ensures var p := buckets[origin[n]].parent.value;
            && p in origin
            && NewRank(rank[origin[p]], Below(buckets, origin, order, origin[p], top), top)
               < NewRank(rank[origin[n]], Below(buckets, origin, order, origin[n], top), top)
  {
    var b := origin[n];
    var p := buckets[b].parent.value;
    ParentIsRenamed(buckets, origin, n);
    RanksUnderTheCap(buckets, rank, b, top);
    RanksUnderTheCap(buckets, rank, origin[p], top);
    if TakenOver(buckets, origin, p) {
      assert FirstTaken(buckets, origin, b, top) == Some(p);
      TakerRanksBelow(buckets, origin, order, p, top);
      NewRankOrders(rank[b], rank[origin[p]], order[p], Below(buckets, origin, order, origin[p], top), top);
    } else {
      FirstTakenPassesUp(buckets, rank, origin, b, top);
      NewRankKeeps(rank[b], rank[p], Below(buckets, origin, order, p, top), top);
    }
  }

  lemma RanksUnderTheCap(buckets: Buckets, rank: map<BucketId, nat>, b: BucketId, top: nat)
    requires Ranks(buckets, rank) && Capped(rank, buckets.Keys, top) && b in buckets
    ensures b in rank && rank[b] < top
    ensures buckets[b].parent.Some? ==>
              buckets[b].parent.value in buckets && buckets[b].parent.value in rank && rank[buckets[b].parent.value] < rank[b]
  {
    assert b in buckets.Keys;
  }

  lemma FirstTakenPassesUp(buckets: Buckets, rank: map<BucketId, nat>, origin: map<BucketId, BucketId>, b: BucketId, top: nat)
    requires Ranks(buckets, rank) && Capped(rank, buckets.Keys, top) && b in buckets && buckets[b].parent.Some?
    requires !TakenOver(buckets, origin, buckets[b].parent.value)
    ensures FirstTaken(buckets, origin, b, top) == FirstTaken(buckets, origin, buckets[b].parent.value, top)
  {
    RanksUnderTheCap(buckets, rank, b, top);
    FirstTakenSettles(buckets, rank, origin, buckets[b].parent.value, top - 1);
  }

  lemma ParentIsRenamed(buckets: Buckets, origin: map<BucketId, BucketId>, n: BucketId)
    requires IsRenaming(buckets, origin) && KeysHold(Rekeyed(buckets, origin))
    requires n in origin && buckets[origin[n]].parent.Some?
    ensures var p := buckets[origin[n]].parent.value;
            IsParent(buckets, p) && p in origin && (!TakenOver(buckets, origin, p) ==> origin[p] == p)
  {
    assert n in Rekeyed(buckets, origin);
  }

  lemma TakerRanksBelow(buckets: Buckets, origin: map<BucketId, BucketId>, order: map<BucketId, nat>, p: BucketId, top: nat)
    requires Orders(buckets, origin, order) && TakenOver(buckets, origin, p)
    ensures p in order
    ensures var over := Below(buckets, origin, order, origin[p], top); over.Some? ==> over.value < order[p]
  {
    var q := FirstTaken(buckets, origin, origin[p], top);
    if q.Some? {
      assert HangsBelow(buckets, origin, p, q.value);
    }
  }

  lemma RewriteKeepsScopeIff(t: Tables, origin: map<BucketId, BucketId>)
    requires Scoped(t) && AdmitsRewrite(t, origin)
    ensures Scoped(Rewritten(t, origin)) <==> TakersInScope(t.buckets, origin)
  {
    var u := Rewritten(t, origin);
    if TakersInScope(t.buckets, origin) {
      forall n | n in u.buckets ensures InScope(u, u.buckets[n]) {
        assert InScope(t, t.buckets[origin[n]]);
        if u.buckets[n].parent.Some? {
          var p := u.buckets[n].parent.value;
          assert p in u.buckets && IsParent(t.buckets, p);
          assert origin[p] != p ==> TakenOver(t.buckets, origin, p);
        }
      }
    }
    if Scoped(u) {
      forall p | TakenOver(t.buckets, origin, p) && p in t.buckets
        ensures t.buckets[origin[p]].account == t.buckets[p].account && t.buckets[origin[p]].kind == t.buckets[p].kind
      {
        var c :| c in t.buckets && t.buckets[c].parent == Some(p);
        var n :| n in origin && origin[n] == c;
        assert InScope(t, t.buckets[c]) && n in u.buckets && InScope(u, u.buckets[n]);
      }
    }
  }

  /**
   A rewrite of any number of identifiers that the keys let through keeps every walk
   ending, and in one account and kind, exactly when each identifier taken over goes to a
   row of the same scope, and no takeovers hang below each other in a ring.
   */
  lemma RewriteKeepsWalksIff(t: Tables, origin: map<BucketId, BucketId>)
    requires Sound(t) && AdmitsRewrite(t, origin)
    ensures Sound(Rewritten(t, origin)) <==> TakersInScope(t.buckets, origin) && TakeoversDescend(t.buckets, origin)
    ensures WalksScoped(Rewritten(t, origin)) <==> TakersInScope(t.buckets, origin) && TakeoversDescend(t.buckets, origin)
  {
    var u := Rewritten(t, origin);
    RewriteKeepsScopeIff(t, origin);
    SoundIffWalksScoped(u);
    if rank :| Ranks(u.buckets, rank) {
      ForestOrdersTakeovers(t.buckets, origin, rank);
    }
    if TakeoversDescend(t.buckets, origin) {
      var rank :| Ranks(t.buckets, rank);
      var order :| Orders(t.buckets, origin, order);
      TakeoversKeepTheForest(t.buckets, rank, origin, order);
    }
  }

  // ----- one identifier taken over ------------------------------------------------------------------------

  lemma {:induction false} TakenIsAbove(buckets: Buckets, origin: map<BucketId, BucketId>, b: BucketId, n: nat)
    requires forall c | c in buckets && buckets[c].parent.Some? :: buckets[c].parent.value in buckets
    requires FirstTaken(buckets, origin, b, n).Some?
    ensures exists k: nat :: Above(buckets, b, k) == FirstTaken(buckets, origin, b, n)
    decreases n
  {
    var p := buckets[b].parent.value;
    if TakenOver(buckets, origin, p) {
      assert Above(buckets, p, 0) == Some(p);
      assert Above(buckets, b, 1) == Some(p);
    } else {
      TakenIsAbove(buckets, origin, p, n - 1);
      var k: nat :| Above(buckets, p, k) == FirstTaken(buckets, origin, p, n - 1);
      assert Above(buckets, b, k + 1) == Above(buckets, p, k);
    }
  }

  lemma {:induction false} AboveIsTaken(buckets: Buckets, origin: map<BucketId, BucketId>, p: BucketId, b: BucketId, k: nat)
    requires TakenOver(buckets, origin, p) && forall q | TakenOver(buckets, origin, q) :: q == p
    requires b != p && Above(buckets, b, k) == Some(p)
    ensures FirstTaken(buckets, origin, b, k) == Some(p)
    decreases k
  {
    var q := buckets[b].parent.value;
    if q != p {
      AboveIsTaken(buckets, origin, p, q, k - 1);
    }
  }

  /** When one identifier is taken over: exactly when its new row has the old one's scope and does not lie below it. */
  lemma OneTakeoverKeepsWalksIff(t: Tables, origin: map<BucketId, BucketId>, p: BucketId)
    requires Sound(t) && AdmitsRewrite(t, origin)
    requires TakenOver(t.buckets, origin, p) && forall q | TakenOver(t.buckets, origin, q) :: q == p
    ensures WalksScoped(Rewritten(t, origin)) <==>
            && TakersInScope(t.buckets, origin)
            && forall k: nat :: Above(t.buckets, origin[p], k) != Some(p)
  {
    RewriteKeepsWalksIff(t, origin);
    var buckets := t.buckets;
    if k: nat :| Above(buckets, origin[p], k) == Some(p) {
      AboveIsTaken(buckets, origin, p, origin[p], k);
      assert HangsBelow(buckets, origin, p, p);
    } else {
      forall q, x | TakenOver(buckets, origin, q) && HangsBelow(buckets, origin, q, x) ensures false {
        var n: nat :| FirstTaken(buckets, origin, origin[q], n) == Some(x);
        FirstTakenIsTaken(buckets, origin, origin[q], n);
        TakenIsAbove(buckets, origin, origin[q], n);
      }
      assert Orders(buckets, origin, map[p := 0]);
    }
  }

  // ----- the declared rules --------------------------------------------------------------------------------

  /** A bucket's account and its parent are there, are of its kind, and the parent is another bucket of its account. */
  ghost predicate BucketDeclared(t: Tables, b: BucketId)
    requires b in t.buckets
  {
    var row := t.buckets[b];
    && row.account in t.accounts && row.kind == t.accounts[row.account].kind
    && (row.parent.Some? ==>
          && row.parent.value in t.buckets && row.parent.value != b
          && row.account == t.buckets[row.parent.value].account && row.kind == t.buckets[row.parent.value].kind)
  }

  ghost predicate Declared(t: Tables) {
    forall b | b in t.buckets :: BucketDeclared(t, b)
  }

  /** No account changes its kind, and no bucket under its identifier changes account, parent or kind. */
  ghost predicate Keeps(t: Tables, u: Tables) {
    && (forall a | a in t.accounts && a in u.accounts :: u.accounts[a].kind == t.accounts[a].kind)
    && (forall b | b in t.buckets && b in u.buckets ::
          && u.buckets[b].account == t.buckets[b].account
          && u.buckets[b].parent == t.buckets[b].parent
          && u.buckets[b].kind == t.buckets[b].kind)
  }

  /** An INSERT and a new identifier find the key unused; an UPDATE and a DELETE find their row. */
  predicate Finds(t: Tables, s: Step) {
    match s
    case InsertAccount(a, _) => a !in t.accounts
    case UpdateAccount(a, _) => a in t.accounts
    case DeleteAccount(a) => a in t.accounts
    case InsertBucket(b, _) => b !in t.buckets
    case UpdateBucket(b, _) => b in t.buckets
    case RekeyBucket(b, renamed) => b in t.buckets && renamed !in t.buckets
    case DeleteBucket(b) => b in t.buckets
  }

  /** The guards let through exactly the statements after which everything declared holds and nothing fixed changed. */
  lemma AcceptedIff(t: Tables, s: Step)
    requires Declared(t)
    ensures Admits(t, s) <==> Finds(t, s) && Declared(Written(t, s)) && Keeps(t, Written(t, s))
  {
    if s.InsertAccount? || s.UpdateAccount? || s.DeleteAccount? {
      AccountStatementsAccepted(t, s);
    } else {
      BucketStatementsAccepted(t, s);
    }
  }

  lemma AccountStatementsAccepted(t: Tables, s: Step)
    requires Declared(t) && (s.InsertAccount? || s.UpdateAccount? || s.DeleteAccount?)
    ensures Admits(t, s) <==> Finds(t, s) && Declared(Written(t, s)) && Keeps(t, Written(t, s))
  {
    var u := Written(t, s);
    assert !s.DeleteAccount? ==> u.accounts[s.account] == s.accountRow;
    if Admits(t, s) {
      forall b | b in u.buckets ensures BucketDeclared(u, b) {
        assert BucketDeclared(t, b);
      }
    }
    if s.DeleteAccount? && Finds(t, s) && Declared(u) {
      forall b | b in t.buckets ensures t.buckets[b].account != s.account {
        assert BucketDeclared(u, b);
      }
    }
  }

  lemma BucketStatementsAccepted(t: Tables, s: Step)
    requires Declared(t) && (s.InsertBucket? || s.UpdateBucket? || s.RekeyBucket? || s.DeleteBucket?)
    ensures Admits(t, s) <==> Finds(t, s) && Declared(Written(t, s)) && Keeps(t, Written(t, s))
  {
    var u := Written(t, s);
    if Admits(t, s) {
      forall b | b in u.buckets ensures BucketDeclared(u, b) {
        assert b in t.buckets ==> BucketDeclared(t, b);
        assert s.RekeyBucket? && b == s.renamed ==> BucketDeclared(t, s.bucket);
      }
    }
    if Finds(t, s) && Declared(u) && Keeps(t, u) {
      if s.InsertBucket? || s.UpdateBucket? {
        assert u.buckets[s.bucket] == s.bucketRow && BucketDeclared(u, s.bucket);
      } else {
        forall c | c in t.buckets ensures t.buckets[c].parent != Some(s.bucket) {
          assert BucketDeclared(t, c);
          assert c != s.bucket ==> BucketDeclared(u, c);
        }
      }
    }
  }

  lemma {:induction false} OneRowKeepsDeclared(statements: seq<Statement>)
    requires forall x | x in statements :: x.OneRow?
    ensures Declared(History(statements))
  {
    if statements != [] {
      var init, last := statements[..|statements| - 1], statements[|statements| - 1];
      assert last in statements;
      OneRowKeepsDeclared(init);
      AcceptedIff(History(init), last.step);
    }
  }

  /**
   A rewrite gives each row one identifier, and is accepted exactly when every identifier
   a child names stays in use and does not go to a child of the bucket it is taken from.
   */
  lemma RewriteAcceptedIff(t: Tables, origin: map<BucketId, BucketId>)
    ensures Accepts(t, ManyRows(origin)) <==>
              && (forall n | n in origin :: origin[n] in t.buckets)
              && (forall b | b in t.buckets :: GivenOnce(origin, b))
              && (forall p | IsParent(t.buckets, p) :: p in origin && t.buckets[origin[p]].parent != Some(p))
  {
    RenamesIff(t.buckets, origin);
    if IsRenaming(t.buckets, origin) {
      KeysHoldIff(t.buckets, origin);
    }
  }

  lemma RenamesIff(buckets: Buckets, origin: map<BucketId, BucketId>)
    ensures IsRenaming(buckets, origin) <==>
              (forall n | n in origin :: origin[n] in buckets) && (forall b | b in buckets :: GivenOnce(origin, b))
  {
    if forall b | b in buckets :: GivenOnce(origin, b) {
      forall m, n | m in origin && n in origin && m != n && origin[n] in buckets ensures origin[m] != origin[n] {
        assert GivenOnce(origin, origin[n]);
      }
      forall b | b in buckets ensures exists n | n in origin :: origin[n] == b {
        assert GivenOnce(origin, b);
      }
    }
  }

  lemma KeysHoldIff(buckets: Buckets, origin: map<BucketId, BucketId>)
    requires IsRenaming(buckets, origin)
    ensures KeysHold(Rekeyed(buckets, origin)) <==>
              forall p | IsParent(buckets, p) :: p in origin && buckets[origin[p]].parent != Some(p)
  {
    var now := Rekeyed(buckets, origin);
    if KeysHold(now) {
      forall p | IsParent(buckets, p) ensures p in origin && buckets[origin[p]].parent != Some(p) {
        var c :| c in buckets && buckets[c].parent == Some(p);
        var n :| n in origin && origin[n] == c;
        assert n in now && now[n].parent == Some(p);
      }
    }
  }

  /** Exactly one identifier goes to the row `b`. */
  ghost predicate GivenOnce(origin: map<BucketId, BucketId>, b: BucketId) {
    exists n :: n in origin && origin[n] == b && forall m | m in origin && origin[m] == b :: m == n
  }

  // ----- over any statements ------------------------------------------------------------------------------

  /** A rewrite meets the condition on the table it is run on; a statement on one row has none to meet. */
  ghost predicate KeepsForest(t: Tables, x: Statement) {
    x.ManyRows? && AdmitsRewrite(t, x.origin) ==>
      TakersInScope(t.buckets, x.origin) && TakeoversDescend(t.buckets, x.origin)
  }

  ghost predicate AllKeepForest(statements: seq<Statement>) {
    statements == [] ||
    (var init := statements[..|statements| - 1];
     AllKeepForest(init) && KeepsForest(History(init), statements[|statements| - 1]))
  }

  /** Every walk ends at a root, never returns and keeps its scope, after every statement. */
  ghost predicate ScopedThroughout(statements: seq<Statement>) {
    statements == [] ||
    (ScopedThroughout(statements[..|statements| - 1]) && WalksScoped(History(statements)))
  }

  lemma StatementKeepsSoundIff(t: Tables, x: Statement)
    requires Sound(t)
    ensures Sound(After(t, x)) <==> KeepsForest(t, x)
  {
    if Accepts(t, x) {
      match x
      case OneRow(s) => StepKeepsSound(t, s);
      case ManyRows(origin) => RewriteKeepsWalksIff(t, origin);
    }
  }

  lemma ThroughoutIsNow(statements: seq<Statement>)
    requires ScopedThroughout(statements)
    ensures Sound(History(statements))
  {
    if statements == [] {
      assert Ranks(History([]).buckets, map[]);
    }
    SoundIffWalksScoped(History(statements));
  }

  /** Walks stay scoped throughout exactly when every rewrite of many identifiers meets the condition where it is run. */
  lemma {:induction false} ScopedThroughoutIff(statements: seq<Statement>)
    ensures ScopedThroughout(statements) <==> AllKeepForest(statements)
  {
    if statements != [] {
      var init, last := statements[..|statements| - 1], statements[|statements| - 1];
      ScopedThroughoutIff(init);
      if ScopedThroughout(init) {
        ThroughoutIsNow(init);
        StatementKeepsSoundIff(History(init), last);
        SoundIffWalksScoped(History(statements));
      }
    }
  }

  lemma {:induction false} OneRowAtATime(statements: seq<Statement>)
    requires forall x | x in statements :: x.OneRow?
    ensures AllKeepForest(statements)
  {
    if statements != [] {
      assert statements[|statements| - 1] in statements;
      OneRowAtATime(statements[..|statements| - 1]);
    }
  }

  /**
   In particular after any statements that write one row each: the walk from any bucket
   reaches a root, never comes back to where it started, and meets only buckets of the
   account and the source kind it began in, which is the kind of that account.
   */
  lemma EveryWalkIsScoped(statements: seq<Statement>, b: BucketId)
    requires forall x | x in statements :: x.OneRow?
    requires b in History(statements).buckets
    ensures exists n: nat :: EndsAtARoot(History(statements).buckets, b, n)
    ensures NeverReturns(History(statements).buckets, b)
    ensures StaysInScope(History(statements), b)
  {
    OneRowAtATime(statements);
    ScopedThroughoutIff(statements);
    ThroughoutIsNow(statements);
    SoundWalksAreScoped(History(statements));
    assert WalkEndsSomewhere(History(statements).buckets, b);
  }

  // ----- a ring that is reached -----------------------------------------------------------------------------

  function MailBucket(parent: Option<BucketId>): BucketRow {
    BucketRow(Account(0), parent, Mail, "")
  }

  /** Three buckets in line, each under the one before. */
  const LINE: seq<Statement> := [
    OneRow(InsertAccount(Account(0), AccountRow(Mail, ""))),
    OneRow(InsertBucket(Bucket(1), MailBucket(None))),
    OneRow(InsertBucket(Bucket(2), MailBucket(Some(Bucket(1))))),
    OneRow(InsertBucket(Bucket(3), MailBucket(Some(Bucket(2)))))]

  /** The first is renamed and the last is given its identifier. */
  const SHIFT := map[Bucket(4) := Bucket(1), Bucket(2) := Bucket(2), Bucket(1) := Bucket(3)]

  lemma HistoryTakesOne(statements: seq<Statement>, x: Statement)
    ensures History(statements + [x]) == After(History(statements), x)
  {
    assert (statements + [x])[..|statements|] == statements;
  }

  lemma LineIsReached()
    ensures var t := History(LINE);
            && t.accounts == map[Account(0) := AccountRow(Mail, "")]
            && t.buckets == map[Bucket(1) := MailBucket(None), Bucket(2) := MailBucket(Some(Bucket(1))),
                                Bucket(3) := MailBucket(Some(Bucket(2)))]
  {
    assert LINE == [] + [LINE[0]] + [LINE[1]] + [LINE[2]] + [LINE[3]];
    assert History([]) == Tables(map[], map[]);
    HistoryTakesOne([], LINE[0]);
    HistoryTakesOne([] + [LINE[0]], LINE[1]);
    HistoryTakesOne([] + [LINE[0]] + [LINE[1]], LINE[2]);
    HistoryTakesOne([] + [LINE[0]] + [LINE[1]] + [LINE[2]], LINE[3]);
  }

  lemma ShiftIsAdmitted(t: Tables)
    requires t.buckets == map[Bucket(1) := MailBucket(None), Bucket(2) := MailBucket(Some(Bucket(1))),
                              Bucket(3) := MailBucket(Some(Bucket(2)))]
    ensures AdmitsRewrite(t, SHIFT)
  {
    ShiftRenames(t.buckets);
    var now := Rekeyed(t.buckets, SHIFT);
    forall n | n in now && now[n].parent.Some? ensures now[n].parent.value in now && now[n].parent != Some(n) {
      ShiftRow(t.buckets, n);
    }
  }

  lemma ShiftRow(buckets: Buckets, n: BucketId)
    requires buckets == map[Bucket(1) := MailBucket(None), Bucket(2) := MailBucket(Some(Bucket(1))),
                            Bucket(3) := MailBucket(Some(Bucket(2)))]
    requires n in SHIFT
    ensures buckets[SHIFT[n]].parent
            == if n == Bucket(4) then None else if n == Bucket(2) then Some(Bucket(1)) else Some(Bucket(2))
    ensures n == Bucket(1) || n == Bucket(2) || n == Bucket(4)
  {
    assert SHIFT[Bucket(4)] == Bucket(1) && SHIFT[Bucket(2)] == Bucket(2) && SHIFT[Bucket(1)] == Bucket(3);
  }

  lemma ShiftRenames(buckets: Buckets)
    requires buckets.Keys == {Bucket(1), Bucket(2), Bucket(3)}
    ensures IsRenaming(buckets, SHIFT)
  {
    assert SHIFT[Bucket(4)] == Bucket(1) && SHIFT[Bucket(2)] == Bucket(2) && SHIFT[Bucket(1)] == Bucket(3);
    forall b | b in buckets ensures exists n | n in SHIFT :: SHIFT[n] == b {
      assert b == Bucket(1) || b == Bucket(2) || b == Bucket(3);
    }
  }

  lemma ShiftTakesTheFirst(t: Tables)
    requires t.buckets == map[Bucket(1) := MailBucket(None), Bucket(2) := MailBucket(Some(Bucket(1))),
                              Bucket(3) := MailBucket(Some(Bucket(2)))]
    ensures TakenOver(t.buckets, SHIFT, Bucket(1)) && forall q | TakenOver(t.buckets, SHIFT, q) :: q == Bucket(1)
    ensures Above(t.buckets, Bucket(3), 2) == Some(Bucket(1))
  {
    assert SHIFT[Bucket(1)] == Bucket(3) && SHIFT[Bucket(2)] == Bucket(2);
    assert t.buckets[Bucket(2)].parent == Some(Bucket(1));
    assert Above(t.buckets, Bucket(2), 1) == Above(t.buckets, Bucket(1), 0);
  }

  lemma LineIsScoped()
    ensures ScopedThroughout(LINE) && Sound(History(LINE))
  {
    OneRowAtATime(LINE);
    ScopedThroughoutIff(LINE);
    ThroughoutIsNow(LINE);
  }

  lemma ShiftClosesACycle(t: Tables)
    requires t.buckets == map[Bucket(1) := MailBucket(None), Bucket(2) := MailBucket(Some(Bucket(1))),
                              Bucket(3) := MailBucket(Some(Bucket(2)))]
    requires Sound(t)
    ensures AdmitsRewrite(t, SHIFT) && !WalksScoped(Rewritten(t, SHIFT))
  {
    ShiftIsAdmitted(t);
    ShiftTakesTheFirst(t);
    assert SHIFT[Bucket(1)] == Bucket(3);
    OneTakeoverKeepsWalksIff(t, SHIFT, Bucket(1));
  }

  lemma RewriteIsTaken(statements: seq<Statement>, origin: map<BucketId, BucketId>)
    requires AdmitsRewrite(History(statements), origin)
    ensures Accepts(History(statements), ManyRows(origin))
    ensures History(statements + [ManyRows(origin)]) == Rewritten(History(statements), origin)
  {
    HistoryTakesOne(statements, ManyRows(origin));
  }

  /** Statements lead to a table on which a rewrite that every key accepts leaves a walk without an end. */
  lemma RekeyingCanCloseACycle()
    ensures ScopedThroughout(LINE) && Accepts(History(LINE), ManyRows(SHIFT))
    ensures !WalksScoped(History(LINE + [ManyRows(SHIFT)]))
  {
    LineIsScoped();
    LineIsReached();
    ShiftClosesACycle(History(LINE));
    RewriteIsTaken(LINE, SHIFT);
  }

  // ----- the tables themselves --------------------------------------------------------------------------

  lemma StatementKeepsSound(t: Tables, x: Statement)
    ensures Sound(t) ==> (Sound(After(t, x)) <==> KeepsForest(t, x))
  {
    if Sound(t) {
      StatementKeepsSoundIff(t, x);
    }
  }

  class BucketTables {
    var accounts: map<AccountId, AccountRow>
    var buckets: Buckets
    ghost var statements: seq<Statement>

    function Contents(): Tables
      reads this
    {
      Tables(accounts, buckets)
    }

    ghost predicate Valid()
      reads this
    {
      Contents() == History(statements)
    }

    constructor ()
      ensures Valid() && statements == []
    {
      accounts, buckets, statements := map[], map[], [];
    }

    method Execute(s: Step) returns (ok: bool)
      requires Valid()
      modifies this
      ensures Valid() && statements == old(statements) + [OneRow(s)]
      ensures ok == Admits(old(Contents()), s)
      ensures Contents() == if ok then Effect(old(Contents()), s) else old(Contents())
      ensures old(Sound(Contents())) ==> Sound(Contents())
    {
      HistoryTakesOne(statements, OneRow(s));
      StatementKeepsSound(Contents(), OneRow(s));
      ok := Admits(Contents(), s);
      if ok {
        match s
        case InsertAccount(a, row) => accounts := accounts[a := row];
        case UpdateAccount(a, row) => accounts := accounts[a := row];
        case DeleteAccount(a) => accounts := accounts - {a};
        case InsertBucket(b, row) => buckets := buckets[b := row];
        case UpdateBucket(b, row) => buckets := buckets[b := row];
        case RekeyBucket(b, renamed) => buckets := (buckets - {b})[renamed := buckets[b]];
        case DeleteBucket(b) => buckets := buckets - {b};
      }
      statements := statements + [OneRow(s)];
    }

    /** One UPDATE of many identifiers: no trigger looks at it, only the keys. */
    method Rekey(origin: map<BucketId, BucketId>) returns (ok: bool)
      requires Valid()
      modifies this
      ensures Valid() && statements == old(statements) + [ManyRows(origin)]
      ensures ok == AdmitsRewrite(old(Contents()), origin)
      ensures Contents() == if ok then Rewritten(old(Contents()), origin) else old(Contents())
      ensures old(Sound(Contents())) ==> (Sound(Contents()) <==> KeepsForest(old(Contents()), ManyRows(origin)))
    {
      HistoryTakesOne(statements, ManyRows(origin));
      StatementKeepsSound(Contents(), ManyRows(origin));
      ok := AdmitsRewrite(Contents(), origin);
      if ok {
        buckets := Rewritten(Contents(), origin).buckets;
      }
      statements := statements + [ManyRows(origin)];
    }
  }
}
