/**
 The supersession pointers of `relationship_people` as a graph: walks along
 `superseded_by_person_id`, the chains they trace, and what one transaction's
 rewrites do to them.
 */
module SupersessionChains {
  import opened Options
  import opened IdentityTables

  type People = map<PersonId, Person>

  ghost predicate Closed(people: People) {
    forall p | p in people :: people[p].supersededBy.Some? ==> people[p].supersededBy.value in people
  }

  /** The UNIQUE key on `superseded_by_person_id`. */
  ghost predicate SupersedesOne(people: People) {
    forall p, q | p in people && q in people && p != q && people[p].supersededBy.Some? ::
      people[p].supersededBy != people[q].supersededBy
  }

  /** Following pointers from `p` meets a live person after at most `n` steps. */
  ghost predicate EndsLive(people: People, p: PersonId, n: nat)
    decreases n
  {
    && p in people
    && (people[p].supersededBy.Some? ==> n > 0 && EndsLive(people, people[p].supersededBy.value, n - 1))
  }

  ghost predicate Terminates(people: People, p: PersonId) {
    exists n: nat :: EndsLive(people, p, n)
  }

  ghost predicate AllTerminate(people: People) {
    forall p | p in people :: Terminates(people, p)
  }

  /** The people met from `p` to its live end, `p` first. */
  ghost function Chain(people: People, p: PersonId, n: nat): (chain: seq<PersonId>)
    requires EndsLive(people, p, n)
    ensures |chain| > 0 && chain[0] == p
    decreases n
  {
    if people[p].supersededBy.None? then [p]
    else [p] + Chain(people, people[p].supersededBy.value, n - 1)
  }

  ghost predicate IsChain(people: People, chain: seq<PersonId>) {
    && |chain| > 0
    && (forall i | 0 <= i < |chain| :: chain[i] in people)
    && (forall i | 0 <= i < |chain| - 1 :: people[chain[i]].supersededBy == Some(chain[i + 1]))
    && people[chain[|chain| - 1]].supersededBy.None?
  }

  ghost predicate Simple(chain: seq<PersonId>) {
    forall i, j | 0 <= i < j < |chain| :: chain[i] != chain[j]
  }

  lemma {:induction false} ChainIsChain(people: People, p: PersonId, n: nat)
    requires EndsLive(people, p, n)
    ensures IsChain(people, Chain(people, p, n))
    decreases n
  {
    if people[p].supersededBy.Some? {
      ChainIsChain(people, people[p].supersededBy.value, n - 1);
    }
  }

  /** A chain is determined by where it starts. */
  lemma {:induction false} ChainsFromOnePersonAgree(people: People, c: seq<PersonId>, d: seq<PersonId>)
    requires IsChain(people, c) && IsChain(people, d) && c[0] == d[0]
    ensures c == d
  {
    assert |c| > 1 ==> people[c[0]].supersededBy == Some(c[1]);
    assert |d| > 1 ==> people[d[0]].supersededBy == Some(d[1]);
    if |c| > 1 {
      SuffixIsChain(people, c, 1);
      SuffixIsChain(people, d, 1);
      ChainsFromOnePersonAgree(people, c[1..], d[1..]);
      assert c == [c[0]] + c[1..] && d == [d[0]] + d[1..];
    }
  }

  lemma SuffixIsChain(people: People, c: seq<PersonId>, i: nat)
    requires IsChain(people, c) && i < |c|
    ensures IsChain(people, c[i..])
  {
    forall k | 0 <= k < |c[i..]| - 1 ensures people[c[i..][k]].supersededBy == Some(c[i..][k + 1]) {
      assert people[c[i + k]].supersededBy == Some(c[i + k + 1]);
    }
  }

  /** A chain that ends never meets one person twice. */
  lemma ChainIsSimple(people: People, c: seq<PersonId>)
    requires IsChain(people, c)
    ensures Simple(c)
  {
    forall i, j | 0 <= i < j < |c| ensures c[i] != c[j] {
      SuffixIsChain(people, c, i);
      SuffixIsChain(people, c, j);
      assert |c[i..]| != |c[j..]|;
      if c[i] == c[j] {
        ChainsFromOnePersonAgree(people, c[i..], c[j..]);
      }
    }
  }

  /** Stepping back from a shared person, two chains stay together until one of them begins. */
  lemma {:induction false} CommonPrefixBefore(people: People, c: seq<PersonId>, d: seq<PersonId>, i: nat, j: nat)
    requires SupersedesOne(people) && IsChain(people, c) && IsChain(people, d)
    requires i < |c| && j < |d| && c[i] == d[j] && i <= j
    ensures c[0] == d[j - i]
    decreases i
  {
    if i > 0 {
      assert people[c[i - 1]].supersededBy == Some(c[i]) && people[d[j - 1]].supersededBy == Some(d[j]);
      CommonPrefixBefore(people, c, d, i - 1, j - 1);
    }
  }

  /** Two chains that share anyone are one chain: the shorter is a tail of the longer. */
  lemma ChainsMeetInATail(people: People, c: seq<PersonId>, d: seq<PersonId>, i: nat, j: nat)
    requires SupersedesOne(people) && IsChain(people, c) && IsChain(people, d)
    requires i < |c| && j < |d| && c[i] == d[j]
    ensures i <= j ==> c == d[j - i..]
    ensures j <= i ==> d == c[i - j..]
  {
    if i <= j {
      CommonPrefixBefore(people, c, d, i, j);
      SuffixIsChain(people, d, j - i);
      ChainsFromOnePersonAgree(people, c, d[j - i..]);
    }
    if j <= i {
      CommonPrefixBefore(people, d, c, j, i);
      SuffixIsChain(people, c, i - j);
      ChainsFromOnePersonAgree(people, d, c[i - j..]);
    }
  }

  /**
   What a transaction may do to the pointers and still keep every walk finite: a
   rewritten or fresh row is live, or points at a person who is live afterwards.
   */
  ghost predicate RewritesPointAtLive(before: People, after: People) {
    && before.Keys <= after.Keys
    && forall p | p in after && after[p].supersededBy.Some? ::
         || (p in before && before[p].supersededBy == after[p].supersededBy)
         || (after[p].supersededBy.value in after && after[after[p].supersededBy.value].supersededBy.None?)
  }

  lemma {:induction false} WalkSurvives(before: People, after: People, p: PersonId, n: nat)
    requires RewritesPointAtLive(before, after) && EndsLive(before, p, n)
    ensures EndsLive(after, p, n + 1)
    decreases n
  {
    if after[p].supersededBy.Some? {
      var q := after[p].supersededBy.value;
      if before[p].supersededBy == after[p].supersededBy {
        WalkSurvives(before, after, q, n - 1);
      } else {
        assert EndsLive(after, q, n);
      }
    }
  }

  lemma TerminationSurvives(before: People, after: People)
    requires AllTerminate(before) && RewritesPointAtLive(before, after)
    ensures AllTerminate(after)
  {
    forall p | p in after ensures Terminates(after, p) {
      if p in before {
        var n: nat :| EndsLive(before, p, n);
        WalkSurvives(before, after, p, n);
      } else if after[p].supersededBy.Some? {
        assert EndsLive(after, after[p].supersededBy.value, 0);
        assert EndsLive(after, p, 1);
      } else {
        assert EndsLive(after, p, 0);
      }
    }
  }

  /**
   The graph is a disjoint union of finite simple chains: from everyone there is
   exactly one chain, it ends at a live person and repeats nobody, and two chains
   that share a person are the same chain entered at two points.
   */
  lemma DisjointSimpleChains(people: People, p: PersonId) returns (chain: seq<PersonId>)
    requires Closed(people) && SupersedesOne(people) && AllTerminate(people) && p in people
    ensures IsChain(people, chain) && chain[0] == p && Simple(chain)
    ensures forall other | IsChain(people, other) && other[0] == p :: other == chain
    ensures forall other, i, j | IsChain(people, other) && 0 <= i < |chain| && 0 <= j < |other| && chain[i] == other[j] ::
              if i <= j then chain == other[j - i..] else other == chain[i - j..]
  {
    var n: nat :| EndsLive(people, p, n);
    chain := Chain(people, p, n);
    ChainIsChain(people, p, n);
    ChainIsSimple(people, chain);
    forall other | IsChain(people, other) && other[0] == p ensures other == chain {
      ChainsFromOnePersonAgree(people, other, chain);
    }
    forall other, i, j | IsChain(people, other) && 0 <= i < |chain| && 0 <= j < |other| && chain[i] == other[j]
      ensures if i <= j then chain == other[j - i..] else other == chain[i - j..]
    {
      ChainsMeetInATail(people, chain, other, i, j);
    }
  }

  // ----- one pointer set by hand ------------------------------------------------------------

  lemma {:induction false} ChainEndsLive(people: People, c: seq<PersonId>)
    requires IsChain(people, c)
    ensures EndsLive(people, c[0], |c| - 1)
    decreases |c|
  {
    if |c| > 1 {
      assert people[c[0]].supersededBy == Some(c[1]);
      SuffixIsChain(people, c, 1);
      ChainEndsLive(people, c[1..]);
    }
  }

  /**
   Pointing `p` at `q` by hand keeps every walk finite exactly when the chain from
   `q` does not already pass through `p`.
   */
  lemma PointerClosesACycle(people: People, p: PersonId, row: Person, c: seq<PersonId>)
    requires Closed(people) && AllTerminate(people) && p in people
    requires IsChain(people, c) && row.supersededBy == Some(c[0])
    ensures AllTerminate(people[p := row]) <==> p !in c
  {
    var after := people[p := row];
    if p in c {
      if AllTerminate(after) {
        CycleNeverEnds(people, p, row, c);
      }
    } else {
      assert IsChain(after, [p] + c) by {
        forall i | 0 <= i < |[p] + c| - 1 ensures after[([p] + c)[i]].supersededBy == Some(([p] + c)[i + 1]) {
          assert i > 0 ==> people[c[i - 1]].supersededBy == Some(c[i]);
        }
      }
      ChainEndsLive(after, [p] + c);
      forall x | x in after ensures Terminates(after, x) {
        if x != p {
          var n: nat :| EndsLive(people, x, n);
          DetourEndsLive(people, p, row, x, n, |c|);
        }
      }
    }
  }

  lemma {:induction false} DetourEndsLive(people: People, p: PersonId, row: Person, x: PersonId, n: nat, m: nat)
    requires EndsLive(people, x, n) && EndsLive(people[p := row], p, m)
    ensures EndsLive(people[p := row], x, n + m)
    decreases n
  {
    if x == p {
      LongerStillEnds(people[p := row], p, m, n);
    } else if people[x].supersededBy.Some? {
      DetourEndsLive(people, p, row, people[x].supersededBy.value, n - 1, m);
    }
  }

  lemma {:induction false} LongerStillEnds(people: People, p: PersonId, m: nat, extra: nat)
    requires EndsLive(people, p, m)
    ensures EndsLive(people, p, m + extra)
    decreases m
  {
    if people[p].supersededBy.Some? {
      LongerStillEnds(people, people[p].supersededBy.value, m - 1, extra);
    }
  }

  lemma CycleNeverEnds(people: People, p: PersonId, row: Person, c: seq<PersonId>)
    requires p in people && p in c && IsChain(people, c) && row.supersededBy == Some(c[0])
    ensures !Terminates(people[p := row], p)
  {
    var after := people[p := row];
    var k :| 0 <= k < |c| && c[k] == p;
    ChainIsSimple(people, c);
    forall n: nat ensures !EndsLive(after, p, n) {
      NoShortestEnd(people, p, row, c, k, n);
    }
  }

  /** Walking `k + 1` steps from `p` comes back to `p`, so no bound on the walk can be the least. */
  lemma {:induction false} NoShortestEnd(people: People, p: PersonId, row: Person, c: seq<PersonId>, k: nat, n: nat)
    requires IsChain(people, c) && Simple(c) && k < |c| && c[k] == p && row.supersededBy == Some(c[0])
    ensures !EndsLive(people[p := row], p, n)
    decreases n, 0
  {
    if n > 0 {
      NoEndOnTheWay(people, p, row, c, k, 0, n - 1);
    }
  }

  lemma {:induction false} NoEndOnTheWay(people: People, p: PersonId, row: Person, c: seq<PersonId>, k: nat, i: nat, n: nat)
    requires IsChain(people, c) && Simple(c) && i <= k < |c| && c[k] == p && row.supersededBy == Some(c[0])
    ensures !EndsLive(people[p := row], c[i], n)
    decreases n, 1
  {
    if i == k {
      NoShortestEnd(people, p, row, c, k, n);
    } else {
      assert people[c[i]].supersededBy == Some(c[i + 1]);
      if n > 0 {
        NoEndOnTheWay(people, p, row, c, k, i + 1, n - 1);
      }
    }
  }
}
