/** The bounded join of one goal's claims over several knowledge spaces. */
module GoalMerge {
  import opened Common
  import opened ClaimModel
  import opened Traversal
  import opened ClaimPaging

  type SpaceId = int

  datatype Ref = Ref(claim: ClaimId, space: SpaceId, agent: int, task: Option<int>, run: Option<int>, delegation: Option<int>)

  function RefOf(c: Claim, space: SpaceId): Ref {
    Ref(c.claimId, space, c.provenance.agent, c.provenance.task, c.provenance.run, c.provenance.delegation)
  }

  function RefsOf(claims: seq<Claim>, space: SpaceId): (refs: seq<Ref>)
    ensures |refs| == |claims|
  {
    seq(|claims|, i requires 0 <= i < |claims| => RefOf(claims[i], space))
  }

  /** One space's whole answer, unbounded. */
  ghost function SpaceRefs(claims: seq<Claim>, admits: Admission, space: SpaceId): seq<Ref> {
    RefsOf(AdmittedAfter(claims, admits, None), space)
  }

  /** One space's bounded read: pages of at most 64, asking only for what is still missing. */
  method ReadSpace(claims: seq<Claim>, admits: Admission, space: SpaceId, limit: nat) returns (refs: seq<Ref>)
    requires InIdOrder(claims)
    ensures refs == Take(SpaceRefs(claims, admits, space), limit)
  {
    hide AdmittedAfter, InIdOrder, PageOf;
    refs := [];
    var cursor := WithLimit(Cursor(None, CLAIM_PAGE_DEFAULT_LIMIT), limit);
    ghost var all := AdmittedAfter(claims, admits, None);
    ghost var rest := all;
    while true
      invariant ValidCursor(cursor) && |refs| <= limit && (0 < limit ==> |refs| < limit && cursor.limit <= limit - |refs|)
      invariant rest == AdmittedAfter(claims, admits, cursor.after) && |refs| + |rest| == |all|
      invariant refs == RefsOf(all[..|refs|], space) && rest == all[|refs|..]
      decreases |rest|
    {
      var page := Query(claims, admits, cursor);
      PageSplits(claims, admits, cursor.after, cursor.limit);
      PageShape(claims, admits, cursor);
      ghost var had := |refs|;
      for i := 0 to |page.claims|
        invariant had <= |refs| == had + (if limit == 0 then 0 else i) <= limit
        invariant refs == RefsOf(all[..|refs|], space)
      {
        if |refs| >= limit {
          break;
        }
        assert page.claims[i] == rest[i] == all[|refs|];
        refs := refs + [RefOf(page.claims[i], space)];
      }
      if page.next.Some? && |refs| < limit {
        cursor := WithLimit(page.next.value, limit - |refs|);
        rest := AdmittedAfter(claims, admits, cursor.after);
      } else {
        break;
      }
    }
    assert Take(RefsOf(all, space), limit) == RefsOf(Take(all, limit), space);
  }

  /** A page is a prefix of what is left, whole unless a next cursor says otherwise. */
  lemma PageShape(claims: seq<Claim>, admits: Admission, cursor: Cursor)
    requires ValidCursor(cursor)
    ensures var page, rest := PageOf(claims, admits, cursor), AdmittedAfter(claims, admits, cursor.after);
            && page.claims <= rest && |page.claims| <= cursor.limit
            && (page.next.None? ==> page.claims == rest)
            && (page.next.Some? ==> |page.claims| == cursor.limit < |rest|)
  {
  }

  // ----- Order -----

  predicate Leq(a: Ref, b: Ref) {
    a.claim < b.claim || (a.claim == b.claim && a.space <= b.space)
  }

  ghost predicate SortedRefs(refs: seq<Ref>) {
    forall i, j :: 0 <= i < j < |refs| ==> Leq(refs[i], refs[j])
  }

  /** References that agree on claim and space are the same reference. */
  ghost predicate Keyed(refs: multiset<Ref>) {
    forall a, b :: a in refs && b in refs && a.claim == b.claim && a.space == b.space ==> a == b
  }

  function Insert(refs: seq<Ref>, x: Ref): seq<Ref> {
    if refs == [] || Leq(refs[|refs| - 1], x) then refs + [x]
    else Insert(refs[..|refs| - 1], x) + [refs[|refs| - 1]]
  }

  /** `sort_by` on claim, then space; stable. */
  function Sort(refs: seq<Ref>): seq<Ref> {
    if refs == [] then [] else Insert(Sort(refs[..|refs| - 1]), refs[|refs| - 1])
  }

  lemma MultisetWithout<T>(s: seq<T>, i: nat)
    requires i < |s|
    ensures multiset(s) == multiset(Without(s, i)) + multiset{s[i]}
  {
    assert s == s[..i] + [s[i]] + s[i + 1..];
  }

  /** Equal bags stay equal without one equal element of each. */
  lemma WithoutAgree<T>(a: seq<T>, i: nat, b: seq<T>, j: nat)
    requires i < |a| && j < |b| && a[i] == b[j] && multiset(a) == multiset(b)
    ensures multiset(Without(a, i)) == multiset(Without(b, j))
  {
    hide Without;
    MultisetWithout(a, i);
    MultisetWithout(b, j);
    Cancel(multiset(Without(a, i)), multiset(Without(b, j)), multiset{a[i]});
  }

  lemma Cancel<T>(a: multiset<T>, b: multiset<T>, c: multiset<T>)
    requires a + c == b + c
    ensures a == b
  {
    assert a == (a + c) - c && b == (b + c) - c;
  }

  lemma MultisetSnoc<T>(s: seq<T>)
    requires s != []
    ensures multiset(s) == multiset(s[..|s| - 1]) + multiset{s[|s| - 1]}
  {
    assert s == s[..|s| - 1] + [s[|s| - 1]];
  }

  lemma {:induction false} InsertSorts(refs: seq<Ref>, x: Ref)
    requires SortedRefs(refs)
    ensures SortedRefs(Insert(refs, x)) && multiset(Insert(refs, x)) == multiset(refs) + multiset{x}
  {
    if refs != [] && !Leq(refs[|refs| - 1], x) {
      var front, last := refs[..|refs| - 1], refs[|refs| - 1];
      assert refs == front + [last];
      InsertSorts(front, x);
      var inserted := Insert(front, x);
      forall i | 0 <= i < |inserted| ensures Leq(inserted[i], last) {
        assert inserted[i] in multiset(inserted);
        if inserted[i] != x {
          assert inserted[i] in multiset(front);
        }
      }
    }
  }

  lemma {:induction false} SortSorts(refs: seq<Ref>)
    ensures SortedRefs(Sort(refs)) && multiset(Sort(refs)) == multiset(refs)
  {
    if refs != [] {
      SortSorts(refs[..|refs| - 1]);
      InsertSorts(Sort(refs[..|refs| - 1]), refs[|refs| - 1]);
      MultisetSnoc(refs);
    }
  }

  /** A multiset of keyed references has one sorted order. */
  lemma {:induction false} SortedUnique(a: seq<Ref>, b: seq<Ref>)
    requires SortedRefs(a) && SortedRefs(b) && multiset(a) == multiset(b) && Keyed(multiset(a))
    ensures a == b
    decreases |a|
  {
    if a == [] {
      assert |multiset(b)| == 0;
    } else {
      HeadsAgree(a, b);
      TailsMatch(a, b);
      hide *;
      SortedUnique(a[1..], b[1..]);
      assert a == [a[0]] + a[1..] && b == [b[0]] + b[1..];
    }
  }

  lemma TailsMatch(a: seq<Ref>, b: seq<Ref>)
    requires a != [] && b != [] && a[0] == b[0] && multiset(a) == multiset(b) && Keyed(multiset(a))
    requires SortedRefs(a) && SortedRefs(b)
    ensures multiset(a[1..]) == multiset(b[1..]) && Keyed(multiset(a[1..]))
    ensures SortedRefs(a[1..]) && SortedRefs(b[1..])
  {
    assert multiset(a[1..]) == multiset(b[1..]) by {
      hide Keyed, SortedRefs;
      assert Without(a, 0) == a[1..] && Without(b, 0) == b[1..];
      WithoutAgree(a, 0, b, 0);
    }
    assert Keyed(multiset(a[1..])) by { TailKeyed(a); }
    hide Keyed;
    SortedTail(a);
    SortedTail(b);
  }

  lemma SortedTail(a: seq<Ref>)
    requires SortedRefs(a) && a != []
    ensures SortedRefs(a[1..])
  {
  }

  lemma HeadsAgree(a: seq<Ref>, b: seq<Ref>)
    requires SortedRefs(a) && SortedRefs(b) && multiset(a) == multiset(b) && Keyed(multiset(a)) && a != []
    ensures b != [] && a[0] == b[0]
  {
    assert a[0] in multiset(b);
    assert b != [];
    assert b[0] in multiset(a);
    var i :| 0 <= i < |b| && b[i] == a[0];
    var j :| 0 <= j < |a| && a[j] == b[0];
    assert Leq(b[0], b[i]) && Leq(a[0], a[j]);
  }

  lemma TailKeyed(a: seq<Ref>)
    requires Keyed(multiset(a)) && a != []
    ensures Keyed(multiset(a[1..]))
  {
    forall x: Ref | x in multiset(a[1..]) ensures x in multiset(a) {
      assert x in a[1..];
    }
  }

  // ----- Merging sorted lists -----

  function Merge(a: seq<Ref>, b: seq<Ref>): seq<Ref>
    decreases |a| + |b|
  {
    if a == [] then b
    else if b == [] then a
    else if Leq(a[0], b[0]) then [a[0]] + Merge(a[1..], b)
    else [b[0]] + Merge(a, b[1..])
  }

  lemma {:induction false} MergeSorts(a: seq<Ref>, b: seq<Ref>)
    requires SortedRefs(a) && SortedRefs(b)
    ensures SortedRefs(Merge(a, b)) && multiset(Merge(a, b)) == multiset(a) + multiset(b)
    decreases |a| + |b|
  {
    if a != [] && b != [] {
      assert a == [a[0]] + a[1..] && b == [b[0]] + b[1..];
      if Leq(a[0], b[0]) {
        MergeSorts(a[1..], b);
        Prepended(a[0], Merge(a[1..], b), a[1..], b);
      } else {
        MergeSorts(a, b[1..]);
        Prepended(b[0], Merge(a, b[1..]), a, b[1..]);
      }
    }
  }

  lemma Prepended(x: Ref, rest: seq<Ref>, a: seq<Ref>, b: seq<Ref>)
    requires SortedRefs(rest) && multiset(rest) == multiset(a) + multiset(b)
    requires forall y :: y in a || y in b ==> Leq(x, y)
    ensures SortedRefs([x] + rest)
  {
    forall i | 0 <= i < |rest| ensures Leq(x, rest[i]) {
      assert rest[i] in multiset(rest);
    }
  }

  /** The first `n` of a merge are inside the first `n` of each side. */
  lemma {:induction false} MergeTake(a: seq<Ref>, b: seq<Ref>, n: nat)
    ensures Take(Merge(a, b), n) == Take(Merge(Take(a, n), Take(b, n)), n)
    decreases n
  {
    if n > 0 && a != [] && b != [] {
      var p, q := Take(a, n), Take(b, n);
      if Leq(a[0], b[0]) {
        MergeTake(a[1..], b, n - 1);
        MergeTake(p[1..], q, n - 1);
        TakeTail(a, n);
        TakeTake(b, n);
        TakeCons(a[0], Merge(a[1..], b), n);
        TakeCons(a[0], Merge(p[1..], q), n);
        hide Take, Leq;
      } else {
        MergeTake(a, b[1..], n - 1);
        MergeTake(p, q[1..], n - 1);
        TakeTail(b, n);
        TakeTake(a, n);
        TakeCons(b[0], Merge(a, b[1..]), n);
        TakeCons(b[0], Merge(p, q[1..]), n);
        hide Take, Leq;
      }
    }
  }

  lemma TakeTail(a: seq<Ref>, n: nat)
    requires n > 0 && a != []
    ensures var p := Take(a, n); p != [] && p[0] == a[0] && Take(p[1..], n - 1) == Take(a[1..], n - 1)
  {
  }

  lemma TakeTake(b: seq<Ref>, n: nat)
    requires n > 0 && b != []
    ensures var q := Take(b, n); q != [] && q[0] == b[0] && Take(q, n - 1) == Take(b, n - 1)
  {
  }

  lemma TakeCons(x: Ref, rest: seq<Ref>, n: nat)
    requires n > 0
    ensures Take([x] + rest, n) == [x] + Take(rest, n - 1)
  {
  }

  function Concat(lists: seq<seq<Ref>>): seq<Ref> {
    if lists == [] then [] else Concat(lists[..|lists| - 1]) + lists[|lists| - 1]
  }

  function MergeAll(lists: seq<seq<Ref>>): seq<Ref> {
    if lists == [] then [] else Merge(MergeAll(lists[..|lists| - 1]), lists[|lists| - 1])
  }

  ghost predicate AllSorted(lists: seq<seq<Ref>>) {
    forall i :: 0 <= i < |lists| ==> SortedRefs(lists[i])
  }

  lemma {:induction false} MergeAllSorts(lists: seq<seq<Ref>>)
    requires AllSorted(lists)
    ensures SortedRefs(MergeAll(lists)) && multiset(MergeAll(lists)) == multiset(Concat(lists))
  {
    if lists != [] {
      MergeAllSorts(lists[..|lists| - 1]);
      MergeSorts(MergeAll(lists[..|lists| - 1]), lists[|lists| - 1]);
    }
  }

  /** Every list cut to its first `n`. */
  function Prefixes(lists: seq<seq<Ref>>, n: nat): (r: seq<seq<Ref>>)
    ensures |r| == |lists|
  {
    seq(|lists|, i requires 0 <= i < |lists| => Take(lists[i], n))
  }

  lemma {:induction false} MergeAllTake(lists: seq<seq<Ref>>, n: nat)
    ensures Take(MergeAll(lists), n) == Take(MergeAll(Prefixes(lists, n)), n)
  {
    if lists != [] {
      var front, last := lists[..|lists| - 1], lists[|lists| - 1];
      var cut := Prefixes(lists, n);
      assert cut[..|cut| - 1] == Prefixes(front, n) && cut[|cut| - 1] == Take(last, n);
      MergeAllTake(front, n);
      MergeTake(MergeAll(front), last, n);
      MergeTake(MergeAll(Prefixes(front, n)), Take(last, n), n);
      assert Take(Take(last, n), n) == Take(last, n);
    }
  }

  /** Sorting and truncating the bounded prefixes is sorting the whole and truncating that. */
  lemma PrefixesSuffice(lists: seq<seq<Ref>>, n: nat)
    requires AllSorted(lists) && Keyed(multiset(Concat(lists)))
    ensures Take(Sort(Concat(Prefixes(lists, n))), n) == Take(Sort(Concat(lists)), n)
  {
    hide Merge, MergeAll, Concat, Sort, Keyed;
    var cut := Prefixes(lists, n);
    MergeAllSorts(lists);
    MergeAllSorts(cut);
    MergeAllTake(lists, n);
    SortSorts(Concat(lists));
    SortSorts(Concat(cut));
    SortedUnique(Sort(Concat(lists)), MergeAll(lists));
    PrefixesKeyed(lists, n);
    SortedUnique(Sort(Concat(cut)), MergeAll(cut));
  }

  lemma PrefixesKeyed(lists: seq<seq<Ref>>, n: nat)
    requires Keyed(multiset(Concat(lists)))
    ensures Keyed(multiset(Concat(Prefixes(lists, n))))
  {
    forall a: Ref | a in multiset(Concat(Prefixes(lists, n))) ensures a in multiset(Concat(lists)) {
      PrefixesInside(lists, n, a);
    }
  }

  lemma {:induction false} PrefixesInside(lists: seq<seq<Ref>>, n: nat, a: Ref)
    requires a in Concat(Prefixes(lists, n))
    ensures a in Concat(lists)
  {
    var front, last := lists[..|lists| - 1], lists[|lists| - 1];
    var cut := Prefixes(lists, n);
    assert cut[..|cut| - 1] == Prefixes(front, n);
    if a in Concat(Prefixes(front, n)) {
      PrefixesInside(front, n, a);
    }
  }

  // ----- The join -----

  type Store = SpaceId -> seq<Claim>

  ghost predicate OrderedStore(store: Store) {
    forall space :: InIdOrder(store(space))
  }

  ghost function Lists(store: Store, spaces: seq<SpaceId>, admits: Admission): (r: seq<seq<Ref>>)
    ensures |r| == |spaces|
  {
    seq(|spaces|, i requires 0 <= i < |spaces| => SpaceRefs(store(spaces[i]), admits, spaces[i]))
  }

  /** The whole join: every admitted claim of every space, in claim order. */
  ghost function Joined(store: Store, spaces: seq<SpaceId>, admits: Admission): seq<Ref> {
    Sort(Concat(Lists(store, spaces, admits)))
  }

  lemma ListsSorted(store: Store, spaces: seq<SpaceId>, admits: Admission)
    requires OrderedStore(store)
    ensures AllSorted(Lists(store, spaces, admits))
  {
    hide AdmittedAfter;
    forall i | 0 <= i < |spaces| ensures SortedRefs(SpaceRefs(store(spaces[i]), admits, spaces[i])) {
      assert InIdOrder(store(spaces[i]));
      AdmittedAscending(store(spaces[i]), admits, None);
    }
  }

  /** Where a joined reference came from. */
  lemma {:induction false} ConcatMember(store: Store, spaces: seq<SpaceId>, admits: Admission, a: Ref)
    ensures a in Concat(Lists(store, spaces, admits))
            <==> a.space in spaces && a in SpaceRefs(store(a.space), admits, a.space)
  {
    hide SpaceRefs;
    if spaces != [] {
      var front, last := spaces[..|spaces| - 1], spaces[|spaces| - 1];
      var lists := Lists(store, spaces, admits);
      assert lists[..|lists| - 1] == Lists(store, front, admits);
      ConcatMember(store, front, admits, a);
      assert spaces == front + [last];
      if a in SpaceRefs(store(last), admits, last) {
        RefNamesSpace(store(last), admits, last, a);
      }
    }
  }

  lemma RefNamesSpace(claims: seq<Claim>, admits: Admission, space: SpaceId, a: Ref)
    requires a in SpaceRefs(claims, admits, space)
    ensures a.space == space
  {
  }

  lemma ListsKeyed(store: Store, spaces: seq<SpaceId>, admits: Admission)
    requires OrderedStore(store)
    ensures Keyed(multiset(Concat(Lists(store, spaces, admits))))
  {
    hide Concat, SpaceRefs, InIdOrder;
    var all := Concat(Lists(store, spaces, admits));
    forall a: Ref, b: Ref | a in multiset(all) && b in multiset(all) && a.claim == b.claim && a.space == b.space ensures a == b {
      ConcatMember(store, spaces, admits, a);
      ConcatMember(store, spaces, admits, b);
      assert InIdOrder(store(a.space));
      OneRefPerClaim(store(a.space), admits, a.space, a, b);
    }
  }

  lemma OneRefPerClaim(claims: seq<Claim>, admits: Admission, space: SpaceId, a: Ref, b: Ref)
    requires InIdOrder(claims) && a in SpaceRefs(claims, admits, space) && b in SpaceRefs(claims, admits, space)
    requires a.claim == b.claim
    ensures a == b
  {
    AdmittedAscending(claims, admits, None);
    var all := AdmittedAfter(claims, admits, None);
    var i :| 0 <= i < |all| && RefOf(all[i], space) == a;
    var j :| 0 <= j < |all| && RefOf(all[j], space) == b;
    assert !(i < j) && !(j < i);
  }

  /** `claims_for_goal`: bounded reads of every space, sorted together and truncated, are the first `limit`
      references of the whole join. */
  method ClaimsForGoal(store: Store, spaces: seq<SpaceId>, admits: Admission, limit: nat) returns (refs: seq<Ref>)
    requires OrderedStore(store)
    ensures refs == Take(Joined(store, spaces, admits), limit)
  {
    hide Concat, SpaceRefs, Sort;
    refs := [];
    ghost var cut := Prefixes(Lists(store, spaces, admits), limit);
    assert refs == Concat(cut[..0]) by { ConcatEmpty(); }
    for i := 0 to |spaces|
      invariant refs == Concat(cut[..i])
    {
      assert InIdOrder(store(spaces[i]));
      var prefix := ReadSpace(store(spaces[i]), admits, spaces[i], limit);
      refs := refs + prefix;
      ConcatStep(cut, i);
    }
    assert cut[..|spaces|] == cut;
    refs := Take(Sort(refs), limit);
    ListsSorted(store, spaces, admits);
    ListsKeyed(store, spaces, admits);
    PrefixesSuffice(Lists(store, spaces, admits), limit);
  }

  lemma ConcatEmpty()
    ensures Concat([]) == []
  {
  }

  lemma ConcatStep(lists: seq<seq<Ref>>, i: nat)
    requires i < |lists|
    ensures Concat(lists[..i + 1]) == Concat(lists[..i]) + lists[i]
  {
    assert lists[..i + 1][..i] == lists[..i];
  }

  /** The join holds every admitted claim of every space once per time the space was added, in claim order. */
  lemma JoinedIsComplete(store: Store, spaces: seq<SpaceId>, admits: Admission, a: Ref)
    ensures SortedRefs(Joined(store, spaces, admits))
    ensures a in Joined(store, spaces, admits) <==> a.space in spaces && a in SpaceRefs(store(a.space), admits, a.space)
  {
    hide Concat, SpaceRefs, Sort;
    var all := Concat(Lists(store, spaces, admits));
    SortSorts(all);
    ConcatMember(store, spaces, admits, a);
    assert a in Sort(all) <==> a in multiset(Sort(all));
    assert a in all <==> a in multiset(all);
  }

  /** The order in which spaces are added never decides the answer. */
  lemma SpaceOrderIsFree(store: Store, spaces: seq<SpaceId>, permuted: seq<SpaceId>, admits: Admission)
    requires OrderedStore(store) && multiset(spaces) == multiset(permuted)
    ensures Joined(store, spaces, admits) == Joined(store, permuted, admits)
  {
    hide Concat, Sort, SpaceRefs, Keyed, OrderedStore;
    var a, b := Concat(Lists(store, spaces, admits)), Concat(Lists(store, permuted, admits));
    ConcatPermutes(store, spaces, permuted, admits);
    SortSorts(a);
    SortSorts(b);
    ListsKeyed(store, spaces, admits);
    SortedUnique(Sort(a), Sort(b));
  }

  lemma {:induction false} ConcatPermutes(store: Store, spaces: seq<SpaceId>, permuted: seq<SpaceId>, admits: Admission)
    requires multiset(spaces) == multiset(permuted)
    ensures multiset(Concat(Lists(store, spaces, admits))) == multiset(Concat(Lists(store, permuted, admits)))
    decreases |spaces|
  {
    if spaces == [] {
      assert |multiset(permuted)| == 0;
    } else {
      hide *;
      assert spaces[0] in multiset(permuted);
      var i :| 0 <= i < |permuted| && permuted[i] == spaces[0];
      WithoutAgree(spaces, 0, permuted, i);
      JoinWithout(store, spaces, 0, admits);
      JoinWithout(store, permuted, i, admits);
      assert |Without(spaces, 0)| < |spaces| by { WithoutShrinks(spaces, 0); }
      ConcatPermutes(store, Without(spaces, 0), Without(permuted, i), admits);
    }
  }

  lemma WithoutShrinks<T>(s: seq<T>, i: nat)
    requires i < |s|
    ensures |Without(s, i)| == |s| - 1
  {
  }

  lemma JoinWithout(store: Store, spaces: seq<SpaceId>, i: nat, admits: Admission)
    requires i < |spaces|
    ensures multiset(Concat(Lists(store, spaces, admits)))
            == multiset(Concat(Lists(store, Without(spaces, i), admits)))
               + multiset(SpaceRefs(store(spaces[i]), admits, spaces[i]))
  {
    hide SpaceRefs, Concat;
    var lists := Lists(store, spaces, admits);
    ConcatWithout(lists, i);
    assert Without(lists, i) == Lists(store, Without(spaces, i), admits);
  }

  lemma {:induction false} ConcatWithout(lists: seq<seq<Ref>>, i: nat)
    requires i < |lists|
    ensures multiset(Concat(lists)) == multiset(Concat(Without(lists, i))) + multiset(lists[i])
  {
    var front, last := lists[..|lists| - 1], lists[|lists| - 1];
    if i == |lists| - 1 {
      assert lists[..i] + lists[i + 1..] == front;
    } else {
      ConcatWithout(front, i);
      var without := lists[..i] + lists[i + 1..];
      assert without[..|without| - 1] == front[..i] + front[i + 1..];
    }
  }
}
