/** The queue poller's keyset-paged scan over the pending runs, which resumes where the
    previous poll stopped while runs come, go and are claimed in between. */
module QueueScan {

  /** A run's place in the queue. */
  datatype Key = Key(createdAt: int, id: int)

  /** `Start` is the empty id of a fresh or wrapped cursor. */
  datatype Cursor = Start | After(key: Key)

  predicate Less(a: Key, b: Key) {
    a.createdAt < b.createdAt || (a.createdAt == b.createdAt && a.id < b.id)
  }

  predicate Beyond(c: Cursor, k: Key) {
    c.Start? || Less(c.key, k)
  }

  predicate Ascending(s: seq<Key>) {
    forall i, j :: 0 <= i < j < |s| ==> Less(s[i], s[j])
  }

  function LastCursor(c: Cursor, examined: seq<Key>): Cursor {
    if examined == [] then c else After(examined[|examined| - 1])
  }

  /** The queue's order: the older run first, and of two as old the one with the smaller id; a
      cursor has passed a run exactly if the run is not after it. */
  lemma QueueOrderMeans(a: Key, b: Key)
    ensures Less(a, b) <==> if a.createdAt == b.createdAt then a.id < b.id else a.createdAt < b.createdAt
    ensures Beyond(After(a), b) <==> b != a && !Less(b, a)
    ensures Beyond(Start, a)
  {
  }

  // ---- The page query ------------------------------------------------------------------------

  /** The first `size` of the pending runs, given in queue order, beyond the cursor. */
  function Page(pending: seq<Key>, c: Cursor, size: nat): seq<Key> {
    if pending == [] then []
    else if Beyond(c, pending[0]) then pending[..if size < |pending| then size else |pending|]
    else Page(pending[1..], c, size)
  }

  lemma {:induction false} PageIsNext(pending: seq<Key>, c: Cursor, size: nat)
    requires Ascending(pending)
    ensures var page := Page(pending, c, size);
      && Ascending(page) && |page| <= size
      && (forall k :: k in page ==> k in pending && Beyond(c, k))
      && (forall k :: k in pending && Beyond(c, k) && k !in page ==> |page| == size && Beyond(LastCursor(c, page), k))
  {
    if pending != [] && !Beyond(c, pending[0]) {
      PageIsNext(pending[1..], c, size);
    }
  }

  // ---- One poll --------------------------------------------------------------------------------

  /** Pending at every page query of the poll. */
  predicate PendingThroughout(seen: seq<seq<Key>>, k: Key) {
    forall i :: 0 <= i < |seen| ==> k in seen[i]
  }

  /** So far from cursor `c`: examined in strictly increasing order, nothing that stayed pending
      skipped. */
  ghost predicate Progress(c: Cursor, seen: seq<seq<Key>>, examined: seq<Key>, now: Cursor) {
    && Ascending(examined) && now == LastCursor(c, examined)
    && (forall k :: k in examined ==> Beyond(c, k) && exists i :: 0 <= i < |seen| && k in seen[i])
    && (forall k {:trigger PendingThroughout(seen, k)} ::
          PendingThroughout(seen, k) && Beyond(c, k) && !Beyond(now, k) ==> k in examined)
  }

  /** What a poll from cursor `c` does, whose page queries met the pending runs `seen`: it
      examines runs in order up to its new cursor, or reaches the end of the queue and wraps. */
  ghost predicate PollOk(c: Cursor, seen: seq<seq<Key>>, examined: seq<Key>, wrapped: bool, c2: Cursor) {
    && Progress(c, seen, examined, LastCursor(c, examined))
    && (wrapped ==> c2.Start? && forall k {:trigger PendingThroughout(seen, k)} ::
        PendingThroughout(seen, k) && Beyond(c, k) ==> k in examined)
    && (!wrapped ==> c2 == LastCursor(c, examined) && examined != [])
  }

  lemma AscendingJoins(c: Cursor, a: seq<Key>, b: seq<Key>)
    requires Ascending(a) && Ascending(b) && forall k :: k in b ==> Beyond(LastCursor(c, a), k)
    ensures Ascending(a + b)
  {
    forall i, j | 0 <= i < j < |a + b| ensures Less((a + b)[i], (a + b)[j]) {
      if i < |a| <= j {
        assert b[j - |a|] in b;
        assert i < |a| - 1 ==> Less(a[i], a[|a| - 1]);
      }
    }
  }

  lemma ProgressOfPage(now: Cursor, next: seq<Key>, size: nat, n: nat)
    requires Ascending(next) && 0 < n <= |Page(next, now, size)|
    ensures Progress(now, [next], Page(next, now, size)[..n], After(Page(next, now, size)[n - 1]))
  {
    var page := Page(next, now, size);
    PageIsNext(next, now, size);
    forall k | k in page[..n] ensures Beyond(now, k) && exists i :: 0 <= i < |[next]| && k in [next][i] {
      assert k in page && k in [next][0];
    }
    forall k {:trigger PendingThroughout([next], k)}
      | PendingThroughout([next], k) && Beyond(now, k) && !Beyond(After(page[n - 1]), k)
      ensures k in page[..n]
    {
      assert k in [next][0];
    }
  }

  lemma SeenJoins(seen: seq<seq<Key>>, seen2: seq<seq<Key>>, k: Key)
    ensures PendingThroughout(seen + seen2, k) <==> PendingThroughout(seen, k) && PendingThroughout(seen2, k)
  {
    if PendingThroughout(seen + seen2, k) {
      assert forall i :: 0 <= i < |seen| ==> (seen + seen2)[i] == seen[i];
      assert forall i :: 0 <= i < |seen2| ==> (seen + seen2)[|seen| + i] == seen2[i];
    }
  }

  lemma ExaminedJoins(c: Cursor, seen: seq<seq<Key>>, examined: seq<Key>, now: Cursor, seen2: seq<seq<Key>>,
                      examined2: seq<Key>)
    requires Progress(c, seen, examined, now) && Progress(now, seen2, examined2, LastCursor(now, examined2))
    ensures Ascending(examined + examined2)
    ensures forall k :: k in examined + examined2 ==>
              Beyond(c, k) && exists i :: 0 <= i < |seen + seen2| && k in (seen + seen2)[i]
  {
    AscendingJoins(c, examined, examined2);
    forall k | k in examined + examined2
      ensures Beyond(c, k) && exists i :: 0 <= i < |seen + seen2| && k in (seen + seen2)[i]
    {
      if k in examined {
        var i :| 0 <= i < |seen| && k in seen[i];
        assert k in (seen + seen2)[i];
      } else {
        var i :| 0 <= i < |seen2| && k in seen2[i];
        assert k in (seen + seen2)[|seen| + i];
        assert examined != [] ==> examined[|examined| - 1] in examined;
      }
    }
  }

  lemma ProgressJoins(c: Cursor, seen: seq<seq<Key>>, examined: seq<Key>, now: Cursor,
                      seen2: seq<seq<Key>>, examined2: seq<Key>, end: Cursor)
    requires Progress(c, seen, examined, now) && Progress(now, seen2, examined2, end)
    ensures Progress(c, seen + seen2, examined + examined2, end)
  {
    ExaminedJoins(c, seen, examined, now, seen2, examined2);
    forall k {:trigger PendingThroughout(seen + seen2, k)} | PendingThroughout(seen + seen2, k) && Beyond(c, k) &&
      !Beyond(end, k)
      ensures k in examined + examined2
    {
      SeenJoins(seen, seen2, k);
    }
  }

  lemma EndJoins(c: Cursor, seen: seq<seq<Key>>, examined: seq<Key>, now: Cursor, seen2: seq<seq<Key>>,
                 examined2: seq<Key>)
    requires Progress(c, seen, examined, now) && PollOk(now, seen2, examined2, true, Start)
    ensures PollOk(c, seen + seen2, examined + examined2, true, Start)
  {
    ProgressJoins(c, seen, examined, now, seen2, examined2, LastCursor(now, examined2));
    assert LastCursor(c, examined + examined2) == LastCursor(now, examined2);
    forall k {:trigger PendingThroughout(seen + seen2, k)} | PendingThroughout(seen + seen2, k) && Beyond(c, k)
      ensures k in examined + examined2
    {
      SeenJoins(seen, seen2, k);
    }
  }

  lemma EmptyPageEnds(now: Cursor, next: seq<Key>, size: nat)
    requires Ascending(next) && size > 0 && Page(next, now, size) == []
    ensures PollOk(now, [next], [], true, Start)
  {
    PageIsNext(next, now, size);
    forall k {:trigger PendingThroughout([next], k)} | PendingThroughout([next], k) && Beyond(now, k) ensures k in [] {
      assert k in [next][0];
    }
  }

  /** Nothing of what a page query met lies beyond the cursor. */
  ghost predicate NothingLeft(pending: seq<Key>, c: Cursor) {
    forall k :: k in pending ==> !Beyond(c, k)
  }

  lemma ShortPageLeavesNothing(next: seq<Key>, now: Cursor, size: nat)
    requires Ascending(next) && Page(next, now, size) != [] && |Page(next, now, size)| != size
    ensures NothingLeft(next, LastCursor(now, Page(next, now, size)))
  {
    var page := Page(next, now, size);
    PageIsNext(next, now, size);
    forall k | k in next ensures !Beyond(LastCursor(now, page), k) {
      if k in page {
        var i :| 0 <= i < |page| && page[i] == k;
        assert i < |page| - 1 ==> Less(k, page[|page| - 1]);
      } else {
        assert page[0] in page;
        assert !Beyond(now, k);
      }
    }
  }

  function Claimed(examined: seq<Key>, claimable: set<Key>): seq<Key> {
    if examined == [] then []
    else if examined[0] in claimable then [examined[0]] + Claimed(examined[1..], claimable)
    else Claimed(examined[1..], claimable)
  }

  lemma {:induction false} ClaimedJoins(a: seq<Key>, b: seq<Key>, claimable: set<Key>)
    ensures Claimed(a + b, claimable) == Claimed(a, claimable) + Claimed(b, claimable)
  {
    if a == [] {
      assert a + b == b;
    } else {
      assert (a + b)[1..] == a[1..] + b;
      ClaimedJoins(a[1..], b, claimable);
    }
  }

  lemma ClaimedGrows(a: seq<Key>, k: Key, claimable: set<Key>)
    ensures |Claimed(a + [k], claimable)| == |Claimed(a, claimable)| + if k in claimable then 1 else 0
  {
    ClaimedJoins(a, [k], claimable);
  }

  class QueuePoller {
    var cursor: Cursor

    constructor ()
      ensures cursor.Start?
    {
      cursor := Start;
    }

    /** The runs of one page, up to the claim limit. */
    method ExaminePage(page: seq<Key>, room: nat, claimable: set<Key>) returns (n: nat, claims: nat)
      requires room > 0 && page != []
      modifies this
      ensures 0 < n <= |page| && cursor == After(page[n - 1])
      ensures n == |page| || claims == room
      ensures claims == |Claimed(page[..n], claimable)| <= room
    {
      n, claims := 0, 0;
      while n < |page| && claims < room
        invariant 0 <= n <= |page| && n + claims >= 0
        invariant n > 0 ==> cursor == After(page[n - 1])
        invariant n == 0 ==> claims == 0
        invariant claims == |Claimed(page[..n], claimable)| <= room
      {
        assert page[..n + 1] == page[..n] + [page[n]];
        ClaimedGrows(page[..n], page[n], claimable);
        cursor := After(page[n]);
        if page[n] in claimable { claims := claims + 1; }
        n := n + 1;
      }
    }

    /** One poll with its claim limit, page size and page budget. `pending[i]` is the pending set
        met by the i-th page query; `claimable` are the runs whose dispatch claims them. */
    method Poll(maxClaims: nat, pageSize: nat, maxPages: nat, pending: seq<seq<Key>>, claimable: set<Key>)
      returns (examined: seq<Key>, wrapped: bool, queries: nat)
      requires maxClaims > 0 && pageSize > 0 && maxPages > 0 && |pending| == maxPages
      requires forall i :: 0 <= i < |pending| ==> Ascending(pending[i])
      modifies this
      ensures 0 < queries <= maxPages && PollOk(old(cursor), pending[..queries], examined, wrapped, cursor)
      ensures |Claimed(examined, claimable)| <= maxClaims
      ensures !wrapped && |Claimed(examined, claimable)| < maxClaims && queries < maxPages ==>
        NothingLeft(pending[queries - 1], cursor)
      ensures (queries - 1) * pageSize <= |examined| <= queries * pageSize
      ensures wrapped <==> |examined| == (queries - 1) * pageSize
    {
      examined, wrapped, queries := [], false, 0;
      ghost var from := cursor;
      var claims := 0;
      var morePages := true;
      while claims < maxClaims && morePages && queries < maxPages
        invariant 0 <= queries <= maxPages && claims == |Claimed(examined, claimable)| <= maxClaims
        invariant Progress(from, pending[..queries], examined, cursor)
        invariant if queries > 0 then examined != [] else claims == 0 && morePages
        invariant morePages || claims == maxClaims || NothingLeft(pending[queries - 1], cursor)
        invariant queries > 0 ==> (queries - 1) * pageSize < |examined| <= queries * pageSize
        invariant morePages && claims < maxClaims ==> |examined| == queries * pageSize
      {
        var page := Page(pending[queries], cursor, pageSize);
        assert pending[..queries + 1] == pending[..queries] + [pending[queries]];
        assert (queries + 1) * pageSize == queries * pageSize + pageSize;
        queries := queries + 1;
        if page == [] {
          EmptyPageEnds(cursor, pending[queries - 1], pageSize);
          EndJoins(from, pending[..queries - 1], examined, cursor, [pending[queries - 1]], []);
          assert examined + [] == examined;
          wrapped, cursor := true, Start;
          break;
        }
        morePages := |page| == pageSize;
        ghost var now := cursor;
        PageIsNext(pending[queries - 1], cursor, pageSize);
        var n, more := ExaminePage(page, maxClaims - claims, claimable);
        ProgressOfPage(now, pending[queries - 1], pageSize, n);
        ProgressJoins(from, pending[..queries - 1], examined, now, [pending[queries - 1]], page[..n], cursor);
        ClaimedJoins(examined, page[..n], claimable);
        if !morePages && n == |page| {
          assert page[..n] == page;
          ShortPageLeavesNothing(pending[queries - 1], now, pageSize);
        }
        examined := examined + page[..n];
        claims := claims + more;
      }
    }
  }

  // ---- A pass: the polls from one wrap to the next ----------------------------------------------------

  datatype PollRecord = PollRecord(seen: seq<seq<Key>>, examined: seq<Key>, wrapped: bool, after: Cursor)

  ghost predicate Chained(c: Cursor, polls: seq<PollRecord>)
    decreases |polls|
  {
    polls == [] || (PollOk(c, polls[0].seen, polls[0].examined, polls[0].wrapped, polls[0].after) &&
                    Chained(polls[0].after, polls[1..]))
  }

  function AllSeen(polls: seq<PollRecord>): seq<seq<Key>> {
    if polls == [] then [] else polls[0].seen + AllSeen(polls[1..])
  }

  function AllExamined(polls: seq<PollRecord>): seq<Key> {
    if polls == [] then [] else polls[0].examined + AllExamined(polls[1..])
  }

  /** Only the last poll of a pass wraps. */
  predicate IsPass(polls: seq<PollRecord>) {
    polls != [] && forall i :: 0 <= i < |polls| ==> (polls[i].wrapped <==> i == |polls| - 1)
  }

  lemma {:induction false} PassIsOnePoll(c: Cursor, polls: seq<PollRecord>)
    requires Chained(c, polls) && IsPass(polls)
    ensures PollOk(c, AllSeen(polls), AllExamined(polls), true, Start)
    decreases |polls|
  {
    var first := polls[0];
    if |polls| == 1 {
      assert AllSeen(polls) == first.seen + [] == first.seen;
      assert AllExamined(polls) == first.examined + [] == first.examined;
    } else {
      PassIsOnePoll(first.after, polls[1..]);
      EndJoins(c, first.seen, first.examined, first.after, AllSeen(polls[1..]), AllExamined(polls[1..]));
    }
  }

  lemma AscendingIsDistinct(s: seq<Key>, k: Key)
    requires Ascending(s) && k in s
    ensures multiset(s)[k] == 1
  {
    var i :| 0 <= i < |s| && s[i] == k;
    assert s == s[..i] + [k] + s[i + 1..];
    assert k !in s[..i] && k !in s[i + 1..];
  }

  /** Between two wraps the examined runs strictly increase, and each run that stays pending for
      the whole pass is examined exactly once, whatever is claimed, added or removed meanwhile. */
  lemma {:induction false} PassExaminesOnce(polls: seq<PollRecord>, k: Key)
    requires Chained(Start, polls) && IsPass(polls)
    ensures Ascending(AllExamined(polls))
    ensures PendingThroughout(AllSeen(polls), k) ==> multiset(AllExamined(polls))[k] == 1
  {
    PassIsOnePoll(Start, polls);
    if PendingThroughout(AllSeen(polls), k) { AscendingIsDistinct(AllExamined(polls), k); }
  }

  lemma {:induction false} UnwrappedPollsProgress(c: Cursor, polls: seq<PollRecord>)
    requires Chained(c, polls) && forall i :: 0 <= i < |polls| ==> !polls[i].wrapped
    ensures Progress(c, AllSeen(polls), AllExamined(polls), LastCursor(c, AllExamined(polls)))
    ensures |AllExamined(polls)| >= |polls|
    decreases |polls|
  {
    if polls != [] {
      var first := polls[0];
      UnwrappedPollsProgress(first.after, polls[1..]);
      ProgressJoins(c, first.seen, first.examined, first.after, AllSeen(polls[1..]), AllExamined(polls[1..]),
                    LastCursor(first.after, AllExamined(polls[1..])));
    }
  }

  lemma {:induction false} DistinctFit(s: seq<Key>, all: set<Key>)
    requires Ascending(s) && forall k :: k in s ==> k in all
    ensures |s| <= |all|
  {
    if s != [] {
      var rest := s[..|s| - 1];
      var last := s[|s| - 1];
      forall k | k in rest ensures k in all - {last} { }
      DistinctFit(rest, all - {last});
    }
  }

  /** Without insertions a pass over N pending runs is over within N + 1 polls: a poll that does
      not wrap examines a run no earlier poll of the pass examined. */
  lemma {:induction false} PassEnds(polls: seq<PollRecord>, all: set<Key>)
    requires Chained(Start, polls) && |polls| > |all|
    requires forall i :: 0 <= i < |AllSeen(polls)| ==> forall k :: k in AllSeen(polls)[i] ==> k in all
    ensures exists i :: 0 <= i < |polls| && polls[i].wrapped
  {
    if forall i :: 0 <= i < |polls| ==> !polls[i].wrapped {
      UnwrappedPollsProgress(Start, polls);
      DistinctFit(AllExamined(polls), all);
    }
  }
}
