/** Auto-destroy discovery: keyset-paged scans whose filter shrinks while the cursor moves,
    the decision taken on their results, and what it means over a whole history of polls. */
module AutoDestroy {
  import opened Options

  /** A row of a scanned table. `active` and `attempt` are the run table's "not in a final
      status" and "auto-destroy run". */
  datatype Row = Row(space: nat, createdAt: nat, id: int, active: bool, attempt: bool)

  datatype Order = NewestFirst | BySpace

  predicate Newer(a: Row, b: Row) {
    a.createdAt > b.createdAt || (a.createdAt == b.createdAt && a.id > b.id)
  }

  predicate Before(o: Order, a: Row, b: Row) {
    match o
    case NewestFirst => Newer(a, b)
    case BySpace => a.space < b.space || (a.space == b.space && Newer(a, b))
  }

  /** Newest first is by age and then by id, and so it is within each workspace. */
  lemma ScanOrderMeans(a: Row, b: Row)
    ensures Newer(a, b) <==> if a.createdAt == b.createdAt then a.id > b.id else a.createdAt > b.createdAt
    ensures Before(NewestFirst, a, b) <==> Newer(a, b)
    ensures Before(BySpace, a, b) <==> if a.space == b.space then Newer(a, b) else a.space < b.space
  {
  }

  predicate Sorted(o: Order, rows: seq<Row>) {
    forall i, j :: 0 <= i < j < |rows| ==> Before(o, rows[i], rows[j])
  }

  predicate Beyond(o: Order, cursor: Option<Row>, row: Row) {
    cursor.None? || Before(o, cursor.value, row)
  }

  // ---- One page query -----------------------------------------------------------------------

  function Matching(o: Order, rows: seq<Row>, wanted: set<nat>, cursor: Option<Row>): seq<Row> {
    if rows == [] then []
    else
      (if rows[0].space in wanted && Beyond(o, cursor, rows[0]) then [rows[0]] else []) +
      Matching(o, rows[1..], wanted, cursor)
  }

  /** The first `size` rows of the wanted workspaces beyond the cursor. */
  function Page(o: Order, rows: seq<Row>, wanted: set<nat>, cursor: Option<Row>, size: nat): seq<Row> {
    var m := Matching(o, rows, wanted, cursor);
    if size < |m| then m[..size] else m
  }

  lemma {:induction false} MatchingRows(o: Order, rows: seq<Row>, wanted: set<nat>, cursor: Option<Row>)
    requires Sorted(o, rows)
    ensures Sorted(o, Matching(o, rows, wanted, cursor))
    ensures forall r :: r in Matching(o, rows, wanted, cursor) <==>
      r in rows && r.space in wanted && Beyond(o, cursor, r)
  {
    if rows != [] {
      MatchingRows(o, rows[1..], wanted, cursor);
      var rest := Matching(o, rows[1..], wanted, cursor);
      assert rows == [rows[0]] + rows[1..];
      forall r | r in rest ensures Before(o, rows[0], r) {
        var i :| 0 <= i < |rows[1..]| && rows[1..][i] == r;
        assert rows[i + 1] == r;
      }
    }
  }

  /** What the loops use: the page is in order, and a wanted row that is not on it comes after
      all of a full page. */
  lemma PageIsNext(o: Order, rows: seq<Row>, wanted: set<nat>, cursor: Option<Row>, size: nat)
    requires Sorted(o, rows)
    ensures var page := Page(o, rows, wanted, cursor, size);
      && Sorted(o, page) && |page| <= size
      && (forall r :: r in page ==> r in rows && r.space in wanted && Beyond(o, cursor, r))
      && (forall r :: r in rows && r.space in wanted && Beyond(o, cursor, r) && r !in page ==>
            |page| == size && forall k :: 0 <= k < |page| ==> Before(o, page[k], r))
  {
    MatchingRows(o, rows, wanted, cursor);
    var m, page := Matching(o, rows, wanted, cursor), Page(o, rows, wanted, cursor, size);
    if size < |m| {
      forall i | 0 <= i < size ensures m[i] in page { assert page[i] == m[i]; }
    }
  }

  ghost function Rest(o: Order, rows: seq<Row>, cursor: Option<Row>): set<Row> {
    set r | r in rows && Beyond(o, cursor, r)
  }

  lemma CursorMoves(o: Order, rows: seq<Row>, wanted: set<nat>, cursor: Option<Row>, size: nat)
    requires Sorted(o, rows) && Page(o, rows, wanted, cursor, size) != []
    ensures var page := Page(o, rows, wanted, cursor, size);
      |Rest(o, rows, Some(page[|page| - 1]))| < |Rest(o, rows, cursor)|
  {
    PageIsNext(o, rows, wanted, cursor, size);
    var page := Page(o, rows, wanted, cursor, size);
    var last := page[|page| - 1];
    var a, b := Rest(o, rows, Some(last)), Rest(o, rows, cursor);
    assert last in b && last !in a;
    assert a <= b - {last};
    Fewer(a, b - {last});
  }

  lemma {:induction false} Fewer(a: set<Row>, b: set<Row>)
    requires a <= b
    ensures |a| <= |b|
    decreases |a|
  {
    if a != {} {
      var r :| r in a;
      Fewer(a - {r}, b - {r});
    }
  }

  // ---- The scans ----------------------------------------------------------------------------------

  /** A row without what can change about it. */
  function Key(r: Row): Row {
    Row(r.space, r.createdAt, r.id, false, false)
  }

  ghost function RowsOf(page: seq<Row>): set<Row> {
    set r | r in page
  }

  ghost predicate HasKey(rows: seq<Row>, key: Row) {
    exists r :: r in rows && Key(r) == key
  }

  /** A scan reads each of its pages from the table as it is by then. */
  ghost predicate Steady(tables: seq<seq<Row>>, key: Row) {
    forall k :: 0 <= k < |tables| ==> HasKey(tables[k], key)
  }

  ghost predicate Always(tables: seq<seq<Row>>, r: Row) {
    forall k :: 0 <= k < |tables| ==> r in tables[k]
  }

  ghost predicate Ever(tables: seq<seq<Row>>, r: Row) {
    exists k :: 0 <= k < |tables| && r in tables[k]
  }

  predicate AtLeast(a: Row, b: Row) {
    Key(a) == Key(b) || Newer(a, b)
  }

  ghost predicate AllSorted(o: Order, tables: seq<seq<Row>>) {
    forall k :: 0 <= k < |tables| ==> Sorted(o, tables[k])
  }

  lemma PageCovers(o: Order, rows: seq<Row>, wanted: set<nat>, cursor: Option<Row>, size: nat, key: Row)
    requires Sorted(o, rows) && HasKey(rows, key) && key.space in wanted && Beyond(o, cursor, key)
    ensures var page := Page(o, rows, wanted, cursor, size);
      HasKey(page, key) || (|page| == size && forall k :: 0 <= k < |page| ==> Before(o, page[k], key))
  {
    PageIsNext(o, rows, wanted, cursor, size);
    var r :| r in rows && Key(r) == key;
    assert r in Page(o, rows, wanted, cursor, size) ==> HasKey(Page(o, rows, wanted, cursor, size), key);
  }

  /** What the scan has of a workspace is one of its rows, at least as new as each that was there
      throughout. */
  ghost predicate LatestSoFar(tables: seq<seq<Row>>, spaces: set<nat>, latest: map<nat, Row>, unresolved: set<nat>) {
    && unresolved == spaces - latest.Keys && latest.Keys <= spaces
    && (forall w :: w in latest ==> latest[w].space == w && Ever(tables, latest[w]))
    && (forall key :: Steady(tables, key) && key.space in latest ==> AtLeast(latest[key.space], key))
  }

  ghost predicate StillToCome(tables: seq<seq<Row>>, unresolved: set<nat>, cursor: Option<Row>) {
    forall key :: Steady(tables, key) && key.space in unresolved ==> Beyond(NewestFirst, cursor, key)
  }

  ghost predicate Covers(tables: seq<seq<Row>>, page: seq<Row>, unresolved: set<nat>) {
    forall key :: Steady(tables, key) && key.space in unresolved ==>
      HasKey(page, key) || forall k :: 0 <= k < |page| ==> Newer(page[k], key)
  }

  /** The newest row per workspace: the last finalized state, or the last configuration. Rows may
      come and go while the scan moves on: whatever is there throughout is accounted for. */
  method LatestPerSpace(tables: seq<seq<Row>>, spaces: set<nat>, size: nat) returns (latest: map<nat, Row>)
    requires tables != [] && AllSorted(NewestFirst, tables) && size > 0
    ensures forall w :: w in latest ==> w in spaces && latest[w].space == w && Ever(tables, latest[w])
    ensures forall key :: Steady(tables, key) && key.space in spaces ==>
      key.space in latest && AtLeast(latest[key.space], key)
  {
    latest := map[];
    var unresolved, cursor, k := spaces, None, 0;
    while unresolved != {}
      invariant k < |tables| && LatestSoFar(tables, spaces, latest, unresolved)
      invariant StillToCome(tables, unresolved, cursor)
      decreases |tables| - k, |Rest(NewestFirst, tables[k], cursor)|
    {
      var page := Page(NewestFirst, tables[k], unresolved, cursor, size);
      PageIsNext(NewestFirst, tables[k], unresolved, cursor, size);
      LatestCovered(tables, k, unresolved, cursor, size);
      if page == [] { break; }
      CursorMoves(NewestFirst, tables[k], unresolved, cursor, size);
      latest, unresolved := AddLatest(tables, k, spaces, page, latest, unresolved);
      cursor := Some(page[|page| - 1]);
      if |page| < size { break; }
      k := if k + 1 < |tables| then k + 1 else k;
    }
  }

  lemma LatestCovered(tables: seq<seq<Row>>, k: nat, unresolved: set<nat>, cursor: Option<Row>, size: nat)
    requires k < |tables| && AllSorted(NewestFirst, tables) && size > 0 && StillToCome(tables, unresolved, cursor)
    ensures var page := Page(NewestFirst, tables[k], unresolved, cursor, size);
      && Covers(tables, page, unresolved)
      && (|page| < size ==> forall key :: Steady(tables, key) && key.space in unresolved ==> HasKey(page, key))
  {
    var page := Page(NewestFirst, tables[k], unresolved, cursor, size);
    forall key | Steady(tables, key) && key.space in unresolved
      ensures HasKey(page, key) || (|page| == size && forall i :: 0 <= i < |page| ==> Newer(page[i], key))
    {
      PageCovers(NewestFirst, tables[k], unresolved, cursor, size, key);
    }
  }

  method AddLatest(tables: seq<seq<Row>>, ghost k: nat, spaces: set<nat>, page: seq<Row>, latest: map<nat, Row>,
                   unresolved: set<nat>)
    returns (latest2: map<nat, Row>, unresolved2: set<nat>)
    requires LatestSoFar(tables, spaces, latest, unresolved) && Sorted(NewestFirst, page) && k < |tables|
    requires forall r :: r in page ==> r in tables[k] && r.space in unresolved
    requires Covers(tables, page, unresolved)
    ensures LatestSoFar(tables, spaces, latest2, unresolved2) && unresolved2 <= unresolved
    ensures forall r :: r in page ==> r.space !in unresolved2
  {
    latest2, unresolved2 := latest, unresolved;
    var i := 0;
    while i < |page|
      invariant 0 <= i <= |page|
      invariant LatestSoFar(tables, spaces, latest2, unresolved2) && unresolved2 <= unresolved
      invariant forall k :: 0 <= k < i ==> page[k].space !in unresolved2
    {
      var row := page[i];
      if row.space !in latest2 {
        FirstIsLatest(tables, page, unresolved, i, latest2);
        assert Ever(tables, row);
        latest2 := latest2[row.space := row];
        unresolved2 := unresolved2 - {row.space};
      }
      i := i + 1;
    }
  }

  /** The first row of a workspace on the page is as new as any that is there throughout. */
  lemma FirstIsLatest(tables: seq<seq<Row>>, page: seq<Row>, unresolved: set<nat>, i: nat, latest: map<nat, Row>)
    requires i < |page| && Sorted(NewestFirst, page) && Covers(tables, page, unresolved)
    requires page[i].space in unresolved && forall k :: 0 <= k < i ==> page[k].space != page[i].space
    ensures forall key :: Steady(tables, key) && key.space == page[i].space ==> AtLeast(page[i], key)
  {
    forall key | Steady(tables, key) && key.space == page[i].space ensures AtLeast(page[i], key) {
      if HasKey(page, key) {
        var r :| r in page && Key(r) == key;
        var k :| 0 <= k < |page| && page[k] == r;
      }
    }
  }

  ghost predicate HasActive(rows: seq<Row>, w: nat) {
    exists r :: r in rows && r.space == w && r.active
  }

  /** A final row that is accounted for by its workspace's newest attempt. */
  predicate Counted(attempts: map<nat, Row>, r: Row) {
    !r.active && r.space in attempts && AtLeast(attempts[r.space], r)
  }

  /** Scanning workspace by workspace: only a non-final run takes a workspace out of the filter,
      and what was `read` of those still in it is counted. */
  ghost predicate FactsSoFar(tables: seq<seq<Row>>, spaces: set<nat>, active: set<nat>, attempts: map<nat, Row>,
                             read: set<Row>) {
    && active <= spaces && attempts.Keys <= spaces
    && (forall w :: w in active ==> exists r :: Ever(tables, r) && r.space == w && r.active)
    && (forall w :: w in attempts ==> attempts[w] in read && attempts[w].space == w)
    && (forall r :: r in read ==> Ever(tables, r))
    && (forall r :: r in read && r.space in spaces - active ==> Counted(attempts, r))
  }

  ghost predicate ReadKey(read: set<Row>, key: Row) {
    exists r :: r in read && Key(r) == key
  }

  /** Up to the cursor, of the workspaces still in the filter, whatever is there throughout has
      been read; and nothing was read from beyond it. */
  ghost predicate ReadUpTo(tables: seq<seq<Row>>, wanted: set<nat>, read: set<Row>, cursor: Option<Row>) {
    && (forall key :: Steady(tables, key) && key.space in wanted && !Beyond(BySpace, cursor, key) ==>
          ReadKey(read, key))
    && (forall r :: r in read ==> !Beyond(BySpace, cursor, r))
  }

  ghost predicate ReadAll(tables: seq<seq<Row>>, wanted: set<nat>, read: set<Row>) {
    forall key :: Steady(tables, key) && key.space in wanted ==> ReadKey(read, key)
  }

  /** Which workspaces have a non-final run, and the newest attempt of the others. The query
      returns non-final runs and auto-destroy runs, so a final row is an attempt. Runs may be
      created and end while the scan moves on. */
  method RunFacts(tables: seq<seq<Row>>, spaces: set<nat>, size: nat)
    returns (active: set<nat>, attempts: map<nat, Row>)
    requires tables != [] && AllSorted(BySpace, tables) && size > 0
    ensures forall w :: w in active ==> w in spaces && exists r :: Ever(tables, r) && r.space == w && r.active
    ensures forall r :: Always(tables, r) && r.active && r.space in spaces ==>
      r.space in active
    ensures forall key :: Steady(tables, key) && key.space in spaces - active ==>
      key.space in attempts && AtLeast(attempts[key.space], key)
    ensures forall w :: w in attempts && w !in active ==>
      Ever(tables, attempts[w]) && attempts[w].space == w && !attempts[w].active
  {
    active, attempts := {}, map[];
    var cursor, k := None, 0;
    ghost var read: set<Row> := {};
    ghost var done := false;
    while spaces - active != {}
      invariant k < |tables| && !done
      invariant FactsSoFar(tables, spaces, active, attempts, read) && ReadUpTo(tables, spaces - active, read, cursor)
      decreases |tables| - k, |Rest(BySpace, tables[k], cursor)|
    {
      var page;
      page, active, attempts := ReadPage(tables, k, spaces, size, cursor, read, active, attempts);
      read := read + RowsOf(page);
      if |page| < size {
        done := true;
        break;
      }
      cursor := Some(page[|page| - 1]);
      k := if k + 1 < |tables| then k + 1 else k;
    }
    assert ReadAll(tables, spaces - active, read);
    AllCounted(tables, spaces, active, attempts, read);
  }

  /** One page of the scan, with the workspaces in the filter that have no non-final run so far. */
  method ReadPage(tables: seq<seq<Row>>, k: nat, spaces: set<nat>, size: nat, cursor: Option<Row>, ghost read: set<Row>,
                  active: set<nat>, attempts: map<nat, Row>)
    returns (page: seq<Row>, active2: set<nat>, attempts2: map<nat, Row>)
    requires k < |tables| && AllSorted(BySpace, tables) && size > 0
    requires FactsSoFar(tables, spaces, active, attempts, read) && ReadUpTo(tables, spaces - active, read, cursor)
    ensures FactsSoFar(tables, spaces, active2, attempts2, read + RowsOf(page))
    ensures |page| < size ==> ReadAll(tables, spaces - active2, read + RowsOf(page))
    ensures page != [] ==>
      && ReadUpTo(tables, spaces - active2, read + RowsOf(page), Some(page[|page| - 1]))
      && |Rest(BySpace, tables[k], Some(page[|page| - 1]))| < |Rest(BySpace, tables[k], cursor)|
  {
    page := Page(BySpace, tables[k], spaces - active, cursor, size);
    PageFits(tables, k, spaces - active, read, cursor, size);
    active2, attempts2 := AddFacts(tables, k, spaces, page, read, active, attempts);
    FilterShrinks(tables, spaces - active, spaces - active2, read + RowsOf(page), page);
  }

  lemma PageFits(tables: seq<seq<Row>>, k: nat, wanted: set<nat>, read: set<Row>, cursor: Option<Row>, size: nat)
    requires k < |tables| && AllSorted(BySpace, tables) && size > 0 && ReadUpTo(tables, wanted, read, cursor)
    ensures var page := Page(BySpace, tables[k], wanted, cursor, size);
      && Sorted(BySpace, page) && (forall r :: r in page ==> r in tables[k] && r.space in wanted)
      && (forall q, r :: q in read && r in page && q.space == r.space ==> Newer(q, r))
      && (|page| < size ==> ReadAll(tables, wanted, read + RowsOf(page)))
      && (page != [] ==>
            && ReadUpTo(tables, wanted, read + RowsOf(page), Some(page[|page| - 1]))
            && |Rest(BySpace, tables[k], Some(page[|page| - 1]))| < |Rest(BySpace, tables[k], cursor)|)
  {
    PageIsNext(BySpace, tables[k], wanted, cursor, size);
    ShortPageEnds(tables, k, wanted, read, cursor, size);
    if Page(BySpace, tables[k], wanted, cursor, size) != [] {
      PageIsRead(tables, k, wanted, read, cursor, size);
      CursorMoves(BySpace, tables[k], wanted, cursor, size);
    }
  }

  lemma FilterShrinks(tables: seq<seq<Row>>, wanted: set<nat>, wanted2: set<nat>, read: set<Row>, page: seq<Row>)
    requires wanted2 <= wanted
    ensures ReadAll(tables, wanted, read) ==> ReadAll(tables, wanted2, read)
    ensures page != [] && ReadUpTo(tables, wanted, read, Some(page[|page| - 1])) ==>
      ReadUpTo(tables, wanted2, read, Some(page[|page| - 1]))
  {
  }

  /** A short page leaves nothing of the open workspaces behind. */
  lemma ShortPageEnds(tables: seq<seq<Row>>, k: nat, wanted: set<nat>, read: set<Row>, cursor: Option<Row>, size: nat)
    requires k < |tables| && AllSorted(BySpace, tables) && size > 0 && ReadUpTo(tables, wanted, read, cursor)
    ensures var page := Page(BySpace, tables[k], wanted, cursor, size);
      |page| < size ==> ReadAll(tables, wanted, read + RowsOf(page))
  {
    var page := Page(BySpace, tables[k], wanted, cursor, size);
    var read2 := read + RowsOf(page);
    if |page| < size {
      forall key | Steady(tables, key) && key.space in wanted ensures ReadKey(read2, key) {
        ReadKeyGrows(tables, k, wanted, read, cursor, size, key);
      }
    }
  }

  lemma ReadKeyGrows(tables: seq<seq<Row>>, k: nat, wanted: set<nat>, read: set<Row>, cursor: Option<Row>, size: nat,
                     key: Row)
    requires k < |tables| && AllSorted(BySpace, tables) && ReadUpTo(tables, wanted, read, cursor)
    requires Steady(tables, key) && key.space in wanted
    ensures var page := Page(BySpace, tables[k], wanted, cursor, size);
      || ReadKey(read + RowsOf(page), key)
      || (|page| == size && Beyond(BySpace, cursor, key)
          && forall i :: 0 <= i < |page| ==> Before(BySpace, page[i], key))
  {
    var page := Page(BySpace, tables[k], wanted, cursor, size);
    if Beyond(BySpace, cursor, key) {
      PageCovers(BySpace, tables[k], wanted, cursor, size, key);
      if HasKey(page, key) {
        var r :| r in page && Key(r) == key;
        assert r in read + RowsOf(page);
      }
    } else {
      var r :| r in read && Key(r) == key;
      assert r in read + RowsOf(page);
    }
  }

  /** The new cursor stands at the end of the page. */
  lemma PageIsRead(tables: seq<seq<Row>>, k: nat, wanted: set<nat>, read: set<Row>, cursor: Option<Row>, size: nat)
    requires k < |tables| && AllSorted(BySpace, tables) && ReadUpTo(tables, wanted, read, cursor)
    requires Page(BySpace, tables[k], wanted, cursor, size) != []
    ensures var page := Page(BySpace, tables[k], wanted, cursor, size);
      && ReadUpTo(tables, wanted, read + RowsOf(page), Some(page[|page| - 1]))
      && (forall q, r :: q in read && r in page && q.space == r.space ==> Newer(q, r))
  {
    var page := Page(BySpace, tables[k], wanted, cursor, size);
    var read2, last := read + RowsOf(page), Some(page[|page| - 1]);
    PageIsNext(BySpace, tables[k], wanted, cursor, size);
    forall key | Steady(tables, key) && key.space in wanted && !Beyond(BySpace, last, key) ensures ReadKey(read2, key) {
      ReadKeyGrows(tables, k, wanted, read, cursor, size, key);
    }
    forall r | r in read2 ensures !Beyond(BySpace, last, r) {
      if r in page { var i :| 0 <= i < |page| && page[i] == r; } else { assert page[|page| - 1] in page; }
    }
  }

  /** The rows of one table differ in their keys. */
  lemma OneRowPerKey(rows: seq<Row>, a: Row, b: Row)
    requires Sorted(BySpace, rows) && a in rows && b in rows && Key(a) == Key(b)
    ensures a == b
  {
    var i :| 0 <= i < |rows| && rows[i] == a;
    var j :| 0 <= j < |rows| && rows[j] == b;
  }

  lemma AllCounted(tables: seq<seq<Row>>, spaces: set<nat>, active: set<nat>, attempts: map<nat, Row>, read: set<Row>)
    requires tables != [] && AllSorted(BySpace, tables)
    requires FactsSoFar(tables, spaces, active, attempts, read) && ReadAll(tables, spaces - active, read)
    ensures forall key :: Steady(tables, key) && key.space in spaces - active ==>
      key.space in attempts && AtLeast(attempts[key.space], key)
    ensures forall r :: Always(tables, r) && r.active && r.space in spaces ==>
      r.space in active
    ensures forall w :: w in attempts && w !in active ==> !attempts[w].active
  {
    forall key | Steady(tables, key) && key.space in spaces - active
      ensures key.space in attempts && AtLeast(attempts[key.space], key)
    {
      var r :| r in read && Key(r) == key;
    }
    forall r | Always(tables, r) && r.active && r.space in spaces
      ensures r.space in active
    {
      if r.space !in active { ActiveIsSeen(tables, spaces, active, attempts, read, r); }
    }
  }

  lemma ActiveIsSeen(tables: seq<seq<Row>>, spaces: set<nat>, active: set<nat>, attempts: map<nat, Row>,
                     read: set<Row>, r: Row)
    requires tables != [] && AllSorted(BySpace, tables)
    requires FactsSoFar(tables, spaces, active, attempts, read) && ReadAll(tables, spaces - active, read)
    requires Always(tables, r) && r.space in spaces - active
    ensures !r.active
  {
    assert forall k :: 0 <= k < |tables| ==> HasKey(tables[k], Key(r));
    assert Steady(tables, Key(r));
    var q :| q in read && Key(q) == Key(r);
    var k :| 0 <= k < |tables| && q in tables[k];
    OneRowPerKey(tables[k], q, r);
  }

  method AddFacts(tables: seq<seq<Row>>, ghost k: nat, spaces: set<nat>, page: seq<Row>, ghost read: set<Row>,
                  active: set<nat>, attempts: map<nat, Row>)
    returns (active2: set<nat>, attempts2: map<nat, Row>)
    requires FactsSoFar(tables, spaces, active, attempts, read) && Sorted(BySpace, page) && k < |tables|
    requires forall r :: r in page ==> r in tables[k] && r.space in spaces - active
    requires forall q, r :: q in read && r in page && q.space == r.space ==> Newer(q, r)
    ensures FactsSoFar(tables, spaces, active2, attempts2, read + RowsOf(page)) && active <= active2
  {
    active2, attempts2 := active, attempts;
    ghost var counted := read;
    var i := 0;
    while i < |page|
      invariant 0 <= i <= |page| && active <= active2
      invariant forall r :: r in counted <==> r in read || r in page[..i]
      invariant FactsSoFar(tables, spaces, active2, attempts2, counted)
    {
      var row := page[i];
      assert page[..i + 1] == page[..i] + [row];
      assert row in tables[k];
      CountRow(tables, spaces, active2, attempts2, counted, row);
      counted := counted + {row};
      if row.active {
        active2 := active2 + {row.space};
      } else if row.space !in attempts2 {
        attempts2 := attempts2[row.space := row];
      }
      i := i + 1;
    }
    assert counted == read + RowsOf(page);
  }

  lemma CountRow(tables: seq<seq<Row>>, spaces: set<nat>, active: set<nat>, attempts: map<nat, Row>, read: set<Row>,
                 row: Row)
    requires FactsSoFar(tables, spaces, active, attempts, read) && Ever(tables, row) && row.space in spaces
    requires forall q :: q in read && q.space == row.space ==> Newer(q, row)
    ensures row.active ==> FactsSoFar(tables, spaces, active + {row.space}, attempts, read + {row})
    ensures !row.active && row.space !in attempts ==>
      FactsSoFar(tables, spaces, active, attempts[row.space := row], read + {row})
    ensures !row.active && row.space in attempts ==> FactsSoFar(tables, spaces, active, attempts, read + {row})
  {
  }

  // ---- The decision -----------------------------------------------------------------------------------

  /** `destroyAt` is the parsed schedule, `duration` the parsed inactivity duration. */
  datatype Space = Space(createdAt: nat, locked: bool, destroyAt: Option<int>, duration: Option<nat>)

  datatype Decision = Nothing | Scheduled | Inactive

  predicate ScheduleDue(ws: Space, now: int) {
    ws.destroyAt.Some? && ws.destroyAt.value <= now
  }

  /** Since the workspace was created, since its last finalized state and since its last
      auto-destroy run, the inactivity duration has passed. */
  ghost predicate InactivityDue(ws: Space, w: nat, states: seq<Row>, runs: seq<Row>, now: int) {
    && ws.duration.Some? && ws.createdAt + ws.duration.value <= now
    && (forall r :: r in states && r.space == w ==> r.createdAt + ws.duration.value <= now)
    && (forall r :: r in runs && r.space == w && r.attempt ==> r.createdAt + ws.duration.value <= now)
  }

  ghost function Due(ws: Space, w: nat, states: seq<Row>, runs: seq<Row>, now: int): Decision {
    if ws.locked || HasActive(runs, w) then Nothing
    else if ScheduleDue(ws, now) then Scheduled
    else if InactivityDue(ws, w, states, runs, now) then Inactive
    else Nothing
  }

  function Max(a: int, b: int): int {
    if a < b then b else a
  }

  /** In a table that stands still, what the scan found says how old all rows of a workspace are. */
  lemma StillBounds(rows: seq<Row>, w: nat, newest: map<nat, Row>, bound: int)
    requires w in newest ==> Ever([rows], newest[w]) && newest[w].space == w
    requires forall key :: Steady([rows], key) && key.space == w ==> w in newest && AtLeast(newest[w], key)
    ensures (w in newest ==> newest[w].createdAt <= bound) <==>
      forall r :: r in rows && r.space == w ==> r.createdAt <= bound
  {
    forall r | r in rows && r.space == w ensures w in newest && AtLeast(newest[w], Key(r)) {
      assert HasKey([rows][0], Key(r));
      assert Steady([rows], Key(r));
    }
    if w in newest {
      var k :| 0 <= k < |[rows]| && newest[w] in [rows][k];
      assert newest[w] in rows;
    }
  }

  lemma StillActive(rows: seq<Row>, w: nat, active: set<nat>)
    requires w in active ==> exists r :: Ever([rows], r) && r.space == w && r.active
    requires forall r :: Always([rows], r) && r.active && r.space == w ==> w in active
    ensures w in active <==> HasActive(rows, w)
  {
    if w in active {
      var r :| Ever([rows], r) && r.space == w && r.active;
      var k :| 0 <= k < |[rows]| && r in [rows][k];
      assert r in rows;
    }
    if HasActive(rows, w) {
      var r :| r in rows && r.space == w && r.active;
      assert Always([rows], r);
    }
  }

  /** Every row of the workspace that is there throughout is as old as the duration. */
  ghost predicate AllOld(tables: seq<seq<Row>>, w: nat, duration: nat, now: int) {
    forall key :: Steady(tables, key) && key.space == w ==> key.createdAt + duration <= now
  }

  lemma OldThroughout(tables: seq<seq<Row>>, w: nat, newest: map<nat, Row>, duration: nat, now: int)
    requires forall key :: Steady(tables, key) && key.space == w ==> w in newest && AtLeast(newest[w], key)
    requires LastAt(newest, w) + duration <= now
    ensures AllOld(tables, w, duration, now)
  {
  }

  function LastAt(newest: map<nat, Row>, w: nat): int {
    if w in newest then newest[w].createdAt else 0
  }

  function Decide(ws: Space, stateAt: int, attemptAt: int, now: int): Decision {
    if ScheduleDue(ws, now) then Scheduled
    else if ws.duration.Some? && Max(Max(ws.createdAt, stateAt), attemptAt) + ws.duration.value <= now then Inactive
    else Nothing
  }

  lemma StillDecision(ws: Space, w: nat, states: seq<Row>, runs: seq<Row>, latest: map<nat, Row>,
                      active: set<nat>, attempts: map<nat, Row>, now: int)
    requires forall r :: r in runs ==> r.active || r.attempt
    requires w in active ==> exists r :: Ever([runs], r) && r.space == w && r.active
    requires forall r :: Always([runs], r) && r.active && r.space == w ==> w in active
    requires w in latest ==> Ever([states], latest[w]) && latest[w].space == w
    requires forall key :: Steady([states], key) && key.space == w ==> w in latest && AtLeast(latest[w], key)
    requires w in attempts && w !in active ==> Ever([runs], attempts[w]) && attempts[w].space == w
    requires w !in active ==>
      forall key :: Steady([runs], key) && key.space == w ==> w in attempts && AtLeast(attempts[w], key)
    ensures Due(ws, w, states, runs, now) ==
            if ws.locked || w in active then Nothing else Decide(ws, LastAt(latest, w), LastAt(attempts, w), now)
  {
    StillActive(runs, w, active);
    if w !in active && ws.duration.Some? {
      StillBounds(states, w, latest, now - ws.duration.value);
      StillBounds(runs, w, attempts, now - ws.duration.value);
      assert forall r :: r in runs && r.space == w ==> r.attempt;
    }
  }

  /** One workspace of one poll. What the scans found decides exactly what is due, if the tables
      stand still. If they change meanwhile, a run still needs its reason: no run that was active
      throughout, and for inactivity no state or attempt that was there throughout and is recent. */
  method ProcessWorkspace(ws: Space, w: nat, states: seq<seq<Row>>, runs: seq<seq<Row>>, size: nat, now: int)
    returns (d: Decision)
    requires states != [] && runs != [] && AllSorted(NewestFirst, states) && AllSorted(BySpace, runs) && size > 0
    requires forall k, r :: 0 <= k < |runs| && r in runs[k] ==> r.active || r.attempt
    ensures |states| == |runs| == 1 ==> d == Due(ws, w, states[0], runs[0], now)
    ensures !d.Nothing? ==> !ws.locked && forall r :: Always(runs, r) && r.active ==> r.space != w
    ensures d.Scheduled? ==> ScheduleDue(ws, now)
    ensures d.Inactive? ==>
      && ws.duration.Some? && ws.createdAt + ws.duration.value <= now
      && AllOld(states, w, ws.duration.value, now) && AllOld(runs, w, ws.duration.value, now)
  {
    var latestStateAt := LatestPerSpace(states, {w}, size);
    var active, attempts := RunFacts(runs, {w}, size);
    if |states| == |runs| == 1 {
      assert states == [states[0]] && runs == [runs[0]];
      StillDecision(ws, w, states[0], runs[0], latestStateAt, active, attempts, now);
    }
    if ws.locked || w in active { return Nothing; }
    d := Decide(ws, LastAt(latestStateAt, w), LastAt(attempts, w), now);
    if d.Inactive? {
      OldThroughout(states, w, latestStateAt, ws.duration.value, now);
      OldThroughout(runs, w, attempts, ws.duration.value, now);
    }
  }

  // ---- A workspace's history -----------------------------------------------------------------------------

  /** An auto-destroy run: the poll's time, whether for inactivity or for which schedule stamp,
      the duration the poll read, and its row. */
  datatype Entry = Entry(at: nat, inactive: bool, duration: nat, stamp: nat, row: nat)

  /** What a poll decided, and how many auto-destroy runs there were when it read the facts. */
  datatype Facts = Facts(decision: Decision, seen: nat)

  /** A poll under way: the workspace row and stamp it read first, then the facts. */
  datatype Poll = Poll(ws: Space, stamp: nat, now: nat, facts: Option<Facts>)

  /** `stamps` counts the schedules users have set; `stamp` says which of them the row holds. A
      node's polls follow one another; two nodes poll at once after a change of leader. */
  datatype World = World(ws: Space, stamp: nat, stamps: nat, states: seq<Row>, runs: seq<Row>,
                         created: seq<Entry>, polls: map<nat, Poll>)

  datatype Event =
    | ReadSpace(node: nat, now: nat)
    | ReadFacts(node: nat)
    | Insert(node: nat, id: int)
    | EndRun(index: nat)
    | OtherRun(run: Row)
    | SaveState(state: Row)
    | SetSchedule(at: Option<int>)
    | WriteBack(at: Option<int>, stamp: nat)   // an update of other settings, from a row read earlier
    | Configure(locked: bool, duration: Option<nat>)

  ghost predicate Decided(s: World, node: nat) {
    node in s.polls && s.polls[node].facts.Some? && !s.polls[node].facts.value.decision.Nothing?
  }

  function DurationOf(ws: Space): nat {
    if ws.duration.Some? then ws.duration.value else 0
  }

  function NewEntry(s: World, p: Poll, d: Decision): Entry {
    if d.Inactive? then Entry(p.now, true, DurationOf(p.ws), p.stamp, |s.runs|)
    else Entry(p.now, false, 0, p.stamp, |s.runs|)
  }

  /** The insertion, and for a schedule the clearing of the stamp in the same transaction. */
  ghost function Inserted(s: World, w: nat, node: nat, id: int): World
    requires Decided(s, node)
  {
    var p := s.polls[node];
    var d := p.facts.value.decision;
    s.(runs := s.runs + [Row(w, p.now, id, true, true)],
       ws := if d.Scheduled? then s.ws.(destroyAt := None) else s.ws,
       created := s.created + [NewEntry(s, p, d)],
       polls := s.polls - {node})
  }

  ghost function FactsRead(s: World, w: nat, node: nat): World
    requires node in s.polls
  {
    var p := s.polls[node];
    s.(polls := s.polls[node := p.(facts := Some(Facts(Due(p.ws, w, s.states, s.runs, p.now), |s.created|)))])
  }

  ghost function After(s: World, w: nat, event: Event): World {
    match event
    case ReadSpace(node, now) => s.(polls := s.polls[node := Poll(s.ws, s.stamp, now, None)])
    case ReadFacts(node) => if node in s.polls && s.polls[node].facts.None? then FactsRead(s, w, node) else s
    case Insert(node, id) => if Decided(s, node) then Inserted(s, w, node, id) else s.(polls := s.polls - {node})
    case EndRun(i) => if i < |s.runs| then s.(runs := s.runs[i := s.runs[i].(active := false)]) else s
    case OtherRun(run) => if run.attempt then s else s.(runs := s.runs + [run])
    case SaveState(state) => s.(states := s.states + [state])
    case SetSchedule(at) => s.(ws := s.ws.(destroyAt := at), stamps := s.stamps + 1, stamp := s.stamps + 1)
    case WriteBack(at, stamp) => if stamp <= s.stamps then s.(ws := s.ws.(destroyAt := at), stamp := stamp) else s
    case Configure(locked, duration) => s.(ws := s.ws.(locked := locked, duration := duration))
  }

  ghost function History(s: World, w: nat, events: seq<Event>): World
    decreases |events|
  {
    if events == [] then s else History(After(s, w, events[0]), w, events[1..])
  }

  // ---- What auto-destroy promises, and exactly when it fails -----------------------------------------------

  /** An inactivity run comes at least the configured duration after every earlier one. */
  ghost predicate Spaced(created: seq<Entry>) {
    forall i, j :: 0 <= i < j < |created| && created[j].inactive ==>
      created[i].at + created[j].duration <= created[j].at
  }

  /** No two scheduled runs stem from one stamp. */
  ghost predicate StampsOnce(created: seq<Entry>) {
    forall i, j :: 0 <= i < j < |created| && !created[i].inactive && !created[j].inactive ==>
      created[i].stamp != created[j].stamp
  }

  /** Every auto-destroy run is on record with its own row. */
  ghost predicate Recorded(s: World, w: nat) {
    forall i :: 0 <= i < |s.created| ==>
      && s.created[i].row < |s.runs| && s.runs[s.created[i].row].space == w
      && s.runs[s.created[i].row].attempt && s.runs[s.created[i].row].createdAt == s.created[i].at
  }

  predicate Active(s: World, i: nat)
    requires i < |s.created|
  {
    s.created[i].row < |s.runs| && s.runs[s.created[i].row].active
  }

  ghost predicate OneActiveAttempt(s: World) {
    forall i, j :: 0 <= i < j < |s.created| ==> !(Active(s, i) && Active(s, j))
  }

  ghost predicate Promised(s: World) {
    Spaced(s.created) && StampsOnce(s.created) && OneActiveAttempt(s)
  }

  ghost predicate Fired(s: World, stamp: nat) {
    exists i :: 0 <= i < |s.created| && !s.created[i].inactive && s.created[i].stamp == stamp
  }

  /** What a poll with facts knows of the auto-destroy runs it has seen. */
  ghost predicate PollOk(s: World, p: Poll) {
    p.facts.Some? ==>
      && p.facts.value.seen <= |s.created|
      && (!p.facts.value.decision.Nothing? ==> forall i :: 0 <= i < p.facts.value.seen ==> !Active(s, i))
      && (p.facts.value.decision.Inactive? ==>
            forall i :: 0 <= i < p.facts.value.seen ==> s.created[i].at + DurationOf(p.ws) <= p.now)
  }

  ghost predicate WorldInv(s: World, w: nat) {
    Recorded(s, w) && forall n :: n in s.polls ==> PollOk(s, s.polls[n])
  }

  /** The poll inserts although an auto-destroy run that it has not seen is under way or too
      recent, or although the stamp that it read has fired. */
  ghost predicate Clashes(s: World, event: Event) {
    && event.Insert? && Decided(s, event.node)
    && var p := s.polls[event.node];
       var d := p.facts.value;
      || (exists i :: d.seen <= i < |s.created| &&
                      (Active(s, i) || (d.decision.Inactive? && s.created[i].at + DurationOf(p.ws) > p.now)))
      || (d.decision.Scheduled? && Fired(s, p.stamp))
  }

  lemma PollStaysOk(s: World, w: nat, t: World, p: Poll)
    requires Recorded(s, w) && PollOk(s, p) && s.created <= t.created && |s.runs| <= |t.runs|
    requires forall k :: 0 <= k < |s.runs| ==> t.runs[k].active ==> s.runs[k].active
    ensures PollOk(t, p)
  {
    forall i | 0 <= i < |s.created| ensures Active(t, i) ==> Active(s, i) { assert s.created[i] == t.created[i]; }
  }

  lemma FactsAreOk(s: World, w: nat, node: nat)
    requires WorldInv(s, w) && node in s.polls
    ensures PollOk(s, FactsRead(s, w, node).polls[node])
  {
    forall i | 0 <= i < |s.created| ensures s.runs[s.created[i].row] in s.runs { }
  }

  lemma FactsKeepInv(s: World, w: nat, node: nat)
    requires WorldInv(s, w) && node in s.polls
    ensures WorldInv(FactsRead(s, w, node), w)
  {
    FactsAreOk(s, w, node);
    forall n | n in s.polls && n != node ensures PollOk(FactsRead(s, w, node), s.polls[n]) {
      PollStaysOk(s, w, FactsRead(s, w, node), s.polls[n]);
    }
  }

  lemma InsertKeepsInv(s: World, w: nat, node: nat, id: int)
    requires WorldInv(s, w) && Decided(s, node)
    ensures WorldInv(Inserted(s, w, node, id), w)
  {
    var t := Inserted(s, w, node, id);
    forall i | 0 <= i < |s.created| ensures Active(t, i) == Active(s, i) { }
  }

  lemma {:induction false} EventKeepsInv(s: World, w: nat, event: Event)
    requires WorldInv(s, w)
    ensures WorldInv(After(s, w, event), w)
  {
    match event
    case ReadFacts(node) => if node in s.polls { FactsKeepInv(s, w, node); }
    case Insert(node, id) => if Decided(s, node) { InsertKeepsInv(s, w, node, id); } else { PollsStayOk(s, w, event); }
    case _ => PollsStayOk(s, w, event);
  }

  lemma PollsStayOk(s: World, w: nat, event: Event)
    requires WorldInv(s, w) && !event.ReadFacts? && (event.Insert? ==> !Decided(s, event.node))
    ensures WorldInv(After(s, w, event), w)
  {
    var t := After(s, w, event);
    forall n | n in t.polls ensures PollOk(t, t.polls[n]) {
      if n in s.polls && t.polls[n] == s.polls[n] { PollStaysOk(s, w, t, s.polls[n]); }
    }
  }

  lemma OtherEventsKeepPromise(s: World, w: nat, event: Event)
    requires WorldInv(s, w) && Promised(s) && (event.Insert? ==> !Decided(s, event.node))
    ensures Promised(After(s, w, event))
  {
    var t := After(s, w, event);
    forall i | 0 <= i < |s.created| ensures Active(t, i) ==> Active(s, i) { }
  }

  lemma InsertKeepsPromise(s: World, w: nat, node: nat, id: int)
    requires WorldInv(s, w) && Promised(s) && Decided(s, node)
    ensures Promised(Inserted(s, w, node, id)) <==> !Clashes(s, Insert(node, id))
  {
    var t, n, p := Inserted(s, w, node, id), |s.created|, s.polls[node];
    var d := p.facts.value;
    forall i | 0 <= i < n ensures Active(t, i) == Active(s, i) && t.created[i] == s.created[i] { }
    assert Active(t, n) && t.created[n] == NewEntry(s, p, d.decision);
    if Clashes(s, Insert(node, id)) {
      if d.decision.Scheduled? && Fired(s, p.stamp) {
        var i :| 0 <= i < n && !s.created[i].inactive && s.created[i].stamp == p.stamp;
        assert !StampsOnce(t.created);
      } else {
        var i :| d.seen <= i < n &&
                 (Active(s, i) || (d.decision.Inactive? && s.created[i].at + DurationOf(p.ws) > p.now));
        assert Active(t, i) ==> !OneActiveAttempt(t);
        assert !Active(t, i) ==> !Spaced(t.created);
      }
    }
  }

  /** An event breaks what auto-destroy promises exactly if it is a clashing insertion. */
  lemma {:induction false} PromiseBrokenExactly(s: World, w: nat, event: Event)
    requires WorldInv(s, w) && Promised(s)
    ensures Promised(After(s, w, event)) <==> !Clashes(s, event)
  {
    if event.Insert? && Decided(s, event.node) {
      InsertKeepsPromise(s, w, event.node, event.id);
    } else {
      OtherEventsKeepPromise(s, w, event);
    }
  }

  ghost predicate AlwaysPromised(s: World, w: nat, events: seq<Event>)
    decreases |events|
  {
    Promised(s) && (events != [] ==> AlwaysPromised(After(s, w, events[0]), w, events[1..]))
  }

  ghost predicate NeverClashes(s: World, w: nat, events: seq<Event>)
    decreases |events|
  {
    events != [] ==> !Clashes(s, events[0]) && NeverClashes(After(s, w, events[0]), w, events[1..])
  }

  lemma {:induction false} PromiseOverEvents(s: World, w: nat, events: seq<Event>)
    requires WorldInv(s, w) && Promised(s)
    ensures AlwaysPromised(s, w, events) <==> NeverClashes(s, w, events)
    decreases |events|
  {
    if events != [] {
      PromiseBrokenExactly(s, w, events[0]);
      EventKeepsInv(s, w, events[0]);
      if !Clashes(s, events[0]) {
        PromiseOverEvents(After(s, w, events[0]), w, events[1..]);
      } else {
        assert !AlwaysPromised(After(s, w, events[0]), w, events[1..]);
      }
    }
  }

  predicate Fresh(s: World) {
    s.created == [] && s.polls == map[] && s.stamp <= s.stamps
  }

  /** Over any history, whatever users, runs and other nodes' polls do between a poll's reads and
      its insertion: at every moment inactivity runs are spaced by the configured duration,
      each stamp has fired at most once and at most one auto-destroy run is under way, exactly
      if no insertion clashes. */
  lemma {:induction false} PromiseKeptExactly(s: World, w: nat, events: seq<Event>)
    requires Fresh(s)
    ensures AlwaysPromised(s, w, events) <==> NeverClashes(s, w, events)
  {
    PromiseOverEvents(s, w, events);
  }

  // ---- One poll at a time, and no stale writes ---------------------------------------------------------------

  /** No poll starts while another node's is under way, and no update brings a fired stamp back. */
  ghost predicate Orderly(s: World, w: nat, events: seq<Event>)
    decreases |events|
  {
    events != [] ==>
      && (events[0].ReadSpace? ==> s.polls.Keys <= {events[0].node})
      && (events[0].WriteBack? && events[0].at.Some? ==> !Fired(s, events[0].stamp))
      && Orderly(After(s, w, events[0]), w, events[1..])
  }

  ghost predicate OrderlyInv(s: World) {
    && s.stamp <= s.stamps
    && (forall i :: 0 <= i < |s.created| ==> s.created[i].stamp <= s.stamps)
    && (s.ws.destroyAt.Some? ==> !Fired(s, s.stamp))
    && (forall n, m :: n in s.polls && m in s.polls ==> n == m)
    && (forall n :: n in s.polls ==>
          && s.polls[n].stamp <= s.stamps && (s.polls[n].ws.destroyAt.Some? ==> !Fired(s, s.polls[n].stamp))
          && (s.polls[n].facts.Some? ==>
                s.polls[n].facts.value.seen == |s.created|
                && (s.polls[n].facts.value.decision.Scheduled? ==> s.polls[n].ws.destroyAt.Some?)))
  }

  lemma OrderlyInsertion(s: World, w: nat, node: nat, id: int)
    requires OrderlyInv(s) && Decided(s, node)
    ensures OrderlyInv(Inserted(s, w, node, id)) && !Clashes(s, Insert(node, id))
  {
    var t, n := Inserted(s, w, node, id), |s.created|;
    assert s.polls.Keys == {node};
    assert t.polls == map[];
    assert t.created[n].stamp == s.polls[node].stamp;
  }

  lemma {:induction false} OrderlyStep(s: World, w: nat, events: seq<Event>)
    requires OrderlyInv(s) && events != [] && Orderly(s, w, events)
    ensures OrderlyInv(After(s, w, events[0])) && !Clashes(s, events[0])
  {
    if events[0].Insert? {
      if Decided(s, events[0].node) { OrderlyInsertion(s, w, events[0].node, events[0].id); }
    } else {
      var t := After(s, w, events[0]);
      forall stamp ensures Fired(t, stamp) == Fired(s, stamp) { }
    }
  }

  lemma {:induction false} OrderlyNeverClashes(s: World, w: nat, events: seq<Event>)
    requires OrderlyInv(s) && Orderly(s, w, events)
    ensures NeverClashes(s, w, events)
    decreases |events|
  {
    if events != [] {
      OrderlyStep(s, w, events);
      OrderlyNeverClashes(After(s, w, events[0]), w, events[1..]);
    }
  }

  /** With one poll at a time and no fired stamp written back, the promise is kept throughout,
      although users and runs change what a poll has read before it inserts. */
  lemma {:induction false} DestroysAreSpaced(s: World, w: nat, events: seq<Event>)
    requires Fresh(s) && Orderly(s, w, events)
    ensures AlwaysPromised(s, w, events)
  {
    OrderlyNeverClashes(s, w, events);
    PromiseKeptExactly(s, w, events);
  }

  // ---- What a poll does, exactly -----------------------------------------------------------------------------

  /** The event is no step of the node's own poll. */
  predicate OfOthers(event: Event, node: nat) {
    match event
    case ReadSpace(n, _) => n != node
    case ReadFacts(n) => n != node
    case Insert(n, _) => n != node
    case _ => true
  }

  lemma OthersLeavePoll(s: World, w: nat, event: Event, node: nat)
    requires node in s.polls && OfOthers(event, node)
    ensures node in After(s, w, event).polls && After(s, w, event).polls[node] == s.polls[node]
  {
  }

  lemma {:induction false} PollWaits(s: World, w: nat, events: seq<Event>, node: nat)
    requires node in s.polls && forall k | 0 <= k < |events| :: OfOthers(events[k], node)
    ensures node in History(s, w, events).polls && History(s, w, events).polls[node] == s.polls[node]
    decreases |events|
  {
    if events != [] {
      OthersLeavePoll(s, w, events[0], node);
      PollWaits(After(s, w, events[0]), w, events[1..], node);
    }
  }

  /** The workspace as it was read and the tables as they are call for a run: it is not locked, no
      run of it is under way, and its schedule has come, or everything that counts as activity,
      its creation, its finalized states and its auto-destroy runs, lies the duration back. */
  ghost predicate CallsForRun(ws: Space, w: nat, now: nat, facts: World) {
    && !ws.locked && (forall r :: r in facts.runs && r.space == w ==> !r.active)
    && (|| (ws.destroyAt.Some? && now >= ws.destroyAt.value)
        || (&& ws.duration.Some? && now >= ws.createdAt + ws.duration.value
            && (forall r :: r in facts.states && r.space == w ==> now >= r.createdAt + ws.duration.value)
            && (forall r :: r in facts.runs && r.space == w && r.attempt ==> now >= r.createdAt + ws.duration.value)))
  }

  lemma DueExactly(ws: Space, w: nat, now: nat, facts: World)
    ensures var d := Due(ws, w, facts.states, facts.runs, now);
      && (d.Nothing? <==> !CallsForRun(ws, w, now, facts))
      && (!d.Nothing? ==> (d.Scheduled? <==> ws.destroyAt.Some? && now >= ws.destroyAt.value))
  {
    if HasActive(facts.runs, w) {
      var r :| r in facts.runs && r.space == w && r.active;
    }
  }

  /** Over any history: a poll creates an auto-destroy run exactly if the workspace as it read it and
      the tables at its second read call for one, whatever happens in between; a run for a schedule
      clears it. */
  lemma {:induction false} PollDestroysExactly(s: World, w: nat, node: nat, now: nat, between: seq<Event>,
                                               later: seq<Event>, id: int)
    requires forall k | 0 <= k < |between| :: OfOthers(between[k], node)
    requires forall k | 0 <= k < |later| :: OfOthers(later[k], node)
    ensures var facts := History(After(s, w, ReadSpace(node, now)), w, between);
      var last := History(After(facts, w, ReadFacts(node)), w, later);
      var end, scheduled := After(last, w, Insert(node, id)), s.ws.destroyAt.Some? && now >= s.ws.destroyAt.value;
      if CallsForRun(s.ws, w, now, facts) then
        && end.runs == last.runs + [Row(w, now, id, true, true)]
        && end.created == last.created + [if scheduled then Entry(now, false, 0, s.stamp, |last.runs|)
                                          else Entry(now, true, s.ws.duration.value, s.stamp, |last.runs|)]
        && end.ws == last.ws.(destroyAt := if scheduled then None else last.ws.destroyAt)
      else end.runs == last.runs && end.created == last.created && end.ws == last.ws
    ensures var facts := History(After(s, w, ReadSpace(node, now)), w, between);
      var last := History(After(facts, w, ReadFacts(node)), w, later);
      After(last, w, Insert(node, id)).polls == last.polls - {node}
  {
    var first := After(s, w, ReadSpace(node, now));
    PollWaits(first, w, between, node);
    var facts := History(first, w, between);
    DueExactly(s.ws, w, now, facts);
    PollWaits(After(facts, w, ReadFacts(node)), w, later, node);
  }

  /** What users set is what the next poll reads. */
  lemma SettingsAreRead(s: World, w: nat, node: nat, now: nat, at: Option<int>, locked: bool, duration: Option<nat>)
    ensures var changed := After(After(s, w, Configure(locked, duration)), w, SetSchedule(at));
      var t := After(changed, w, ReadSpace(node, now));
      node in t.polls && t.polls[node] == Poll(Space(s.ws.createdAt, locked, at, duration), s.stamps + 1, now, None)
  {
  }

  /** What is saved, started and ended is in the tables that the next poll reads. */
  lemma ActivityIsSeen(s: World, w: nat, state: Row, run: Row, i: nat)
    ensures After(s, w, SaveState(state)).states == s.states + [state]
    ensures After(s, w, OtherRun(run)).runs == if run.attempt then s.runs else s.runs + [run]
    ensures i < |s.runs| ==> After(s, w, EndRun(i)).runs == s.runs[i := s.runs[i].(active := false)]
  {
  }

  // ---- Two insertions that clash -----------------------------------------------------------------------------

  lemma Extend(s: World, w: nat, events: seq<Event>, event: Event) returns (events2: seq<Event>)
    ensures History(s, w, events2) == After(History(s, w, events), w, event)
  {
    events2 := events + [event];
    HistoryAppends(s, w, events, event);
  }

  lemma {:induction false} HistoryAppends(s: World, w: nat, events: seq<Event>, event: Event)
    ensures History(s, w, events + [event]) == After(History(s, w, events), w, event)
    decreases |events|
  {
    if events == [] {
      assert [event][1..] == [];
    } else {
      assert (events + [event])[1..] == events[1..] + [event];
      HistoryAppends(After(s, w, events[0]), w, events[1..], event);
    }
  }

  /** A workspace whose schedule is due. */
  const DUE := Space(0, false, Some(0), None)
  const DUE_WORLD := World(DUE, 0, 0, [], [], [], map[])
  const READY := Poll(DUE, 0, 1, Some(Facts(Scheduled, 0)))

  /** A poll of a node on a due schedule, while no run is under way and none has been created. */
  lemma PollReads(s: World, events: seq<Event>, node: nat) returns (events2: seq<Event>)
    requires Fresh(s.(polls := map[])) && s.created == [] && s.runs == [] && s.ws == DUE && s.stamp == 0
    requires History(DUE_WORLD, 0, events) == s
    ensures History(DUE_WORLD, 0, events2) == s.(polls := s.polls[node := READY])
  {
    events2 := Extend(DUE_WORLD, 0, events, ReadSpace(node, 1));
    events2 := Extend(DUE_WORLD, 0, events2, ReadFacts(node));
    assert s.polls[node := Poll(DUE, 0, 1, None)][node := READY] == s.polls[node := READY];
  }

  /** Two nodes that both take themselves for the leader read before either inserts. */
  lemma {:induction false} TwoLeadersDestroyTwice() returns (events: seq<Event>)
    ensures Fresh(DUE_WORLD) && !OneActiveAttempt(History(DUE_WORLD, 0, events))
  {
    events := PollReads(DUE_WORLD, [], 0);
    events := PollReads(DUE_WORLD.(polls := map[0 := READY]), events, 1);
    var s := DUE_WORLD.(polls := map[0 := READY][1 := READY]);
    events := Extend(DUE_WORLD, 0, events, Insert(0, 0));
    events := Extend(DUE_WORLD, 0, events, Insert(1, 1));
    var t := After(After(s, 0, Insert(0, 0)), 0, Insert(1, 1));
    assert |t.created| == 2 && Active(t, 0) && Active(t, 1);
  }

  const ENDED := Row(0, 1, 0, false, true)
  const DESTROYED := World(DUE, 0, 0, [], [ENDED], [Entry(1, false, 0, 0, 0)], map[])

  /** An update of some other setting, from a row read before the schedule fired, puts the
      schedule back after its run has ended. */
  lemma FiredStampIsBack() returns (events: seq<Event>)
    ensures History(DUE_WORLD, 0, events) == DESTROYED
  {
    events := PollReads(DUE_WORLD, [], 0);
    events := Extend(DUE_WORLD, 0, events, Insert(0, 0));
    events := Extend(DUE_WORLD, 0, events, EndRun(0));
    events := Extend(DUE_WORLD, 0, events, WriteBack(Some(0), 0));
  }

  lemma {:induction false} WrittenBackStampFiresTwice() returns (events: seq<Event>)
    ensures Fresh(DUE_WORLD) && !StampsOnce(History(DUE_WORLD, 0, events).created)
  {
    events := FiredStampIsBack();
    events := Extend(DUE_WORLD, 0, events, ReadSpace(0, 1));
    events := Extend(DUE_WORLD, 0, events, ReadFacts(0));
    events := Extend(DUE_WORLD, 0, events, Insert(0, 1));
    var s := After(After(DESTROYED, 0, ReadSpace(0, 1)), 0, ReadFacts(0));
    assert !HasActive(DESTROYED.runs, 0);
    assert s.polls[0] == Poll(DUE, 0, 1, Some(Facts(Scheduled, 1)));
    var created := After(s, 0, Insert(0, 1)).created;
    assert created == DESTROYED.created + [Entry(1, false, 0, 0, 1)];
    assert !created[0].inactive && !created[1].inactive && created[0].stamp == created[1].stamp;
  }
}
