/**
 * The visible history of a thread, its keyset pages, and the bounded window of it that a screen
 * keeps. A message is its row: what it shows is a function of the row and the open vault.
 */
module History {
  import opened Basics
  import opened ChatDao
  import MonotonicUlid

  const MAX_ITEMS := 200

  type Message = EventRow

  // ---------------------------------------------------------------- the queries

  predicate Visible(row: EventRow, thread: string) {
    row.threadId == thread && !row.routing.Stream? && (!row.fromAssistant || !row.state.ResponseStreaming?)
  }

  predicate Before(a: Message, b: Message) {
    a.createdAtMs < b.createdAtMs || (a.createdAtMs == b.createdAtMs && MonotonicUlid.LexLess(a.eventId, b.eventId))
  }

  ghost predicate DistinctIds(h: seq<Message>) {
    forall i, j :: 0 <= i < j < |h| ==> h[i].eventId != h[j].eventId
  }

  ghost predicate Ordered(h: seq<Message>) {
    && (forall i, j {:trigger Before(h[i], h[j])} :: 0 <= i < j < |h| ==> Before(h[i], h[j]))
    && DistinctIds(h)
  }

  /** `h` lists the visible rows of the thread, oldest first. */
  ghost predicate IsHistory(db: Db, thread: string, h: seq<Message>) {
    && Ordered(h)
    && forall row :: row in h <==> row.eventId in db.events && db.events[row.eventId] == row && Visible(row, thread)
  }

  /** What the SQL gives: visible rows below the cursor, newest first, all of them or `limit`. */
  ghost predicate NewestBefore(db: Db, thread: string, cursor: Option<Message>, rows: seq<EventRow>, limit: nat) {
    && |rows| <= limit
    && (forall i, j {:trigger Before(rows[j], rows[i])} :: 0 <= i < j < |rows| ==> Before(rows[j], rows[i]))
    && (forall row :: row in rows ==> Candidate(db, thread, cursor, row))
    && (forall row :: Candidate(db, thread, cursor, row) && row !in rows ==>
          |rows| == limit && forall i :: 0 <= i < |rows| ==> Before(row, rows[i]))
  }

  predicate Under(cursor: Option<Message>, m: Message) { cursor.None? || Before(m, cursor.value) }

  predicate Candidate(db: Db, thread: string, cursor: Option<Message>, row: EventRow) {
    && row.eventId in db.events && db.events[row.eventId] == row && Visible(row, thread)
    && Under(cursor, row)
  }

  /**
   * The history of a thread holds a row exactly when the row is of that thread, is no stream chunk, and
   * is no answer still being streamed; it is ordered by date and, within one millisecond, by identifier.
   */
  lemma HistoryHolds(db: Db, thread: string, h: seq<Message>, id: string)
    requires IsHistory(db, thread, h) && id in db.events && db.events[id].eventId == id
    ensures var row := db.events[id];
            row in h <==> row.threadId == thread && row.routing != Stream && !(row.fromAssistant && row.state == ResponseStreaming)
    ensures forall i, j :: 0 <= i < j < |h| ==>
      && h[i].createdAtMs <= h[j].createdAtMs
      && (h[i].createdAtMs == h[j].createdAtMs ==> MonotonicUlid.LexLess(h[i].eventId, h[j].eventId))
  {
    forall i, j | 0 <= i < j < |h|
      ensures h[i].createdAtMs <= h[j].createdAtMs
      ensures h[i].createdAtMs == h[j].createdAtMs ==> MonotonicUlid.LexLess(h[i].eventId, h[j].eventId)
    {
      assert Before(h[i], h[j]);
    }
  }

  lemma BeforeIsStrict(a: Message, b: Message)
    requires Before(a, b)
    ensures !Before(b, a) && a != b
  {
    if MonotonicUlid.LexLess(a.eventId, b.eventId) { MonotonicUlid.LexLessAsymmetric(a.eventId, b.eventId); }
  }

  /** How many messages of the history lie below the cursor. */
  function Below(h: seq<Message>, cursor: Option<Message>): nat {
    if h == [] then 0
    else Below(h[..|h| - 1], cursor) + (if Under(cursor, h[|h| - 1]) then 1 else 0)
  }

  function Reversed<T>(s: seq<T>): seq<T> { seq(|s|, i requires 0 <= i < |s| => s[|s| - 1 - i]) }

  ghost predicate IsBound(h: seq<Message>, cursor: Option<Message>, a: nat) {
    a <= |h| && forall i :: 0 <= i < |h| ==> (Under(cursor, h[i]) <==> i < a)
  }

  lemma {:induction false} BelowCounts(h: seq<Message>, cursor: Option<Message>, a: nat)
    requires IsBound(h, cursor, a)
    ensures Below(h, cursor) == a
  {
    if h != [] {
      var init := h[..|h| - 1];
      assert Under(cursor, h[|h| - 1]) <==> a == |h|;
      BelowCounts(init, cursor, Min(a, |init|));
    }
  }

  /** Using one of the history's own messages as cursor selects exactly what is older than it. */
  lemma CursorCuts(h: seq<Message>, i: nat)
    requires Ordered(h) && i < |h|
    ensures IsBound(h, Some(h[i]), i) && Below(h, Some(h[i])) == i
  {
    forall k | 0 <= k < |h| ensures Under(Some(h[i]), h[k]) <==> k < i {
      if k > i { BeforeIsStrict(h[i], h[k]); }
      if k == i && Before(h[k], h[i]) { BeforeIsStrict(h[k], h[i]); }
    }
    BelowCounts(h, Some(h[i]), i);
  }

  /** The rows of a query, read against the first `a` messages of the history. */
  ghost predicate NewestOf(h: seq<Message>, a: nat, rows: seq<EventRow>, limit: nat)
    requires a <= |h|
  {
    && |rows| <= limit
    && (forall i, j {:trigger Before(rows[j], rows[i])} :: 0 <= i < j < |rows| ==> Before(rows[j], rows[i]))
    && (forall row :: row in rows ==> row in h[..a])
    && (forall i :: 0 <= i < a && h[i] !in rows ==>
          |rows| == limit && forall j :: 0 <= j < |rows| ==> Before(h[i], rows[j]))
  }

  lemma NewestComesFirst(h: seq<Message>, a: nat, rows: seq<EventRow>, limit: nat)
    requires Ordered(h) && a <= |h| && NewestOf(h, a, rows, limit) && rows != []
    ensures a > 0 && rows[0] == h[a - 1]
  {
    assert rows[0] in h[..a];
    var i :| 0 <= i < a && h[i] == rows[0];
    if i < a - 1 {
      assert Before(h[i], h[a - 1]);
      BeforeIsStrict(h[i], h[a - 1]);
    }
  }

  lemma RestIsNewest(h: seq<Message>, a: nat, rows: seq<EventRow>, limit: nat)
    requires Ordered(h) && a <= |h| && NewestOf(h, a, rows, limit) && rows != []
    ensures a > 0 && rows[0] == h[a - 1]
    ensures NewestOf(h, a - 1, rows[1..], limit - 1)
  {
    NewestComesFirst(h, a, rows, limit);
    var rest := rows[1..];
    forall row | row in rest ensures row in h[..a - 1] {
      var j :| 0 <= j < |rest| && rest[j] == row;
      assert row == rows[j + 1] && row in h[..a];
      BeforeIsStrict(rows[j + 1], rows[0]);
      var i :| 0 <= i < a && h[i] == row;
      assert h[..a - 1][i] == row;
    }
    forall i | 0 <= i < a - 1 && h[i] !in rest
      ensures |rest| == limit - 1 && forall j :: 0 <= j < |rest| ==> Before(h[i], rest[j])
    {
      BeforeIsStrict(h[i], h[a - 1]);
      assert h[i] !in rows;
    }
  }

  lemma {:induction false} NewestIsSuffix(h: seq<Message>, a: nat, rows: seq<EventRow>, limit: nat)
    requires Ordered(h) && a <= |h| && NewestOf(h, a, rows, limit)
    ensures |rows| == Min(limit, a)
    ensures rows == Reversed(h[a - Min(limit, a)..a])
  {
    if rows == [] {
      assert a > 0 ==> h[0] !in rows;
    } else {
      RestIsNewest(h, a, rows, limit);
      NewestIsSuffix(h, a - 1, rows[1..], limit - 1);
      ReversedUnfolds(h, a - Min(limit, a), a);
      assert rows == [rows[0]] + rows[1..];
    }
  }

  lemma ReversedUnfolds(h: seq<Message>, from: nat, a: nat)
    requires from < a <= |h|
    ensures Reversed(h[from..a]) == [h[a - 1]] + Reversed(h[from..a - 1])
  {
  }

  /** A query with a cursor returns exactly the newest `limit` messages older than the cursor. */
  lemma QueryIsSlice(db: Db, thread: string, h: seq<Message>, cursor: Option<Message>, a: nat, rows: seq<EventRow>, limit: nat)
    requires IsHistory(db, thread, h) && IsBound(h, cursor, a)
    requires NewestBefore(db, thread, cursor, rows, limit)
    ensures rows == Reversed(h[a - Min(limit, a)..a])
  {
    forall row ensures Candidate(db, thread, cursor, row) <==> row in h[..a] {
      if row in h {
        var i :| 0 <= i < |h| && h[i] == row;
        if i < a { assert h[..a][i] == row; }
      }
    }
    forall i | 0 <= i < a && h[i] !in rows
      ensures |rows| == limit && forall j :: 0 <= j < |rows| ==> Before(h[i], rows[j])
    {
      assert h[..a][i] == h[i];
      assert Candidate(db, thread, cursor, h[i]);
    }
    NewestIsSuffix(h, a, rows, limit);
  }

  // ---------------------------------------------------------------- pages

  datatype Page = Page(messages: seq<Message>, hasOlder: bool)

  /** The `size` messages before position `a`, and whether there are more before them. */
  function PageAt(h: seq<Message>, a: nat, size: nat): Page
    requires a <= |h|
  {
    Page(h[if a > size then a - size else 0..a], a > size)
  }

  function TakeLast<T>(s: seq<T>, n: nat): seq<T> { if |s| > n then s[|s| - n..] else s }

  /** `rows` is the newest-first result that the query re-sorts oldest first. */
  method ObserveThreadPage(ghost db: Db, ghost thread: string, ghost h: seq<Message>, rows: seq<EventRow>, pageSize: int)
    returns (r: Result<Page>)
    requires IsHistory(db, thread, h)
    requires 1 <= pageSize <= MAX_ITEMS ==> NewestBefore(db, thread, None, Reversed(rows), pageSize + 1)
    ensures r == if 1 <= pageSize <= 200 then Ok(PageAt(h, |h|, pageSize)) else Err("chat_page_size_invalid")
  {
    if !(1 <= pageSize <= MAX_ITEMS) { return Err("chat_page_size_invalid"); }
    QueryIsSlice(db, thread, h, None, |h|, Reversed(rows), pageSize + 1);
    ReversedTwice(rows);
    ReversedTwice(h[|h| - Min(pageSize + 1, |h|)..|h|]);
    return Ok(Page(TakeLast(rows, pageSize), |rows| > pageSize));
  }

  lemma ReversedTwice<T>(s: seq<T>)
    ensures Reversed(Reversed(s)) == s
  {
  }

  method LoadOlderPage(ghost db: Db, thread: string, ghost h: seq<Message>, before: Message, rows: seq<EventRow>, pageSize: int)
    returns (r: Result<Page>)
    requires IsHistory(db, thread, h) && (before.threadId == thread ==> before in h)
    requires before.threadId == thread && 1 <= pageSize <= MAX_ITEMS ==>
      NewestBefore(db, thread, Some(before), rows, pageSize + 1)
    ensures before.threadId != thread ==> r == Err("chat_page_thread_invalid")
    ensures before.threadId == thread && !(1 <= pageSize <= MAX_ITEMS) ==> r == Err("chat_page_size_invalid")
    ensures r.Ok? <==> before.threadId == thread && 1 <= pageSize <= MAX_ITEMS
    ensures r.Ok? ==> Below(h, Some(before)) <= |h| && r.value == PageAt(h, Below(h, Some(before)), pageSize)
  {
    if before.threadId != thread { return Err("chat_page_thread_invalid"); }
    if !(1 <= pageSize <= MAX_ITEMS) { return Err("chat_page_size_invalid"); }
    ghost var i :| 0 <= i < |h| && h[i] == before;
    CursorCuts(h, i);
    QueryIsSlice(db, thread, h, Some(before), i, rows, pageSize + 1);
    return Ok(Page(Reversed(rows[..Min(pageSize, |rows|)]), |rows| > pageSize));
  }

  // ---------------------------------------------------------------- following the pages

  ghost predicate Extends(longer: seq<Message>, h: seq<Message>) {
    Ordered(longer) && |h| <= |longer| && longer[..|h|] == h
  }

  /** Messages appended meanwhile do not change an older page. */
  lemma PageIgnoresGrowth(h: seq<Message>, longer: seq<Message>, i: nat, size: nat)
    requires Ordered(h) && Extends(longer, h) && i < |h|
    ensures Below(longer, Some(h[i])) == i
    ensures PageAt(longer, i, size) == PageAt(h, i, size)
  {
    assert longer[i] == longer[..|h|][i] == h[i];
    CursorCuts(longer, i);
    assert longer[..i] == longer[..|h|][..i] == h[..i];
    var from := if i > size then i - size else 0;
    assert longer[from..i] == longer[..i][from..] && h[from..i] == h[..i][from..];
  }

  /**
   * Everything seen by following `hasOlder`, oldest first: each load asks for what precedes the oldest
   * message so far, in the history as it then is.
   */
  function Visited(page: Page, histories: seq<seq<Message>>, size: nat): seq<Message>
    decreases histories
  {
    if !page.hasOlder || page.messages == [] || histories == [] then page.messages
    else
      var a := Below(histories[0], Some(page.messages[0]));
      if a > |histories[0]| then page.messages
      else Visited(PageAt(histories[0], a, size), histories[1..], size) + page.messages
  }

  /** How many loads it takes until `hasOlder` is false, if `histories` is long enough. */
  function Loads(page: Page, histories: seq<seq<Message>>, size: nat): nat
    decreases histories
  {
    if !page.hasOlder || page.messages == [] || histories == [] then 0
    else
      var a := Below(histories[0], Some(page.messages[0]));
      if a > |histories[0]| then 0 else 1 + Loads(PageAt(histories[0], a, size), histories[1..], size)
  }

  lemma OneLoad(h: seq<Message>, a: nat, histories: seq<seq<Message>>, size: nat)
    requires Ordered(h) && size < a <= |h| && size >= 1
    requires histories != [] && Extends(histories[0], h)
    ensures Visited(PageAt(h, a, size), histories, size)
         == Visited(PageAt(h, a - size, size), histories[1..], size) + h[a - size..a]
    ensures Loads(PageAt(h, a, size), histories, size) == 1 + Loads(PageAt(h, a - size, size), histories[1..], size)
  {
    assert PageAt(h, a, size).messages[0] == h[a - size];
    PageIgnoresGrowth(h, histories[0], a - size, size);
  }

  lemma {:induction false} PagingFrom(h: seq<Message>, a: nat, histories: seq<seq<Message>>, size: nat)
    requires Ordered(h) && a <= |h| && size >= 1
    requires forall k :: 0 <= k < |histories| ==> Extends(histories[k], h)
    requires (|histories| + 1) * size >= a
    ensures Visited(PageAt(h, a, size), histories, size) == h[..a]
    ensures Loads(PageAt(h, a, size), histories, size) == if a == 0 then 0 else (a - 1) / size
    decreases a
  {
    if a > size {
      MulSign(|histories|, size);
      assert |histories| * size == (|histories| + 1) * size - size;
      assert histories != [];
      OneLoad(h, a, histories, size);
      PagingFrom(h, a - size, histories[1..], size);
      assert h[..a - size] + h[a - size..a] == h[..a];
      DivStep(a - 1, size);
    } else {
      if a > 0 { DivSmall(a - 1, size); }
      assert h[0..a] == h[..a];
    }
  }

  lemma DivStep(n: nat, size: nat)
    requires size >= 1 && n >= size
    ensures n / size == 1 + (n - size) / size
  {
    var q, r := (n - size) / size, (n - size) % size;
    assert n == (q + 1) * size + r;
    DivUnique(n, size, q + 1, r);
  }

  lemma DivSmall(n: nat, size: nat)
    requires n < size
    ensures n / size == 0
  {
  }

  lemma MulSign(d: int, size: int)
    requires size >= 1
    ensures d >= 1 ==> d * size >= size
    ensures d <= -1 ==> d * size <= -size
  {
  }

  lemma MulAtLeast(n: nat, size: nat)
    requires size >= 1
    ensures n * size >= n
  {
  }

  lemma DivUnique(n: nat, size: nat, q: nat, r: nat)
    requires size >= 1 && n == q * size + r && r < size
    ensures n / size == q
  {
    var d := n / size - q;
    assert d * size == (n / size) * size - q * size;
    MulSign(d, size);
  }

  /**
   * Starting at the newest page and following `hasOlder`, with newer messages arriving between the
   * loads: every message that was there is visited exactly once, in order, and the paging stops
   * exactly when the oldest has been seen.
   */
  lemma PagingIsComplete(h: seq<Message>, histories: seq<seq<Message>>, size: nat)
    requires Ordered(h) && 1 <= size
    requires forall k :: 0 <= k < |histories| ==> Extends(histories[k], h)
    requires |histories| >= |h|
    ensures Visited(PageAt(h, |h|, size), histories, size) == h
    ensures Loads(PageAt(h, |h|, size), histories, size) == if h == [] then 0 else (|h| - 1) / size
  {
    MulAtLeast(|histories| + 1, size);
    PagingFrom(h, |h|, histories, size);
    assert h[..|h|] == h;
  }
}
