/**
 * The bounded window of decrypted messages a screen keeps: newest pages come in as the thread grows,
 * older pages on demand, and at most `maxItems` messages stay.
 */
module HistoryWindow {
  import opened Basics
  import opened History

  datatype Window = Window(messages: seq<Message>, hasOlder: bool, loadingOlder: bool, lastChangeWasOlder: bool)

  const EMPTY := Window([], false, false, false)

  function IdsOf(messages: seq<Message>): set<string> { set i | 0 <= i < |messages| :: messages[i].eventId }

  lemma IdsOfSnoc(messages: seq<Message>, m: Message)
    ensures IdsOf(messages + [m]) == IdsOf(messages) + {m.eventId}
  {
    var all := messages + [m];
    forall id | id in IdsOf(messages) + {m.eventId} ensures id in IdsOf(all) {
      if id == m.eventId {
        assert all[|messages|] == m;
      } else {
        var i :| 0 <= i < |messages| && messages[i].eventId == id;
        assert all[i] == messages[i];
      }
    }
  }

  function Without(messages: seq<Message>, ids: set<string>): seq<Message> {
    if messages == [] then []
    else
      var init, last := Without(messages[..|messages| - 1], ids), messages[|messages| - 1];
      if last.eventId in ids then init else init + [last]
  }

  /** A page that does not reach back to the newest message shown is ignored. */
  predicate Ignored(w: Window, page: Page) {
    w.messages != [] && page.messages != [] && w.messages[|w.messages| - 1].eventId !in IdsOf(page.messages)
  }

  function Kept(w: Window, page: Page): seq<Message> {
    if page.messages == [] then [] else Without(w.messages, IdsOf(page.messages))
  }

  function AcceptRecent(w: Window, page: Page, maxItems: nat): Window {
    if w.messages == [] || page.messages == [] then
      Window(TakeLast(page.messages, maxItems), page.hasOlder, false, false)
    else if Ignored(w, page) then w
    else
      var kept := Without(w.messages, IdsOf(page.messages));
      var latestChanged := w.messages[|w.messages| - 1].eventId != page.messages[|page.messages| - 1].eventId;
      Window(TakeLast(kept + page.messages, maxItems), if kept == [] then page.hasOlder else w.hasOlder, false,
             !latestChanged && w.lastChangeWasOlder)
  }

  /** First occurrences only, until `maxItems` are kept. */
  function Bounded(messages: seq<Message>, maxItems: nat): seq<Message> {
    if messages == [] then []
    else
      var init, last := Bounded(messages[..|messages| - 1], maxItems), messages[|messages| - 1];
      if |init| < maxItems && last.eventId !in IdsOf(init) then init + [last] else init
  }

  function LoadOlder(w: Window, older: Page, maxItems: nat): Window {
    Window(Bounded(older.messages + w.messages, maxItems), older.hasOlder, false, true)
  }

  predicate AsksForOlder(w: Window) { w.messages != [] && w.hasOlder }

  class ChatHistoryWindow {
    const maxItems: nat
    var state: Window

    constructor (maxItems: nat)
      requires 1 <= maxItems <= MAX_ITEMS
      ensures this.maxItems == maxItems && state == EMPTY
    {
      this.maxItems, state := maxItems, EMPTY;
    }

    method Accept(page: Page)
      modifies this
      ensures state == AcceptRecent(old(state), page, maxItems)
    {
      var current := state;
      if current.messages == [] || page.messages == [] {
        state := Window(TakeLast(page.messages, maxItems), page.hasOlder, false, false);
        return;
      }
      var recentIds := IdsOf(page.messages);
      var newest, newestOfPage := current.messages[|current.messages| - 1], page.messages[|page.messages| - 1];
      if newest.eventId !in recentIds { return; }
      var previous := Without(current.messages, recentIds);
      state := Window(
        TakeLast(previous + page.messages, maxItems),
        if previous == [] then page.hasOlder else current.hasOlder,
        false,
        newest.eventId == newestOfPage.eventId && current.lastChangeWasOlder);
    }

    /** `load` is the page query, which may fail; a failure leaves the window as it was. */
    method Load(load: Message -> Option<Page>) returns (threw: bool)
      modifies this
      ensures threw <==> AsksForOlder(old(state)) && load(old(state).messages[0]).None?
      ensures state == if AsksForOlder(old(state)) && !threw
                       then LoadOlder(old(state), load(old(state).messages[0]).value, maxItems) else old(state)
    {
      var current := state;
      if current.messages == [] || !current.hasOlder { return false; }
      state := current.(loadingOlder := true);
      var older := load(current.messages[0]);
      if older.None? {
        state := current;
        return true;
      }
      var messages := PrependAndBound(older.value.messages, current.messages);
      state := Window(messages, older.value.hasOlder, false, true);
      return false;
    }

    method PrependAndBound(older: seq<Message>, current: seq<Message>) returns (messages: seq<Message>)
      ensures messages == Bounded(older + current, maxItems)
    {
      var eventIds: set<string> := {};
      messages := [];
      var all := older + current;
      for i := 0 to |all|
        invariant messages == Bounded(all[..i], maxItems)
        invariant |messages| < maxItems ==> eventIds == IdsOf(messages)
      {
        assert all[..i + 1][..i] == all[..i];
        if |messages| < maxItems && all[i].eventId !in eventIds {
          eventIds := eventIds + {all[i].eventId};
          IdsOfSnoc(messages, all[i]);
          messages := messages + [all[i]];
        }
      }
      assert all[..|all|] == all;
    }
  }

  // ---------------------------------------------------------------- the window is a slice of history

  /** Where the window starts in the history. */
  function From(h: seq<Message>, w: Window): nat { if w.messages == [] then 0 else Below(h, Some(w.messages[0])) }

  /** A contiguous slice of the history, within bounds, whose `hasOlder` is never a false promise. */
  ghost predicate Shows(h: seq<Message>, w: Window, maxItems: nat) {
    && From(h, w) + |w.messages| <= |h|
    && w.messages == h[From(h, w)..From(h, w) + |w.messages|]
    && |w.messages| <= maxItems
    && (w.hasOlder ==> From(h, w) > 0)
  }

  ghost predicate Exact(h: seq<Message>, w: Window) { w.hasOlder <==> From(h, w) > 0 }

  lemma SliceShows(h: seq<Message>, w: Window, a: nat, maxItems: nat)
    requires Ordered(h) && a + |w.messages| <= |h| && w.messages == h[a..a + |w.messages|]
    requires |w.messages| <= maxItems && (w.hasOlder ==> a > 0 && w.messages != [])
    ensures Shows(h, w, maxItems) && (w.messages != [] ==> From(h, w) == a)
  {
    if w.messages != [] {
      assert w.messages[0] == h[a];
      CursorCuts(h, a);
    } else {
      assert h[0..0] == [];
    }
  }

  /** A window is distinct and strictly ordered because the history is. */
  lemma ShownIsOrdered(h: seq<Message>, w: Window, maxItems: nat)
    requires Ordered(h) && Shows(h, w, maxItems)
    ensures Ordered(w.messages)
  {
    SliceIsOrdered(h, From(h, w), From(h, w) + |w.messages|);
  }

  lemma SliceIsOrdered(h: seq<Message>, a: nat, b: nat)
    requires Ordered(h) && a <= b <= |h|
    ensures Ordered(h[a..b])
  {
    var slice := h[a..b];
    forall i, j | 0 <= i < j < |slice| ensures Before(slice[i], slice[j]) && slice[i].eventId != slice[j].eventId {
      assert slice[i] == h[a + i] && slice[j] == h[a + j];
    }
  }

  lemma IdOnSlice(h: seq<Message>, c: nat, n: nat, i: nat)
    requires DistinctIds(h) && c <= n <= |h| && i < |h|
    ensures h[i].eventId in IdsOf(h[c..n]) <==> c <= i < n
  {
    var slice := h[c..n];
    if c <= i < n {
      assert slice[i - c] == h[i];
    }
    if h[i].eventId in IdsOf(slice) {
      var k :| 0 <= k < |slice| && slice[k].eventId == h[i].eventId;
      assert slice[k] == h[c + k];
    }
  }

  lemma WithoutSnoc(messages: seq<Message>, m: Message, ids: set<string>)
    ensures Without(messages + [m], ids) == if m.eventId in ids then Without(messages, ids) else Without(messages, ids) + [m]
  {
    assert (messages + [m])[..|messages|] == messages;
  }

  lemma BoundedSnoc(messages: seq<Message>, m: Message, maxItems: nat)
    ensures var init := Bounded(messages, maxItems);
            Bounded(messages + [m], maxItems)
            == if |init| < maxItems && m.eventId !in IdsOf(init) then init + [m] else init
  {
    assert (messages + [m])[..|messages|] == messages;
  }

  /**
   * Whatever the two lists share: no message is kept twice, no more than `maxItems` are kept, none is left
   * out while there is room, and what is kept of a part of the list comes first.
   */
  lemma {:induction false} BoundedOutcome(messages: seq<Message>, maxItems: nat, n: nat)
    requires n <= |messages|
    ensures var kept := Bounded(messages, maxItems);
            && DistinctIds(kept) && |kept| <= maxItems && (forall m :: m in kept ==> m in messages)
            && (|kept| < maxItems ==> IdsOf(messages) == IdsOf(kept))
            && Bounded(messages[..n], maxItems) <= kept
  {
    if messages != [] {
      var init, last := messages[..|messages| - 1], messages[|messages| - 1];
      assert messages == init + [last];
      BoundedOutcome(init, maxItems, if n < |messages| then n else 0);
      if n < |messages| {
        assert init[..n] == messages[..n];
      } else {
        assert messages[..n] == messages;
      }
      IdsOfSnoc(init, last);
      IdsOfSnoc(Bounded(init, maxItems), last);
      KeptStaysDistinct(Bounded(init, maxItems), last);
    }
  }

  lemma KeptStaysDistinct(kept: seq<Message>, m: Message)
    requires DistinctIds(kept)
    ensures m.eventId !in IdsOf(kept) ==> DistinctIds(kept + [m])
  {
    if m.eventId !in IdsOf(kept) {
      forall i | 0 <= i < |kept| ensures kept[i].eventId != m.eventId {
        assert kept[i].eventId in IdsOf(kept);
      }
    }
  }

  lemma SliceSnoc(h: seq<Message>, a: nat, b: nat)
    requires a < b <= |h|
    ensures h[a..b] == h[a..b - 1] + [h[b - 1]]
  {
  }

  lemma {:induction false} WithoutSlice(h: seq<Message>, a: nat, b: nat, c: nat, n: nat)
    requires DistinctIds(h) && a <= b <= n <= |h| && c <= n
    ensures Without(h[a..b], IdsOf(h[c..n])) == h[a..if b <= c then b else if a <= c then c else a]
  {
    if a < b {
      WithoutSlice(h, a, b - 1, c, n);
      SliceSnoc(h, a, b);
      WithoutSnoc(h[a..b - 1], h[b - 1], IdsOf(h[c..n]));
      IdOnSlice(h, c, n, b - 1);
    }
  }

  lemma {:induction false} BoundedSlice(h: seq<Message>, a: nat, b: nat, maxItems: nat)
    requires DistinctIds(h) && a <= b <= |h|
    ensures Bounded(h[a..b], maxItems) == h[a..a + Min(maxItems, b - a)]
  {
    if a < b {
      BoundedSlice(h, a, b - 1, maxItems);
      SliceSnoc(h, a, b);
      BoundedSnoc(h[a..b - 1], h[b - 1], maxItems);
      if b - 1 - a < maxItems {
        IdOnSlice(h, a, b - 1, b - 1);
        assert Bounded(h[a..b - 1], maxItems) == h[a..b - 1];
      } else {
        assert Bounded(h[a..b - 1], maxItems) == h[a..a + maxItems];
      }
    }
  }

  /** A page is not ignored exactly when the newest message shown lies on it. */
  lemma IgnoredExactlyWhen(h: seq<Message>, w: Window, n: nat, size: nat, maxItems: nat)
    requires Ordered(h) && Shows(h, w, maxItems) && n <= |h| && size >= 1
    requires w.messages != [] && n > 0
    ensures var b := From(h, w) + |w.messages|;
            !Ignored(w, PageAt(h, n, size)) <==> (if n > size then n - size else 0) < b <= n
  {
    var b := From(h, w) + |w.messages|;
    assert w.messages[|w.messages| - 1] == h[b - 1];
    IdOnSlice(h, if n > size then n - size else 0, n, b - 1);
  }

  /** The slice that a newest page leaves: what was kept and the page, cut at the old end. */
  lemma AcceptGives(h: seq<Message>, w: Window, n: nat, size: nat, maxItems: nat)
    requires Ordered(h) && Shows(h, w, maxItems) && n <= |h| && size >= 1
    requires var page := PageAt(h, n, size); w.messages == [] || n == 0 || !Ignored(w, page)
    ensures var page, c := PageAt(h, n, size), if n > size then n - size else 0;
            var start := if w.messages == [] || n == 0 || From(h, w) >= c then c else From(h, w);
            && start <= n
            && Kept(w, page) + page.messages == h[start..n]
            && (Kept(w, page) == [] <==> start == c)
  {
    var page, c := PageAt(h, n, size), if n > size then n - size else 0;
    if w.messages != [] && n > 0 {
      var a, b := From(h, w), From(h, w) + |w.messages|;
      IgnoredExactlyWhen(h, w, n, size, maxItems);
      WithoutSlice(h, a, b, c, n);
      if a < c { assert h[a..c] + h[c..n] == h[a..n]; }
    }
  }

  ghost predicate EvictsOldest(w: Window, page: Page, maxItems: nat) {
    !Ignored(w, page) && |Kept(w, page)| + |page.messages| > maxItems
  }

  lemma AcceptedShows(h: seq<Message>, next: Window, start: nat, n: nat, maxItems: nat)
    requires Ordered(h) && start <= n <= |h| && maxItems >= 1
    requires next.messages == TakeLast(h[start..n], maxItems)
    requires next.hasOlder ==> start > 0 && start < n
    ensures Shows(h, next, maxItems)
    ensures start < n ==> From(h, next) == if n - start > maxItems then n - maxItems else start
  {
    var first := if n - start > maxItems then n - maxItems else start;
    assert next.messages == h[first..n];
    SliceShows(h, next, first, maxItems);
  }

  /** The flag that the window is going to carry, known before the page is accepted. */
  predicate FlagAfter(w: Window, page: Page) { if Kept(w, page) == [] then page.hasOlder else w.hasOlder }

  /** Where the window and the page together start in the history. */
  function Start(h: seq<Message>, w: Window, n: nat, size: nat): nat {
    var c := if n > size then n - size else 0;
    if w.messages == [] || n == 0 then c else Min(c, From(h, w))
  }

  lemma AcceptedMessages(h: seq<Message>, w: Window, n: nat, size: nat, maxItems: nat)
    requires Ordered(h) && Shows(h, w, maxItems) && n <= |h| && size >= 1
    requires w.messages == [] || n == 0 || !Ignored(w, PageAt(h, n, size))
    ensures var page, start := PageAt(h, n, size), Start(h, w, n, size);
            && start <= n && AcceptRecent(w, page, maxItems).messages == TakeLast(h[start..n], maxItems)
            && |Kept(w, page)| + |page.messages| == n - start
            && (Kept(w, page) == [] <==> start == if n > size then n - size else 0)
  {
    var page := PageAt(h, n, size);
    AcceptGives(h, w, n, size, maxItems);
    assert Kept(w, page) == [] ==> Kept(w, page) + page.messages == page.messages;
  }

  lemma TakenFromTheEnd(h: seq<Message>, start: nat, n: nat, maxItems: nat)
    requires start <= n <= |h|
    ensures TakeLast(h[start..n], maxItems) == h[n - Min(maxItems, n - start)..n]
  {
  }

  lemma AcceptedFlags(h: seq<Message>, w: Window, n: nat, size: nat, maxItems: nat)
    requires Ordered(h) && Shows(h, w, maxItems) && n <= |h| && size >= 1
    requires w.messages == [] || n == 0 || !Ignored(w, PageAt(h, n, size))
    ensures var page := PageAt(h, n, size); var next := AcceptRecent(w, page, maxItems);
            && next.hasOlder == (if w.messages == [] || Kept(w, page) == [] then page.hasOlder else w.hasOlder)
            && !next.loadingOlder
            && (next.lastChangeWasOlder <==>
                  w.messages != [] && n > 0 && From(h, w) + |w.messages| == n && w.lastChangeWasOlder)
  {
    if w.messages != [] && n > 0 {
      var b, page := From(h, w) + |w.messages|, PageAt(h, n, size);
      assert w.messages[|w.messages| - 1] == h[b - 1] && page.messages[|page.messages| - 1] == h[n - 1];
    }
  }

  /** What a page that is not ignored makes of the slice and of the flag. */
  lemma AcceptedIsExactlyWhen(h: seq<Message>, w: Window, page: Page, next: Window, n: nat, size: nat, maxItems: nat)
    requires Ordered(h) && Shows(h, w, maxItems) && n <= |h| && size >= 1 && maxItems >= 1 && page == PageAt(h, n, size)
    requires w.messages == [] || n == 0 || !Ignored(w, page)
    requires Start(h, w, n, size) <= n && next.messages == TakeLast(h[Start(h, w, n, size)..n], maxItems)
    requires next.hasOlder == if w.messages == [] || Kept(w, page) == [] then page.hasOlder else w.hasOlder
    requires Kept(w, page) == [] <==> Start(h, w, n, size) == if n > size then n - size else 0
    requires |Kept(w, page)| + |page.messages| == n - Start(h, w, n, size)
    ensures Shows(h, next, maxItems)
    ensures Exact(h, w) ==> (Exact(h, next) <==> !(EvictsOldest(w, page, maxItems) && !FlagAfter(w, page)))
  {
    AcceptedShows(h, next, Start(h, w, n, size), n, maxItems);
  }

  /**
   * Accepting a newest page keeps the window a slice, and its `hasOlder` exact if and only if no
   * message is evicted at the old end while the flag to carry says that there is nothing older.
   */
  lemma AcceptKeepsSlice(h: seq<Message>, w: Window, next: Window, n: nat, size: nat, maxItems: nat)
    requires Ordered(h) && Shows(h, w, maxItems) && n <= |h| && size >= 1 && maxItems >= 1
    requires next == AcceptRecent(w, PageAt(h, n, size), maxItems)
    ensures Shows(h, next, maxItems)
    ensures var page := PageAt(h, n, size);
            Exact(h, w) ==> (Exact(h, next) <==> !(EvictsOldest(w, page, maxItems) && !FlagAfter(w, page)))
  {
    var page := PageAt(h, n, size);
    if w.messages != [] && n > 0 && Ignored(w, page) {
      assert next == w;
    } else {
      AcceptedMessages(h, w, n, size, maxItems);
      AcceptedFlags(h, w, n, size, maxItems);
      AcceptedIsExactlyWhen(h, w, page, next, n, size, maxItems);
    }
  }

  /** The window ends at position `n`: the last `maxItems` messages, or all, from the lower start on. */
  ghost predicate ShowsUpTo(h: seq<Message>, w: Window, next: Window, n: nat, size: nat, maxItems: nat) {
    var c, start := if n > size then n - size else 0, Start(h, w, n, size);
    && start <= n <= |h| && next.messages == h[n - Min(maxItems, n - start)..n]
    && next.hasOlder == (if start < c then w.hasOlder else c > 0)
    && !next.loadingOlder
    && (next.lastChangeWasOlder <==>
          w.messages != [] && n > 0 && From(h, w) + |w.messages| == n && w.lastChangeWasOlder)
  }

  lemma AcceptedShowsUpTo(h: seq<Message>, w: Window, page: Page, next: Window, n: nat, size: nat, maxItems: nat)
    requires n <= |h| && page == PageAt(h, n, size) && Start(h, w, n, size) <= n
    requires next.messages == TakeLast(h[Start(h, w, n, size)..n], maxItems)
    requires next.hasOlder == if w.messages == [] || Kept(w, page) == [] then page.hasOlder else w.hasOlder
    requires Kept(w, page) == [] <==> Start(h, w, n, size) == if n > size then n - size else 0
    requires !next.loadingOlder
    requires next.lastChangeWasOlder <==>
               w.messages != [] && n > 0 && From(h, w) + |w.messages| == n && w.lastChangeWasOlder
    ensures ShowsUpTo(h, w, next, n, size, maxItems)
  {
    TakenFromTheEnd(h, Start(h, w, n, size), n, maxItems);
  }

  /**
   * What a newest page shows. Unless the newest message shown lies off the page, the window then ends at
   * the newest message of the page, whatever `hasOlder` says. A page on which it does not lie changes
   * nothing.
   */
  lemma AcceptShowsNewest(h: seq<Message>, w: Window, next: Window, n: nat, size: nat, maxItems: nat)
    requires Ordered(h) && Shows(h, w, maxItems) && n <= |h| && size >= 1
    requires next == AcceptRecent(w, PageAt(h, n, size), maxItems)
    ensures var c, b := if n > size then n - size else 0, From(h, w) + |w.messages|;
            if w.messages != [] && n > 0 && !(c < b <= n) then next == w
            else ShowsUpTo(h, w, next, n, size, maxItems)
  {
    var page := PageAt(h, n, size);
    if w.messages != [] && n > 0 { IgnoredExactlyWhen(h, w, n, size, maxItems); }
    if w.messages == [] || n == 0 || !Ignored(w, page) {
      AcceptedMessages(h, w, n, size, maxItems);
      AcceptedFlags(h, w, n, size, maxItems);
      AcceptedShowsUpTo(h, w, page, next, n, size, maxItems);
    }
  }

  lemma OlderGives(h: seq<Message>, a: nat, b: nat, size: nat, maxItems: nat)
    requires DistinctIds(h) && 0 < a < b <= |h| && size >= 1 && maxItems >= 1
    ensures var first := if a > size then a - size else 0;
            Bounded(PageAt(h, a, size).messages + h[a..b], maxItems) == h[first..first + Min(maxItems, b - first)]
  {
    var first := if a > size then a - size else 0;
    assert h[first..a] + h[a..b] == h[first..b];
    BoundedSlice(h, first, b, maxItems);
  }

  /** Where a page before position `a` starts. */
  function OlderStart(a: nat, size: nat): nat { if a > size then a - size else 0 }

  lemma LoadedShows(h: seq<Message>, next: Window, first: nat, b: nat, maxItems: nat)
    requires Ordered(h) && first < b <= |h| && maxItems >= 1
    requires next.messages == h[first..first + Min(maxItems, b - first)] && next.hasOlder == (first > 0)
    ensures Shows(h, next, maxItems) && Exact(h, next) && From(h, next) == first
  {
    SliceShows(h, next, first, maxItems);
  }

  /** `next` is the slice from `first` on, up to `maxItems` messages of what lies before `b`. */
  ghost predicate LoadedFrom(h: seq<Message>, next: Window, first: nat, b: nat, maxItems: nat) {
    && Shows(h, next, maxItems) && Exact(h, next) && From(h, next) == first < b <= |h|
    && next.messages == h[first..first + Min(maxItems, b - first)]
    && next.lastChangeWasOlder && !next.loadingOlder
  }

  lemma LoadGives(h: seq<Message>, w: Window, next: Window, a: nat, b: nat, size: nat, maxItems: nat)
    requires Ordered(h) && 0 < a < b <= |h| && size >= 1 && maxItems >= 1 && w.messages == h[a..b]
    requires next == LoadOlder(w, PageAt(h, a, size), maxItems)
    ensures LoadedFrom(h, next, OlderStart(a, size), b, maxItems) && OlderStart(a, size) < a
  {
    OlderGives(h, a, b, size, maxItems);
    LoadedShows(h, next, OlderStart(a, size), b, maxItems);
  }

  /**
   * Loading an older page puts it before the messages shown, up to `maxItems` of them from its oldest on;
   * the window stays a slice, starts earlier, and its `hasOlder` is exact.
   */
  lemma LoadKeepsSlice(h: seq<Message>, w: Window, next: Window, size: nat, maxItems: nat)
    requires Ordered(h) && Shows(h, w, maxItems) && AsksForOlder(w) && size >= 1 && maxItems >= 1
    requires next == LoadOlder(w, PageAt(h, From(h, w), size), maxItems)
    ensures LoadedFrom(h, next, OlderStart(From(h, w), size), From(h, w) + |w.messages|, maxItems)
    ensures From(h, next) < From(h, w)
  {
    LoadGives(h, w, next, From(h, w), From(h, w) + |w.messages|, size, maxItems);
  }

  // ---------------------------------------------------------------- runs

  datatype Op =
    | Grow(more: seq<Message>)
    | Recent(n: nat, size: nat)
    | Older(size: nat, ok: bool)

  datatype Run = Run(h: seq<Message>, w: Window)

  /** A newest page may be delivered late: it shows the thread as it was with `n` messages. */
  ghost predicate Allowed(r: Run, op: Op) {
    match op
    case Grow(more) => Ordered(r.h + more)
    case Recent(n, size) => n <= |r.h| && size >= 1
    case Older(size, _) => size >= 1 && (AsksForOlder(r.w) ==> Below(r.h, Some(r.w.messages[0])) <= |r.h|)
  }

  ghost function Step(r: Run, op: Op, maxItems: nat): Run
    requires Allowed(r, op)
  {
    match op
    case Grow(more) => r.(h := r.h + more)
    case Recent(n, size) => r.(w := AcceptRecent(r.w, PageAt(r.h, n, size), maxItems))
    case Older(size, ok) =>
      if ok && AsksForOlder(r.w)
      then r.(w := LoadOlder(r.w, PageAt(r.h, Below(r.h, Some(r.w.messages[0])), size), maxItems)) else r
  }

  ghost predicate AllAllowed(r: Run, ops: seq<Op>, maxItems: nat)
    decreases ops
  {
    ops == [] || (Allowed(r, ops[0]) && AllAllowed(Step(r, ops[0], maxItems), ops[1..], maxItems))
  }

  ghost function RunAll(r: Run, ops: seq<Op>, maxItems: nat): Run
    requires AllAllowed(r, ops, maxItems)
    decreases ops
  {
    if ops == [] then r else RunAll(Step(r, ops[0], maxItems), ops[1..], maxItems)
  }

  lemma GrowthKeepsSlice(h: seq<Message>, more: seq<Message>, w: Window, maxItems: nat)
    requires Ordered(h) && Ordered(h + more) && Shows(h, w, maxItems)
    ensures Shows(h + more, w, maxItems) && From(h + more, w) == From(h, w)
  {
    var a := From(h, w);
    assert w.messages == (h + more)[a..a + |w.messages|];
    SliceShows(h + more, w, a, maxItems);
  }

  /**
   * Over any run of arriving, late and older pages on a thread that grows at its newest end, the
   * window is a contiguous, duplicate-free, ordered slice of at most `maxItems` messages, and
   * `hasOlder` is only ever true when an older message exists.
   */
  lemma {:induction false} RunShowsHistory(r: Run, ops: seq<Op>, maxItems: nat)
    requires Ordered(r.h) && Shows(r.h, r.w, maxItems) && maxItems >= 1
    requires AllAllowed(r, ops, maxItems)
    ensures var end := RunAll(r, ops, maxItems);
            Ordered(end.h) && Shows(end.h, end.w, maxItems) && Ordered(end.w.messages)
    decreases ops
  {
    if ops == [] {
      ShownIsOrdered(r.h, r.w, maxItems);
    } else {
      match ops[0] {
        case Grow(more) => GrowthKeepsSlice(r.h, more, r.w, maxItems);
        case Recent(n, size) => AcceptKeepsSlice(r.h, r.w, Step(r, ops[0], maxItems).w, n, size, maxItems);
        case Older(size, ok) =>
          if ok && AsksForOlder(r.w) { LoadKeepsSlice(r.h, r.w, Step(r, ops[0], maxItems).w, size, maxItems); }
      }
      RunShowsHistory(Step(r, ops[0], maxItems), ops[1..], maxItems);
    }
  }

  /** The window of a screen that accepts a newest page each time the thread has grown by one message. */
  function Followed(h: seq<Message>, n: nat, size: nat, maxItems: nat): Window
    requires n <= |h|
  {
    if n <= size then AcceptRecent(EMPTY, PageAt(h, n, size), maxItems)
    else AcceptRecent(Followed(h, n - 1, size, maxItems), PageAt(h, n, size), maxItems)
  }

  lemma WholeThreadShown(h: seq<Message>, w: Window, n: nat, maxItems: nat)
    requires Ordered(h) && 0 < n <= |h| && n <= maxItems && w.messages == h[..n] && !w.hasOlder
    ensures Shows(h, w, maxItems) && From(h, w) == 0
  {
    assert h[0..n] == h[..n];
    SliceShows(h, w, 0, maxItems);
  }

  /** Accepting the next page of a thread shown whole appends its newest message, within the bound. */
  lemma NextPageGives(h: seq<Message>, w: Window, n: nat, size: nat, maxItems: nat)
    requires Ordered(h) && 2 <= size < n <= |h| && n - 1 <= maxItems && w.messages == h[..n - 1] && !w.hasOlder
    ensures var next := AcceptRecent(w, PageAt(h, n, size), maxItems);
            next.messages == TakeLast(h[..n], maxItems) && !next.hasOlder
  {
    WholeThreadShown(h, w, n - 1, maxItems);
    IgnoredExactlyWhen(h, w, n, size, maxItems);
    AcceptGives(h, w, n, size, maxItems);
    assert h[0..n] == h[..n];
  }

  lemma {:induction false} FollowedShowsAll(h: seq<Message>, n: nat, size: nat, maxItems: nat)
    requires Ordered(h) && 0 < n <= |h| && 2 <= size && n <= maxItems
    ensures Followed(h, n, size, maxItems).messages == h[..n] && !Followed(h, n, size, maxItems).hasOlder
  {
    if n <= size {
      assert h[0..n] == h[..n];
    } else {
      FollowedShowsAll(h, n - 1, size, maxItems);
      NextPageGives(h, Followed(h, n - 1, size, maxItems), n, size, maxItems);
    }
  }

  lemma EvictsAtTheBound(h: seq<Message>, v: Window, w: Window, size: nat, maxItems: nat)
    requires Ordered(h) && 2 <= size <= maxItems && |h| == maxItems + 1
    requires v.messages == h[..|h| - 1] && !v.hasOlder && w == AcceptRecent(v, PageAt(h, |h|, size), maxItems)
    ensures w.messages == h[1..] && !w.hasOlder && From(h, w) == 1 && !Exact(h, w)
  {
    NextPageGives(h, v, |h|, size, maxItems);
    AllButOldest(h, w);
  }

  /**
   * For every page size from two up to the bound (50 and 200 in the app): following a thread until it
   * exceeds the bound by one message drops the oldest and still says that there is nothing older.
   */
  lemma EvictionForgetsOlder(h: seq<Message>, size: nat, maxItems: nat)
    requires Ordered(h) && 2 <= size <= maxItems && |h| == maxItems + 1
    ensures var w := Followed(h, |h|, size, maxItems);
            w.messages == h[1..] && !w.hasOlder && From(h, w) == 1 && !Exact(h, w)
  {
    var n := |h|;
    FollowedShowsAll(h, n - 1, size, maxItems);
    FollowedUnfolds(h, n, size, maxItems);
    EvictsAtTheBound(h, Followed(h, n - 1, size, maxItems), Followed(h, n, size, maxItems), size, maxItems);
  }

  lemma FollowedUnfolds(h: seq<Message>, n: nat, size: nat, maxItems: nat)
    requires size < n <= |h|
    ensures Followed(h, n, size, maxItems) == AcceptRecent(Followed(h, n - 1, size, maxItems), PageAt(h, n, size), maxItems)
  {
  }

  lemma AllButOldest(h: seq<Message>, w: Window)
    requires Ordered(h) && |h| >= 2 && w.messages == TakeLast(h[..|h|], |h| - 1) && !w.hasOlder
    ensures w.messages == h[1..] && From(h, w) == 1 && !Exact(h, w)
  {
    assert h[..|h|] == h;
    SliceShows(h, w, 1, |h| - 1);
  }
}
