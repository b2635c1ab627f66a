/**
 * The timer-driven link cache of internal/web/cache.go.
 *
 * Unlike the generic LRU caches, this one never reorders on a hit: misses are
 * appended at the back of the list, and the periodic eviction trims the list
 * from the back, so the most recently inserted links go first. Visits are
 * counted in `newVisits` by a caller-supplied `augment` and written back by a
 * caller-supplied `cohere` callback during the periodic sync, on eviction, and
 * at Close. Both callbacks are given to each operation as functions that
 * describe what they do to a page during that call.
 */
module WebCache {
  import opened Common

  /** A cached link: Go's Page without its lock and list marker. */
  datatype Page = Page(linkID: nat, linkURL: string, newVisits: nat)

  /** The part of a resolved db.Link that the cache stores. */
  datatype Link = Link(id: nat, url: string)

  /** The cache's mutable state: `backing` and `lruList` (front = index 0). */
  datatype State = State(backing: map<string, Page>, order: seq<string>)

  /** What Resolve returns: Go's (string, error), with the error reduced to a flag. */
  datatype Answer = Answer(url: string, ok: bool)

  /** The map and the list name the same keys, each once. */
  predicate Coherent(s: State)
  {
    IsEnumeration(s.order, s.backing.Keys)
  }

  /** `Page.isDirty`: the page holds visits not yet written back. */
  predicate IsDirty(p: Page)
  {
    p.newVisits > 0
  }

  /** The keys whose pages are dirty. */
  function DirtyKeys(backing: map<string, Page>): set<string>
  {
    set k | k in backing && IsDirty(backing[k])
  }

  /** One page after the sync: a dirty page goes through `cohere`, a clean one is left alone. */
  function SyncedPage(p: Page, cohere: Page -> Page): Page
  {
    if IsDirty(p) then cohere(p) else p
  }

  /** `Resolve`, as a function of the state before the call. */
  function ResolveStep(s: State, key: string, resolved: Option<Link>, augment: Page -> Page): (State, Answer)
  {
    if key in s.backing then
      var p := augment(s.backing[key]);
      (State(s.backing[key := p], s.order), Answer(p.linkURL, true))
    else
      match resolved
      case None => (s, Answer("", false))
      case Some(link) => (State(s.backing[key := Page(link.id, link.url, 1)], s.order + [key]), Answer(link.url, true))
  }

  /** `syncAllPages`, as a function of the state before the call. */
  function SyncStep(s: State, cohere: Page -> Page): State
  {
    State(map k | k in s.backing :: SyncedPage(s.backing[k], cohere), s.order)
  }

  /** How many entries one eviction pass removes: Len - capacity, or none. */
  function RemoveCount(len: nat, capacity: nat): nat
  {
    if len > capacity then len - capacity else 0
  }

  /** One step of the eviction loop: the back key leaves map and list. */
  function DropBack(s: State): State
    requires |s.order| > 0
  {
    State(s.backing - {Last(s.order)}, s.order[..|s.order| - 1])
  }

  /** Every page of `after` is in `before`, under the same key and unchanged. */
  predicate PagesKept(after: map<string, Page>, before: map<string, Page>)
  {
    forall k | k in after :: k in before && after[k] == before[k]
  }

  lemma PagesKeptTrans(a: map<string, Page>, b: map<string, Page>, c: map<string, Page>)
    requires PagesKept(a, b) && PagesKept(b, c)
    ensures PagesKept(a, c)
  {
  }

  /** Deleting the back key from both map and list keeps them matched. */
  lemma DropBackCoherent(s: State)
    requires Coherent(s) && |s.order| > 0
    ensures Coherent(DropBack(s))
  {
    var d := DropBack(s);
    var o := d.order;
    forall i, j | 0 <= i < j < |o| ensures o[i] != o[j] {
      assert o[i] == s.order[i] && o[j] == s.order[j];
    }
    forall i | 0 <= i < |o| ensures o[i] in d.backing {
      assert o[i] == s.order[i];
    }
    forall k | k in d.backing ensures k in o {
      var i :| 0 <= i < |s.order| && s.order[i] == k;
      assert o[i] == k;
    }
  }

  /** The state after `count` steps of the eviction loop. */
  function Trimmed(s: State, count: nat): (r: State)
    requires count <= |s.order|
    ensures r.order == s.order[..|s.order| - count]
  {
    if count == 0 then
      assert s.order[..|s.order|] == s.order;
      s
    else
      var t := Trimmed(s, count - 1);
      assert t.order[..|t.order| - 1] == s.order[..|s.order| - count];
      DropBack(t)
  }

  /** However many steps the loop takes, map and list still match. */
  lemma {:induction false} TrimmedCoherent(s: State, count: nat)
    requires Coherent(s) && count <= |s.order|
    ensures Coherent(Trimmed(s, count))
  {
    if count > 0 {
      TrimmedCoherent(s, count - 1);
      DropBackCoherent(Trimmed(s, count - 1));
    }
  }

  /** However many steps the loop takes, every page left is the page that was there. */
  lemma {:induction false} TrimmedPages(s: State, count: nat)
    requires count <= |s.order|
    ensures PagesKept(Trimmed(s, count).backing, s.backing)
  {
    if count > 0 {
      var t := Trimmed(s, count - 1);
      TrimmedPages(s, count - 1);
      assert PagesKept(DropBack(t).backing, t.backing);
      PagesKeptTrans(Trimmed(s, count).backing, t.backing, s.backing);
    }
  }

  lemma TrimmedKeepsPages(s: State, count: nat)
    requires Coherent(s) && count <= |s.order|
    ensures Coherent(Trimmed(s, count))
    ensures PagesKept(Trimmed(s, count).backing, s.backing)
  {
    TrimmedCoherent(s, count);
    TrimmedPages(s, count);
  }

  /** The back key after `count` steps is the `count`-th key from the back, with the page it had at the start. */
  lemma TrimmedBack(s: State, count: nat)
    requires Coherent(s) && count < |s.order|
    ensures var t := Trimmed(s, count);
      && Last(t.order) == s.order[|s.order| - 1 - count]
      && Last(t.order) in t.backing
      && t.backing[Last(t.order)] == s.backing[s.order[|s.order| - 1 - count]]
  {
    TrimmedKeepsPages(s, count);
    var t := Trimmed(s, count);
    assert Last(t.order) == t.order[|t.order| - 1];
  }

  /** One more turn of the eviction loop: the state loses its back key and the page of that key joins the pages handed over. */
  lemma EvictLoopStep(s: State, i: nat)
    requires Coherent(s) && i < |s.order|
    ensures Last(Trimmed(s, i).order) in Trimmed(s, i).backing
    ensures Trimmed(s, i + 1) == DropBack(Trimmed(s, i))
    ensures BackPages(s, i + 1) == BackPages(s, i) + [Trimmed(s, i).backing[Last(Trimmed(s, i).order)]]
  {
    TrimmedBack(s, i);
  }

  /** The pages the first `count` steps of the eviction loop hand to `cohere`, in that order. */
  function BackPages(s: State, count: nat): (r: seq<Page>)
    requires Coherent(s) && count <= |s.order|
    ensures |r| == count
  {
    if count == 0 then [] else BackPages(s, count - 1) + [s.backing[s.order[|s.order| - count]]]
  }

  /** `evictOldPages`: the new state and the pages handed to `cohere`, in the order handed. */
  function EvictStep(s: State, capacity: nat): (State, seq<Page>)
    requires Coherent(s)
  {
    var count := RemoveCount(|s.order|, capacity);
    (Trimmed(s, count), BackPages(s, count))
  }

  /** The i-th page handed over is the page of the i-th key from the back. */
  lemma {:induction false} BackPageAt(s: State, count: nat, i: nat)
    requires Coherent(s) && i < count <= |s.order|
    ensures BackPages(s, count)[i] == s.backing[s.order[|s.order| - 1 - i]]
  {
    if i < count - 1 {
      BackPageAt(s, count - 1, i);
    }
  }

  // ----- Resolve -----

  /**
   * A hit applies `augment` to that page only, returns the (augmented) page's
   * URL, and leaves the list order alone; the resolver is not consulted.
   */
  lemma HitAugmentsOnly(s: State, key: string, resolved: Option<Link>, augment: Page -> Page)
    requires Coherent(s) && key in s.backing
    ensures var (s', a) := ResolveStep(s, key, resolved, augment);
      && a == Answer(augment(s.backing[key]).linkURL, true)
      && s'.order == s.order
      && s'.backing.Keys == s.backing.Keys
      && s'.backing[key] == augment(s.backing[key])
      && (forall k | k in s.backing && k != key :: s'.backing[k] == s.backing[k])
      && ResolveStep(s, key, None, augment) == ResolveStep(s, key, resolved, augment)
  {
  }

  /** A failed resolve returns "" with an error and leaves map and list as they were. */
  lemma FailedResolveChangesNothing(s: State, key: string, augment: Page -> Page)
    requires key !in s.backing
    ensures ResolveStep(s, key, None, augment) == (s, Answer("", false))
  {
  }

  /** A successful miss stores the link with one visit and appends its key at the back. */
  lemma MissAppendsAtBack(s: State, key: string, link: Link, augment: Page -> Page)
    requires Coherent(s) && key !in s.backing
    ensures var (s', a) := ResolveStep(s, key, Some(link), augment);
      && a == Answer(link.url, true)
      && s'.backing == s.backing[key := Page(link.id, link.url, 1)]
      && s'.order == s.order + [key]
      && Last(s'.order) == key
      && Coherent(s')
  {
    var s' := ResolveStep(s, key, Some(link), augment).0;
    assert key !in s.order;
    forall i, j | 0 <= i < j < |s'.order| ensures s'.order[i] != s'.order[j] {
      assert s'.order[i] == s.order[i];
      if j < |s.order| {
        assert s'.order[j] == s.order[j];
      }
    }
    forall k | k in s'.backing ensures k in s'.order {
      if k != key {
        var i :| 0 <= i < |s.order| && s.order[i] == k;
        assert s'.order[i] == k;
      }
    }
    forall i | 0 <= i < |s'.order| ensures s'.order[i] in s'.backing {
      if i < |s.order| {
        assert s'.order[i] == s.order[i];
      }
    }
  }

  // ----- Periodic sync and Close -----

  /**
   * The sync passes every dirty page, and no clean page, to `cohere`; it adds
   * and removes no entry and does not touch the list.
   */
  lemma SyncFlushesDirtyOnly(s: State, cohere: Page -> Page)
    ensures var s' := SyncStep(s, cohere);
      && s'.backing.Keys == s.backing.Keys
      && s'.order == s.order
      && (forall k | k in s.backing && IsDirty(s.backing[k]) :: s'.backing[k] == cohere(s.backing[k]))
      && (forall k | k in s.backing && !IsDirty(s.backing[k]) :: s'.backing[k] == s.backing[k])
  {
  }

  // ----- Eviction -----

  /**
   * One eviction pass removes max(0, Len - capacity) entries, all from the
   * back, handing each page to `cohere` back-first before deleting it;
   * afterwards Len <= capacity and map and list still match.
   */
  lemma EvictTrimsFromBack(s: State, capacity: nat)
    requires Coherent(s)
    ensures var (s', flushed) := EvictStep(s, capacity);
      var n := |s.order|;
      && |flushed| == RemoveCount(n, capacity)
      && |s'.order| == n - RemoveCount(n, capacity)
      && |s'.order| <= capacity
      && s'.order == s.order[..|s'.order|]
      && (forall i | 0 <= i < |flushed| :: flushed[i] == s.backing[s.order[n - 1 - i]])
      && (forall i | |s'.order| <= i < n :: s.order[i] !in s'.backing)
      && (forall k | k in s'.backing :: k in s.backing && s'.backing[k] == s.backing[k])
      && Coherent(s')
  {
    var n := |s.order|;
    var count := RemoveCount(n, capacity);
    TrimmedKeepsPages(s, count);
    var flushed := BackPages(s, count);
    forall i | 0 <= i < |flushed| ensures flushed[i] == s.backing[s.order[n - 1 - i]] {
      BackPageAt(s, count, i);
    }
  }

  /**
   * Because inserts go to the back and eviction starts at the back, a link just
   * inserted into a full cache is the first one the next eviction hands to
   * `cohere` and removes, while the links that were there before it stay.
   */
  lemma NewestEvictedFirst(s: State, capacity: nat, key: string, link: Link, augment: Page -> Page)
    requires Coherent(s) && key !in s.backing && |s.order| == capacity
    ensures var s1 := ResolveStep(s, key, Some(link), augment).0;
      Coherent(s1) &&
      var (s2, flushed) := EvictStep(s1, capacity);
      && flushed == [Page(link.id, link.url, 1)]
      && key !in s2.backing
      && s2 == s
  {
    MissAppendsAtBack(s, key, link, augment);
    var s1 := ResolveStep(s, key, Some(link), augment).0;
    EvictTrimsFromBack(s1, capacity);
    var s2 := EvictStep(s1, capacity).0;
    assert s2.order == s.order;
    assert s2.backing == s.backing;
  }

  // ----- The handler's callback -----

  /**
   * The cohere callback the redirect handler installs: it asks the store to add
   * the page's count to the link, and zeroes the count only when the store
   * reports success.
   */
  function HandlerCohere(p: Page, incremented: bool): (r: Page)
    ensures r.linkID == p.linkID && r.linkURL == p.linkURL
    ensures r.newVisits == (if incremented then 0 else p.newVisits)
  {
    if incremented then p.(newVisits := 0) else p
  }

  /**
   * With the handler's callback, a sync leaves each written-back page clean and
   * keeps the full count of each page whose write failed, so the next sync
   * sends that whole count again; clean pages are never sent.
   */
  lemma SyncWithHandlerCohere(s: State, incremented: (nat, nat) -> bool)
    ensures var s' := SyncStep(s, (p: Page) => HandlerCohere(p, incremented(p.linkID, p.newVisits)));
      forall k | k in s.backing ::
        && s'.backing[k].linkID == s.backing[k].linkID
        && s'.backing[k].newVisits == (if IsDirty(s.backing[k]) && incremented(s.backing[k].linkID, s.backing[k].newVisits) then 0 else s.backing[k].newVisits)
  {
    var f := (p: Page) => HandlerCohere(p, incremented(p.linkID, p.newVisits));
    forall k | k in s.backing
      ensures SyncStep(s, f).backing[k].newVisits == (if IsDirty(s.backing[k]) && incremented(s.backing[k].linkID, s.backing[k].newVisits) then 0 else s.backing[k].newVisits)
    {
      assert SyncStep(s, f).backing[k] == SyncedPage(s.backing[k], f);
    }
  }

  /**
   * `isDirty` marks exactly the pages with visits still to write back: after
   * a sync with the handler's callback, the dirty pages are the ones that were
   * dirty and whose write failed.
   */
  lemma DirtyAfterHandlerSync(s: State, incremented: (nat, nat) -> bool)
    ensures var s' := SyncStep(s, (p: Page) => HandlerCohere(p, incremented(p.linkID, p.newVisits)));
      DirtyKeys(s'.backing) == set k | k in DirtyKeys(s.backing) && !incremented(s.backing[k].linkID, s.backing[k].newVisits)
  {
    var f := (p: Page) => HandlerCohere(p, incremented(p.linkID, p.newVisits));
    var s' := SyncStep(s, f);
    SyncWithHandlerCohere(s, incremented);
    assert s'.backing.Keys == s.backing.Keys;
  }

  /** The cache as an object. */
  class Cache {
    const capacity: nat
    var backing: map<string, Page>
    var lruList: seq<string>

    function View(): State
      reads this
    {
      State(backing, lruList)
    }

    ghost predicate Valid()
      reads this
    {
      Coherent(View())
    }

    /** `NewCache` without its tickers: an empty cache of the given capacity. */
    constructor NewCache(capacity: nat)
      ensures Valid()
      ensures this.capacity == capacity && backing == map[] && lruList == []
    {
      this.capacity := capacity;
      backing := map[];
      lruList := [];
    }

    /** Resolve a short id: serve a hit through `augment`, or resolve and append a miss. */
    method Resolve(key: string, resolved: Option<Link>, augment: Page -> Page) returns (answer: Answer)
      requires Valid()
      modifies this
      ensures Valid()
      ensures (View(), answer) == ResolveStep(old(View()), key, resolved, augment)
    {
      if key in backing {
        var page := augment(backing[key]);
        backing := backing[key := page];
        return Answer(page.linkURL, true);
      }

      if resolved.None? {
        return Answer("", false);
      }

      MissAppendsAtBack(View(), key, resolved.value, augment);
      var link := resolved.value;
      backing := backing[key := Page(link.id, link.url, 1)];
      lruList := lruList + [key];
      answer := Answer(link.url, true);
    }

    /** `syncAllPages`: pass every dirty page through `cohere`; returns the keys whose pages were passed. */
    method SyncAllPages(cohere: Page -> Page) returns (cohered: set<string>)
      requires Valid()
      modifies this
      ensures Valid()
      ensures View() == SyncStep(old(View()), cohere)
      ensures cohered == DirtyKeys(old(backing))
    {
      ghost var start := backing;
      var pending := backing.Keys;
      cohered := {};
      while pending != {}
        invariant pending <= start.Keys
        invariant backing.Keys == start.Keys
        invariant lruList == old(lruList)
        invariant forall k | k in start && k !in pending :: backing[k] == SyncedPage(start[k], cohere)
        invariant forall k | k in pending :: backing[k] == start[k]
        invariant cohered == set k | k in start && k !in pending && IsDirty(start[k])
        decreases pending
      {
        var k :| k in pending;
        if IsDirty(backing[k]) {
          backing := backing[k := cohere(backing[k])];
          cohered := cohered + {k};
        }
        pending := pending - {k};
      }
      assert backing == SyncStep(State(start, lruList), cohere).backing;
    }

    /** `evictOldPages`: trim the list to `capacity` from the back; returns the pages handed to `cohere`. */
    method EvictOldPages() returns (flushed: seq<Page>)
      requires Valid()
      modifies this
      ensures Valid()
      ensures (View(), flushed) == EvictStep(old(View()), capacity)
    {
      ghost var start := View();
      var removeCount := |lruList| - capacity;
      var i := 0;
      flushed := [];
      while i < removeCount
        invariant 0 <= i <= RemoveCount(|start.order|, capacity)
        invariant View() == Trimmed(start, i)
        invariant flushed == BackPages(start, i)
      {
        EvictLoopStep(start, i);
        var page := EvictBack();
        flushed := flushed + [page];
        i := i + 1;
      }
      assert i == RemoveCount(|start.order|, capacity);
      TrimmedCoherent(start, i);
    }

    /** One turn of the eviction loop: hand over the back page and delete its key from map and list. */
    method EvictBack() returns (page: Page)
      requires |lruList| > 0 && Last(lruList) in backing
      modifies this
      ensures View() == DropBack(old(View()))
      ensures page == old(backing)[Last(old(lruList))]
    {
      var key := lruList[|lruList| - 1];
      page := backing[key];
      backing := backing - {key};
      lruList := lruList[..|lruList| - 1];
    }

    /** `Close`: the final sync. */
    method Close(cohere: Page -> Page) returns (cohered: set<string>)
      requires Valid()
      modifies this
      ensures Valid()
      ensures View() == SyncStep(old(View()), cohere)
      ensures cohered == DirtyKeys(old(backing))
    {
      cohered := SyncAllPages(cohere);
    }
  }
}
