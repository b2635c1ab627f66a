/**
 * The generic link-resolution cache with hit-count write-back: `Cache[T]` of
 * internal/server/cache/lru.go, internal/caching/lru.go and
 * internal/server/caching/lru.go, which differ only in names and in how the
 * write-back threshold is chosen.
 *
 * The state is a key -> page map (Go's backingMap) and a recency list of keys
 * (Go's lruList, front = most recently used = index 0). The resolver and the
 * coherer are collaborators: Resolve is given what the resolver answers for the
 * key (`resolved`, None for an error) and whether a hit-path coherer call
 * succeeds (`cohereOk`), and reports the calls it makes, in order.
 */
module LruCache {
  import opened Common

  /** One cached entry; `hits` counts visits not yet handed to the coherer successfully. */
  datatype Page<T> = Page(key: string, value: T, hits: nat)

  /** A call into a collaborator: the coherer with a value and a hit count, or the resolver with a key. */
  datatype Call<T> = Cohere(value: T, count: nat) | ResolveKey(key: string)

  /** Resolve's result: the value, or the error that wraps the resolver's failure. */
  datatype Answer<T> = Found(value: T) | FailedToResolve(key: string)

  /** The cache's mutable state: backingMap and lruList. */
  datatype State<T> = State(pages: map<string, Page<T>>, order: seq<string>)

  /** What one Resolve does: the new state, the result, and the collaborator calls made. */
  datatype Reply<T> = Reply(after: State<T>, answer: Answer<T>, calls: seq<Call<T>>)

  /** One Resolve request together with its collaborators' answers. */
  datatype Request<T> = Request(key: string, resolved: Option<T>, cohereOk: bool)

  /**
   * Map/list bijection: each map entry's page carries its own key, and the list
   * names every key of the map exactly once.
   */
  predicate Coherent<T>(s: State<T>)
  {
    && (forall k | k in s.pages :: s.pages[k].key == k)
    && IsEnumeration(s.order, s.pages.Keys)
  }

  /** The most entries the cache can hold: `capacity`, except that a zero capacity still admits one. */
  function MaxEntries(capacity: nat): nat
  {
    if capacity == 0 then 1 else capacity
  }

  /** `list.MoveToFront`. */
  function MoveToFront(order: seq<string>, key: string): seq<string>
  {
    [key] + Remove(order, key)
  }

  /** A miss at or above capacity with a non-empty list removes the back entry first. */
  predicate EvictionDue<T>(s: State<T>, capacity: nat)
  {
    |s.pages| >= capacity && |s.order| > 0
  }

  /** The state after deleting the back page from the map (by its key) and the list. */
  function Evicted<T>(s: State<T>): (r: State<T>)
    requires Coherent(s) && |s.order| > 0
    ensures Coherent(r)
    ensures r.pages.Keys == s.pages.Keys - {Last(s.order)}
    ensures |r.pages| == |s.pages| - 1
    ensures forall k | k in r.pages :: r.pages[k] == s.pages[k]
    ensures r.order == s.order[..|s.order| - 1]
  {
    var page := s.pages[Last(s.order)];
    var r := State(s.pages - {page.key}, s.order[..|s.order| - 1]);
    assert Coherent(r) by {
      var b := Last(s.order);
      var o := r.order;
      forall i, j | 0 <= i < j < |o| ensures o[i] != o[j] {
        assert o[i] == s.order[i] && o[j] == s.order[j];
      }
      forall i | 0 <= i < |o| ensures o[i] in r.pages {
        assert o[i] == s.order[i];
        assert s.order[i] != b;
      }
      forall k | k in r.pages ensures k in o {
        var i :| 0 <= i < |s.order| && s.order[i] == k;
        assert o[i] == k;
      }
    }
    r
  }

  /** Putting a page with a key not yet cached at the front of both map and list keeps the bijection. */
  lemma PushFrontCoherent<T>(s: State<T>, page: Page<T>)
    requires Coherent(s) && page.key !in s.pages
    ensures Coherent(State(s.pages[page.key := page], [page.key] + s.order))
  {
    assert page.key !in s.order;
    NoDuplicatesCons(page.key, s.order);
    var o := [page.key] + s.order;
    forall i | 0 <= i < |o| ensures o[i] in s.pages[page.key := page] {
      if i > 0 {
        assert o[i] == s.order[i - 1];
      }
    }
  }

  /** Taking one key out of both map and list keeps the bijection. */
  lemma UnlinkCoherent<T>(s: State<T>, key: string)
    requires Coherent(s)
    ensures Coherent(State(s.pages - {key}, Remove(s.order, key)))
  {
    RemoveKeepsNoDuplicates(s.order, key);
    var r := Remove(s.order, key);
    forall i | 0 <= i < |r| ensures r[i] in s.pages - {key} {
      assert r[i] in r;
    }
  }

  /** The hit path of Resolve. */
  function HitStep<T>(s: State<T>, interval: nat, key: string, cohereOk: bool): (r: Reply<T>)
    requires Coherent(s) && key in s.pages
    ensures Coherent(r.after)
  {
    var page := s.pages[key];
    var hits := page.hits + 1;
    var due := hits >= interval;
    var page' := page.(hits := if due && cohereOk then 0 else hits);
    var r := Reply(State(s.pages[key := page'], MoveToFront(s.order, key)),
                   Found(page.value),
                   if due then [Cohere(page.value, hits)] else []);
    assert Coherent(r.after) by {
      var u := State(s.pages - {key}, Remove(s.order, key));
      UnlinkCoherent(s, key);
      PushFrontCoherent(u, page');
      assert u.pages[key := page'] == s.pages[key := page'];
    }
    r
  }

  /** The miss path of Resolve: evict the back entry if full, then ask the resolver. */
  function MissStep<T>(s: State<T>, capacity: nat, key: string, resolved: Option<T>): (r: Reply<T>)
    requires Coherent(s) && key !in s.pages
    ensures Coherent(r.after)
  {
    var evict := EvictionDue(s, capacity);
    var s1 := if evict then Evicted(s) else s;
    var evictCalls := if evict then [Cohere(s.pages[Last(s.order)].value, s.pages[Last(s.order)].hits)] else [];
    match resolved
    case None => Reply(s1, FailedToResolve(key), evictCalls + [ResolveKey(key)])
    case Some(v) =>
      PushFrontCoherent(s1, Page(key, v, 1));
      Reply(State(s1.pages[key := Page(key, v, 1)], [key] + s1.order), Found(v), evictCalls + [ResolveKey(key)])
  }

  /** Resolve, as a function of the state before the call. */
  function Step<T>(s: State<T>, capacity: nat, interval: nat, key: string, resolved: Option<T>, cohereOk: bool): (r: Reply<T>)
    requires Coherent(s)
    ensures Coherent(r.after)
  {
    if key in s.pages then HitStep(s, interval, key, cohereOk) else MissStep(s, capacity, key, resolved)
  }

  /** Resolve applied to a sequence of requests, one after the other. */
  function Run<T>(s: State<T>, capacity: nat, interval: nat, reqs: seq<Request<T>>): (e: State<T>)
    requires Coherent(s)
    ensures Coherent(e)
    decreases |reqs|
  {
    if reqs == [] then s
    else Run(Step(s, capacity, interval, reqs[0].key, reqs[0].resolved, reqs[0].cohereOk).after, capacity, interval, reqs[1..])
  }

  // ----- Hits -----

  /**
   * A hit answers the stored value without calling the resolver, moves the key
   * to the front, keeps the relative order of the other keys and changes no
   * other page.
   */
  lemma HitServesFromCache<T>(s: State<T>, capacity: nat, interval: nat, key: string, resolved: Option<T>, cohereOk: bool)
    requires Coherent(s) && key in s.pages
    ensures var r := Step(s, capacity, interval, key, resolved, cohereOk);
      && r.answer == Found(s.pages[key].value)
      && (forall i | 0 <= i < |r.calls| :: !r.calls[i].ResolveKey?)
      && r.after.order[0] == key
      && Remove(r.after.order, key) == Remove(s.order, key)
      && r.after.pages.Keys == s.pages.Keys
      && (forall k | k in s.pages && k != key :: r.after.pages[k] == s.pages[k])
      && r.after.pages[key].value == s.pages[key].value
  {
    var r := Step(s, capacity, interval, key, resolved, cohereOk);
    assert r.after.order == [key] + Remove(s.order, key);
    assert Remove(r.after.order, key) == Remove(Remove(s.order, key), key);
    RemoveAbsent(Remove(s.order, key), key);
  }

  /**
   * A hit adds exactly one to the page's count; when the count reaches the
   * interval the coherer receives the full count, and the count drops to zero
   * only if that call succeeds.
   */
  lemma HitCountsAndCoheres<T>(s: State<T>, capacity: nat, interval: nat, key: string, resolved: Option<T>, cohereOk: bool)
    requires Coherent(s) && key in s.pages
    ensures var r := Step(s, capacity, interval, key, resolved, cohereOk);
      var n := s.pages[key].hits + 1;
      && r.calls == (if n >= interval then [Cohere(s.pages[key].value, n)] else [])
      && r.after.pages[key].hits == (if n >= interval && cohereOk then 0 else n)
  {
  }

  /**
   * Across any Resolve, a page whose count is zero afterwards either was at zero
   * and untouched, or is the hit page whose coherer call was made and succeeded:
   * counts are reset only by a successful write-back.
   */
  lemma HitsResetOnlyOnSuccessfulCohere<T>(s: State<T>, capacity: nat, interval: nat, key: string, resolved: Option<T>, cohereOk: bool)
    requires Coherent(s)
    ensures var r := Step(s, capacity, interval, key, resolved, cohereOk);
      forall k | k in r.after.pages && r.after.pages[k].hits == 0 ::
        || (k != key && k in s.pages && s.pages[k].hits == 0)
        || (k == key && key in s.pages && cohereOk && r.calls == [Cohere(s.pages[key].value, s.pages[key].hits + 1)])
  {
    if key in s.pages {
      HitResetsOnlyOnSuccess(s, interval, key, cohereOk);
    } else {
      MissResetsNothing(s, capacity, key, resolved);
    }
  }

  lemma HitResetsOnlyOnSuccess<T>(s: State<T>, interval: nat, key: string, cohereOk: bool)
    requires Coherent(s) && key in s.pages
    ensures var r := HitStep(s, interval, key, cohereOk);
      forall k | k in r.after.pages && r.after.pages[k].hits == 0 ::
        || (k != key && s.pages[k].hits == 0)
        || (k == key && cohereOk && r.calls == [Cohere(s.pages[key].value, s.pages[key].hits + 1)])
  {
    var n := s.pages[key].hits + 1;
    var r := HitStep(s, interval, key, cohereOk);
    assert r.after.pages == s.pages[key := s.pages[key].(hits := if n >= interval && cohereOk then 0 else n)];
  }

  lemma MissResetsNothing<T>(s: State<T>, capacity: nat, key: string, resolved: Option<T>)
    requires Coherent(s) && key !in s.pages
    ensures var r := MissStep(s, capacity, key, resolved);
      forall k | k in r.after.pages && r.after.pages[k].hits == 0 :: k != key && k in s.pages && s.pages[k].hits == 0
  {
    var s1 := if EvictionDue(s, capacity) then Evicted(s) else s;
    assert forall k | k in s1.pages :: k in s.pages && s1.pages[k] == s.pages[k];
    var r := MissStep(s, capacity, key, resolved);
    match resolved
    case None =>
      assert r.after == s1;
    case Some(v) =>
      assert r.after.pages == s1.pages[key := Page(key, v, 1)];
  }

  // ----- Misses -----

  /**
   * A miss at capacity first hands the back (least recently placed) page to the
   * coherer, whatever that call answers, and removes it from both map and list;
   * no other entry is removed.
   */
  lemma MissEvictsBack<T>(s: State<T>, capacity: nat, interval: nat, key: string, resolved: Option<T>, cohereOk: bool)
    requires Coherent(s) && key !in s.pages && |s.pages| >= capacity && |s.order| > 0
    ensures var r := Step(s, capacity, interval, key, resolved, cohereOk);
      var b := Last(s.order);
      && |r.calls| == 2
      && r.calls[0] == Cohere(s.pages[b].value, s.pages[b].hits)
      && r.calls[1] == ResolveKey(key)
      && b !in r.after.pages && b !in r.after.order
      && r.after.pages.Keys == (s.pages.Keys - {b}) + (if resolved.Some? then {key} else {})
      && (forall k | k in s.pages && k != b :: r.after.pages[k] == s.pages[k])
  {
    EvictingMiss(s, capacity, key, resolved);
  }

  lemma EvictingMiss<T>(s: State<T>, capacity: nat, key: string, resolved: Option<T>)
    requires Coherent(s) && key !in s.pages && |s.pages| >= capacity && |s.order| > 0
    ensures var r := MissStep(s, capacity, key, resolved);
      var b := Last(s.order);
      && |r.calls| == 2
      && r.calls[0] == Cohere(s.pages[b].value, s.pages[b].hits)
      && r.calls[1] == ResolveKey(key)
      && b !in r.after.pages && b !in r.after.order
      && r.after.pages.Keys == (s.pages.Keys - {b}) + (if resolved.Some? then {key} else {})
      && (forall k | k in s.pages && k != b :: r.after.pages[k] == s.pages[k])
  {
    EvictingMissState(s, capacity, key, resolved);
  }

  /** Eviction takes out exactly the back key, from the list too. */
  lemma EvictedDropsBack<T>(s: State<T>)
    requires Coherent(s) && |s.order| > 0
    ensures Last(s.order) !in Evicted(s).pages && Last(s.order) !in Evicted(s).order
    ensures forall k | k in s.pages && k != Last(s.order) :: k in Evicted(s).pages && Evicted(s).pages[k] == s.pages[k]
  {
  }

  lemma EvictingMissState<T>(s: State<T>, capacity: nat, key: string, resolved: Option<T>)
    requires Coherent(s) && key !in s.pages && |s.pages| >= capacity && |s.order| > 0
    ensures var r := MissStep(s, capacity, key, resolved);
      var b := Last(s.order);
      && b !in r.after.pages && b !in r.after.order
      && r.after.pages.Keys == (s.pages.Keys - {b}) + (if resolved.Some? then {key} else {})
      && (forall k | k in s.pages && k != b :: r.after.pages[k] == s.pages[k])
  {
    EvictedDropsBack(s);
    if resolved.Some? {
      EvictingFill(s, capacity, key, resolved.value);
    }
  }

  lemma EvictingFill<T>(s: State<T>, capacity: nat, key: string, v: T)
    requires Coherent(s) && key !in s.pages && |s.pages| >= capacity && |s.order| > 0
    ensures var r := MissStep(s, capacity, key, Some(v));
      var b := Last(s.order);
      && b !in r.after.pages && b !in r.after.order
      && r.after.pages.Keys == (s.pages.Keys - {b}) + {key}
      && (forall k | k in s.pages && k != b :: r.after.pages[k] == s.pages[k])
  {
    var s1 := Evicted(s);
    var r := MissStep(s, capacity, key, Some(v));
    EvictedDropsBack(s);
    assert r.after.pages == s1.pages[key := Page(key, v, 1)];
    assert r.after.order == [key] + s1.order;
  }

  /** Below capacity a miss evicts nothing: the only call is the resolver's. */
  lemma MissBelowCapacityKeepsAll<T>(s: State<T>, capacity: nat, interval: nat, key: string, resolved: Option<T>, cohereOk: bool)
    requires Coherent(s) && key !in s.pages && |s.pages| < capacity
    ensures var r := Step(s, capacity, interval, key, resolved, cohereOk);
      && r.calls == [ResolveKey(key)]
      && (forall k | k in s.pages :: k in r.after.pages && r.after.pages[k] == s.pages[k])
  {
  }

  /**
   * A failed resolve returns the error and inserts nothing; an eviction made
   * before the resolver was asked stays done.
   */
  lemma FailedResolveInsertsNothing<T>(s: State<T>, capacity: nat, interval: nat, key: string, cohereOk: bool)
    requires Coherent(s) && key !in s.pages
    ensures var r := Step(s, capacity, interval, key, None, cohereOk);
      && r.answer == FailedToResolve(key)
      && key !in r.after.pages
      && r.after == (if EvictionDue(s, capacity) then Evicted(s) else s)
      && Last(r.calls) == ResolveKey(key)
  {
  }

  /** A successful miss stores a page with one hit, at the front of the list. */
  lemma MissInsertsAtFront<T>(s: State<T>, capacity: nat, interval: nat, key: string, v: T, cohereOk: bool)
    requires Coherent(s) && key !in s.pages
    ensures var r := Step(s, capacity, interval, key, Some(v), cohereOk);
      && r.answer == Found(v)
      && r.after.pages[key] == Page(key, v, 1)
      && r.after.order[0] == key
      && r.after.order[1..] == (if EvictionDue(s, capacity) then Evicted(s) else s).order
  {
  }

  // ----- Capacity -----

  /** Every Resolve keeps the entry count within MaxEntries(capacity). */
  lemma {:induction false} StepKeepsBound<T>(s: State<T>, capacity: nat, interval: nat, key: string, resolved: Option<T>, cohereOk: bool)
    requires Coherent(s) && |s.pages| <= MaxEntries(capacity)
    ensures |Step(s, capacity, interval, key, resolved, cohereOk).after.pages| <= MaxEntries(capacity)
  {
    if key !in s.pages {
      if !EvictionDue(s, capacity) && |s.pages| >= capacity {
        // the list is empty, hence so is the map
        assert s.pages.Keys == {};
      }
    }
  }

  /** Any sequence of Resolves from a coherent state within the bound stays coherent and within it. */
  lemma {:induction false} RunKeepsBound<T>(s: State<T>, capacity: nat, interval: nat, reqs: seq<Request<T>>)
    requires Coherent(s) && |s.pages| <= MaxEntries(capacity)
    ensures Coherent(Run(s, capacity, interval, reqs))
    ensures |Run(s, capacity, interval, reqs).pages| <= MaxEntries(capacity)
    decreases |reqs|
  {
    if reqs != [] {
      var r := Step(s, capacity, interval, reqs[0].key, reqs[0].resolved, reqs[0].cohereOk);
      StepKeepsBound(s, capacity, interval, reqs[0].key, reqs[0].resolved, reqs[0].cohereOk);
      RunKeepsBound(r.after, capacity, interval, reqs[1..]);
    }
  }

  /**
   * Repeated hits on one key whose write-backs all fail accumulate: after n of
   * them the count has grown by exactly n and the key is at the front.
   */
  lemma {:induction false} RepeatedHitsAccumulate<T>(s: State<T>, capacity: nat, interval: nat, key: string, reqs: seq<Request<T>>)
    requires Coherent(s) && key in s.pages
    requires forall i | 0 <= i < |reqs| :: reqs[i].key == key && !reqs[i].cohereOk
    ensures var e := Run(s, capacity, interval, reqs);
      && key in e.pages
      && e.pages[key].hits == s.pages[key].hits + |reqs|
      && e.pages[key].value == s.pages[key].value
      && (|reqs| > 0 ==> e.order[0] == key)
    decreases |reqs|
  {
    if reqs != [] {
      var r := Step(s, capacity, interval, key, reqs[0].resolved, false);
      assert reqs[0].key == key;
      RepeatedHitsAccumulate(r.after, capacity, interval, key, reqs[1..]);
      if |reqs| == 1 {
        assert reqs[1..] == [];
      }
    }
  }

  // ----- Recency -----

  /** The last position at which `k` occurs in `h`, or -1. */
  function LastIndex<K(==)>(h: seq<K>, k: K): (r: int)
    ensures -1 <= r < |h|
    ensures r >= 0 ==> h[r] == k
    ensures r == -1 <==> k !in h
    ensures forall j | r < j < |h| :: h[j] != k
  {
    if h == [] then -1
    else if Last(h) == k then |h| - 1
    else
      var r := LastIndex(h[..|h| - 1], k);
      assert k in h[..|h| - 1] ==> k in h;
      assert k in h ==> k in h[..|h| - 1] by {
        if k in h {
          var j :| 0 <= j < |h| && h[j] == k;
          assert j < |h| - 1 && h[..|h| - 1][j] == k;
        }
      }
      r
  }

  /**
   * `order` lists keys by recency of access in history `h`: every listed key was
   * accessed, and each was last accessed later than every key after it.
   */
  predicate ByRecency<K(==)>(order: seq<K>, h: seq<K>)
  {
    && (forall i | 0 <= i < |order| :: order[i] in h)
    && (forall i, j | 0 <= i < j < |order| :: LastIndex(h, order[i]) > LastIndex(h, order[j]))
  }

  lemma LastIndexAppend<K>(h: seq<K>, k: K, x: K)
    ensures LastIndex(h + [k], x) == if x == k then |h| else LastIndex(h, x)
  {
    assert (h + [k])[..|h|] == h;
  }

  lemma ByRecencyTail<K>(order: seq<K>, h: seq<K>)
    requires ByRecency(order, h) && |order| > 0
    ensures ByRecency(order[1..], h)
    ensures forall y | y in order[1..] :: LastIndex(h, order[0]) > LastIndex(h, y)
  {
    var tail := order[1..];
    forall i, j | 0 <= i < j < |tail| ensures LastIndex(h, tail[i]) > LastIndex(h, tail[j]) {
      assert tail[i] == order[i + 1] && tail[j] == order[j + 1];
    }
    forall i | 0 <= i < |tail| ensures tail[i] in h && LastIndex(h, order[0]) > LastIndex(h, tail[i]) {
      assert tail[i] == order[i + 1];
    }
  }

  /** A key accessed after every key of an ordered list can be put in front of it. */
  lemma ByRecencyCons<K>(x: K, rest: seq<K>, h: seq<K>)
    requires ByRecency(rest, h) && x in h
    requires forall y | y in rest :: LastIndex(h, x) > LastIndex(h, y)
    ensures ByRecency([x] + rest, h)
  {
    var o := [x] + rest;
    forall i, j | 0 <= i < j < |o| ensures LastIndex(h, o[i]) > LastIndex(h, o[j]) {
      assert o[j] == rest[j - 1];
      if i == 0 {
        assert rest[j - 1] in rest;
      } else {
        assert o[i] == rest[i - 1];
      }
    }
    forall i | 0 <= i < |o| ensures o[i] in h {
      if i > 0 {
        assert o[i] == rest[i - 1];
      }
    }
  }

  lemma {:induction false} RemoveKeepsByRecency<K>(order: seq<K>, k: K, h: seq<K>)
    requires ByRecency(order, h)
    ensures ByRecency(Remove(order, k), h)
  {
    if order != [] {
      var tail := order[1..];
      ByRecencyTail(order, h);
      RemoveKeepsByRecency(tail, k, h);
      if order[0] != k {
        ByRecencyCons(order[0], Remove(tail, k), h);
      }
    }
  }

  lemma ByRecencyDropLast<K>(order: seq<K>, h: seq<K>)
    requires ByRecency(order, h) && |order| > 0
    ensures ByRecency(order[..|order| - 1], h)
  {
    var o := order[..|order| - 1];
    forall i, j | 0 <= i < j < |o| ensures LastIndex(h, o[i]) > LastIndex(h, o[j]) {
      assert o[i] == order[i] && o[j] == order[j];
    }
    forall i | 0 <= i < |o| ensures o[i] in h {
      assert o[i] == order[i];
    }
  }

  /** Accessing a key not in the list and putting it in front keeps the list ordered by recency. */
  lemma AccessToFront<K>(order: seq<K>, k: K, h: seq<K>)
    requires ByRecency(order, h) && k !in order
    ensures ByRecency([k] + order, h + [k])
  {
    var h' := h + [k];
    forall x | x in order ensures LastIndex(h', x) == LastIndex(h, x) {
      LastIndexAppend(h, k, x);
    }
    LastIndexAppend(h, k, k);
    assert ByRecency(order, h') by {
      forall i | 0 <= i < |order| ensures order[i] in h' && LastIndex(h', order[i]) == LastIndex(h, order[i]) {
        LastIndexAppend(h, k, order[i]);
      }
    }
    ByRecencyCons(k, order, h');
  }

  /**
   * The recency list always lists the cached keys by how recently they were
   * successfully resolved (hit or filled miss): each Resolve that answers a value
   * appends its key to the access history and keeps the list ordered by it.
   */
  lemma StepKeepsRecency<T>(s: State<T>, capacity: nat, interval: nat, key: string, resolved: Option<T>, cohereOk: bool, h: seq<string>)
    requires Coherent(s) && ByRecency(s.order, h)
    ensures var r := Step(s, capacity, interval, key, resolved, cohereOk);
      ByRecency(r.after.order, if r.answer.Found? then h + [key] else h)
  {
    if key in s.pages {
      RemoveKeepsByRecency(s.order, key, h);
      AccessToFront(Remove(s.order, key), key, h);
    } else {
      var s1 := if EvictionDue(s, capacity) then Evicted(s) else s;
      if EvictionDue(s, capacity) {
        ByRecencyDropLast(s.order, h);
      }
      if resolved.Some? {
        assert key !in s1.order;
        AccessToFront(s1.order, key, h);
      }
    }
  }

  /**
   * A miss that evicts removes the cached key whose last access is oldest: every
   * other cached key was accessed more recently.
   */
  lemma EvictsLeastRecentlyUsed<T>(s: State<T>, capacity: nat, interval: nat, key: string, resolved: Option<T>, cohereOk: bool, h: seq<string>)
    requires Coherent(s) && ByRecency(s.order, h) && key !in s.pages && EvictionDue(s, capacity)
    ensures var b := Last(s.order);
      && b in s.pages
      && b !in Step(s, capacity, interval, key, resolved, cohereOk).after.pages
      && forall k | k in s.pages && k != b :: LastIndex(h, k) > LastIndex(h, b)
  {
    assert Step(s, capacity, interval, key, resolved, cohereOk) == MissStep(s, capacity, key, resolved);
    EvictingMissState(s, capacity, key, resolved);
    LastIsOldest(s.order, h);
  }

  /** The back of a list ordered by recency was accessed least recently. */
  lemma LastIsOldest<K>(order: seq<K>, h: seq<K>)
    requires ByRecency(order, h) && |order| > 0
    ensures Last(order) in order
    ensures forall k | k in order && k != Last(order) :: LastIndex(h, k) > LastIndex(h, Last(order))
  {
    forall k | k in order && k != Last(order) ensures LastIndex(h, k) > LastIndex(h, Last(order)) {
      var i :| 0 <= i < |order| && order[i] == k;
      assert i < |order| - 1;
    }
  }

  /** What every Cache keeps: the bijection, the capacity bound and the recency order. */
  ghost predicate Invariant<T>(s: State<T>, capacity: nat, h: seq<string>)
  {
    && Coherent(s)
    && |s.pages| <= MaxEntries(capacity)
    && ByRecency(s.order, h)
  }

  /** One Resolve keeps the invariant, with the history extended by the key when a value is answered. */
  lemma StepKeepsInvariant<T>(s: State<T>, capacity: nat, interval: nat, key: string, resolved: Option<T>, cohereOk: bool, h: seq<string>)
    requires Invariant(s, capacity, h)
    ensures var r := Step(s, capacity, interval, key, resolved, cohereOk);
      Invariant(r.after, capacity, if r.answer.Found? then h + [key] else h)
  {
    StepKeepsBound(s, capacity, interval, key, resolved, cohereOk);
    StepKeepsRecency(s, capacity, interval, key, resolved, cohereOk, h);
  }

  /**
   * The cache as an object. `accesses` is the history of keys that Resolve
   * answered with a value; it exists for the proof only.
   */
  class Cache<T> {
    const capacity: nat
    /** Number of hits before the coherer is called (cohereInterval / cohereDelay / waitFor). */
    const cohereInterval: nat
    var backingMap: map<string, Page<T>>
    var lruList: seq<string>
    ghost var accesses: seq<string>

    function View(): State<T>
      reads this
    {
      State(backingMap, lruList)
    }

    ghost predicate Valid()
      reads this
    {
      Invariant(View(), capacity, accesses)
    }

    /** `New` / `NewCache` with a caller-chosen write-back interval. */
    constructor New(capacity: nat, cohereInterval: nat)
      ensures Valid()
      ensures this.capacity == capacity && this.cohereInterval == cohereInterval
      ensures backingMap == map[] && lruList == [] && accesses == []
    {
      this.capacity := capacity;
      this.cohereInterval := cohereInterval;
      backingMap := map[];
      lruList := [];
      accesses := [];
    }

    /** `NewCache` with the write-back interval fixed at 10 hits. */
    constructor NewWithFixedInterval(capacity: nat)
      ensures Valid()
      ensures this.capacity == capacity && cohereInterval == 10
      ensures backingMap == map[] && lruList == [] && accesses == []
    {
      this.capacity := capacity;
      cohereInterval := 10;
      backingMap := map[];
      lruList := [];
      accesses := [];
    }

    /**
     * Resolve a key: serve and count a hit, or evict if full, ask the resolver
     * and insert the answer. The whole call is one critical section.
     */
    method Resolve(key: string, resolved: Option<T>, cohereOk: bool) returns (answer: Answer<T>, calls: seq<Call<T>>)
      requires Valid()
      modifies this
      ensures Valid()
      ensures Reply(View(), answer, calls) == Step(old(View()), capacity, cohereInterval, key, resolved, cohereOk)
      ensures accesses == old(accesses) + (if answer.Found? then [key] else [])
    {
      ghost var before := View();
      StepKeepsInvariant(before, capacity, cohereInterval, key, resolved, cohereOk, accesses);
      if key in backingMap {
        answer, calls := ResolveHit(key, cohereOk);
      } else {
        answer, calls := ResolveMiss(key, resolved);
      }
      ghost var r := Step(before, capacity, cohereInterval, key, resolved, cohereOk);
      assert View() == r.after && answer == r.answer;
      assert accesses == if r.answer.Found? then old(accesses) + [key] else old(accesses);
      assert Invariant(View(), capacity, accesses);
    }

    /** The hit path: move the key to the front, count the visit, and hand the count to the coherer when it is due. */
    method ResolveHit(key: string, cohereOk: bool) returns (answer: Answer<T>, calls: seq<Call<T>>)
      requires Coherent(View()) && key in backingMap
      modifies this
      ensures Reply(View(), answer, calls) == HitStep(old(View()), cohereInterval, key, cohereOk)
      ensures accesses == old(accesses) + [key]
    {
      lruList := MoveToFront(lruList, key);
      var page := backingMap[key];
      page := page.(hits := page.hits + 1);
      calls := [];
      if page.hits >= cohereInterval {
        calls := [Cohere(page.value, page.hits)];
        if cohereOk {
          page := page.(hits := 0);
        }
      }
      backingMap := backingMap[key := page];
      answer := Found(page.value);
      accesses := accesses + [key];
    }

    /** The miss path: evict the back page when full, ask the resolver, and insert its answer at the front. */
    method ResolveMiss(key: string, resolved: Option<T>) returns (answer: Answer<T>, calls: seq<Call<T>>)
      requires Coherent(View()) && key !in backingMap
      modifies this
      ensures Reply(View(), answer, calls) == MissStep(old(View()), capacity, key, resolved)
      ensures accesses == old(accesses) + (if answer.Found? then [key] else [])
    {
      calls := [];
      if |backingMap| >= capacity {
        if |lruList| > 0 {
          var oldest := backingMap[lruList[|lruList| - 1]];
          calls := [Cohere(oldest.value, oldest.hits)];
          backingMap := backingMap - {oldest.key};
          lruList := lruList[..|lruList| - 1];
        }
      }

      calls := calls + [ResolveKey(key)];
      if resolved.None? {
        answer := FailedToResolve(key);
        return;
      }

      backingMap := backingMap[key := Page(key, resolved.value, 1)];
      lruList := [key] + lruList;
      answer := Found(resolved.value);
      accesses := accesses + [key];
    }
  }
}
