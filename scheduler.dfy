/**
 * The browser's download scheduler (public/app.js): a queue of download items
 * ordered by one of three policies, and a counting semaphore that bounds how
 * many of them run at once. Both are page globals that call each other: the
 * queue acquires a slot before it starts an item, and every release of a
 * slot asks the queue to start the next waiting item.
 *
 * The operations are specified by functions on `Sched`, the value of both
 * objects together; the classes' methods are proved equal to them, and the
 * lemmas below state what the functions keep true: the slot count never goes
 * negative, never passes the limit, and equals the number of running items.
 */
module Scheduler {
  import opened Common

  /** A queue item's id (the source draws `Date.now() + Math.random()`). */
  type QueueId = int

  datatype Status = Waiting | Running | Completed

  datatype QueueItem = QueueItem(
    id: QueueId,
    fileInfo: FileRecord,
    priority: int,
    size: int,
    arrivalTime: int,
    startTime: Option<int>,
    endTime: Option<int>,
    status: Status)

  /** The download queue and the semaphore, as one value. */
  datatype Sched = Sched(
    queue: seq<QueueItem>,
    activeDownloads: set<QueueId>,
    completedDownloads: seq<QueueItem>,
    algorithm: string,
    maxConcurrent: int,
    currentCount: int)

  /** The semaphore constructor's default limit. */
  const DefaultMaxConcurrent := 999999
  /** The limit of the page's own semaphore. */
  const PageMaxConcurrent := 3
  /** Items queued with at least this priority go to the front. */
  const UrgentPriority := 10
  /** `addToQueue`'s default priority. */
  const DefaultPriority := 1

  // ------------------------------------------------------- queue lookups

  /** `find` / `findIndex`: the index of the first element passing the test. */
  function FindFirst<T>(s: seq<T>, test: T -> bool): (r: Option<nat>)
    ensures r.Some? ==> r.value < |s| && test(s[r.value])
    ensures r.Some? ==> forall j :: 0 <= j < r.value ==> !test(s[j])
    ensures r.None? ==> forall j :: 0 <= j < |s| ==> !test(s[j])
  {
    if s == [] then None
    else if test(s[0]) then Some(0)
    else match FindFirst(s[1..], test)
      case None => None
      case Some(k) => Some(k + 1)
  }

  /** `queue.find(q => q.id === qid)`, as an index. */
  function FindId(queue: seq<QueueItem>, qid: QueueId): (r: Option<nat>)
    ensures r.Some? ==> r.value < |queue| && queue[r.value].id == qid
    ensures r.Some? ==> forall j :: 0 <= j < r.value ==> queue[j].id != qid
    ensures r.None? ==> forall j :: 0 <= j < |queue| ==> queue[j].id != qid
  {
    FindFirst(queue, (x: QueueItem) => x.id == qid)
  }

  /** With unique ids, looking up the id of item `k` finds `k`. */
  lemma FindIdUnique(queue: seq<QueueItem>, k: nat)
    requires UniqueIds(queue) && k < |queue|
    ensures FindId(queue, queue[k].id) == Some(k)
  {
    var found := FindId(queue, queue[k].id);
    assert found.Some?;
    assert found.value <= k;
    assert queue[found.value].id == queue[k].id;
  }

  /** `getNext`: the first waiting item, as an index. */
  function FirstWaiting(queue: seq<QueueItem>): (r: Option<nat>)
    ensures r.Some? ==> r.value < |queue| && queue[r.value].status == Waiting
    ensures r.Some? ==> forall j :: 0 <= j < r.value ==> queue[j].status != Waiting
    ensures r.None? ==> forall j :: 0 <= j < |queue| ==> queue[j].status != Waiting
  {
    FindFirst(queue, (x: QueueItem) => x.status == Waiting)
  }

  /** `queue.filter(q => q.id !== qid)`. */
  function Drop(queue: seq<QueueItem>, qid: QueueId): (r: seq<QueueItem>)
    ensures forall x :: x in r <==> x in queue && x.id != qid
    ensures |r| <= |queue|
  {
    if queue == [] then []
    else (if queue[0].id == qid then [] else [queue[0]]) + Drop(queue[1..], qid)
  }

  /** How many items of the queue are running. */
  function RunningCount(queue: seq<QueueItem>): nat {
    if queue == [] then 0
    else (if queue[0].status == Running then 1 else 0) + RunningCount(queue[1..])
  }

  predicate UniqueIds(queue: seq<QueueItem>) {
    forall i, j :: 0 <= i < j < |queue| ==> queue[i].id != queue[j].id
  }

  /** The slot count lies between zero and the limit. */
  predicate Bounded(s: Sched) {
    0 <= s.currentCount <= s.maxConcurrent
  }

  /** Every held slot belongs to exactly one running item of the queue. */
  predicate Accounted(s: Sched) {
    s.currentCount == RunningCount(s.queue)
  }

  /**
   * Every held slot belongs either to a running item of the queue or to one
   * of `detached` downloads whose item was dropped from the queue while its
   * transfer went on: `performDownload` does not stop when its item leaves
   * the queue, and gives its slot back when it ends.
   */
  predicate Balanced(s: Sched, detached: nat) {
    s.currentCount == RunningCount(s.queue) + detached
  }

  /** `b` is `a` with some of its waiting items started at `now`, and nothing else changed. */
  predicate Advanced(a: seq<QueueItem>, b: seq<QueueItem>, now: int) {
    && |a| == |b|
    && forall j :: 0 <= j < |a| ==>
         b[j] == a[j] || (a[j].status == Waiting && b[j] == a[j].(status := Running, startTime := Some(now)))
  }

  // ------------------------------------------------------- operations

  /** The item `addToQueue` builds: waiting, sized by the file, arriving now. */
  function NewItem(qid: QueueId, fileInfo: FileRecord, priority: int, now: int): QueueItem {
    QueueItem(qid, fileInfo, priority, fileInfo.size, now, None, None, Waiting)
  }

  /** `addToQueue`'s placement: urgent items at the front, the rest at the back. */
  function Enqueue(queue: seq<QueueItem>, item: QueueItem): seq<QueueItem> {
    if item.priority >= UrgentPriority then [item] + queue else queue + [item]
  }

  /** `startDownload`'s new queue: the item with that id is running since `now`. */
  function Started(queue: seq<QueueItem>, qid: QueueId, now: int): seq<QueueItem> {
    match FindId(queue, qid)
    case None => queue
    case Some(k) => queue[k := queue[k].(status := Running, startTime := Some(now))]
  }

  function StartDownload(s: Sched, qid: QueueId, now: int): Sched {
    if FindId(s.queue, qid).Some? then
      s.(queue := Started(s.queue, qid, now), activeDownloads := s.activeDownloads + {qid})
    else s
  }

  predicate CanAcquire(s: Sched) {
    s.currentCount < s.maxConcurrent
  }

  /**
   * `processNextInQueue`: with a free slot and a waiting item, take the slot
   * and start the first waiting item (`downloadFileFromQueue` marks it
   * running before its first `await`).
   */
  function ProcessNext(s: Sched, now: int): Sched {
    if CanAcquire(s) && |s.queue| > 0 && FirstWaiting(s.queue).Some? then
      StartDownload(s.(currentCount := s.currentCount + 1), s.queue[FirstWaiting(s.queue).value].id, now)
    else s
  }

  /** `release`: give a slot back, if one is held, and start the next item. */
  function Released(s: Sched, now: int): Sched {
    if s.currentCount > 0 then ProcessNext(s.(currentCount := s.currentCount - 1), now) else s
  }

  /**
   * `completeDownload`: the item moves, marked completed, from the queue to
   * the completed list; then the queue is asked to start the next item. The
   * slot is not given back here: every caller releases it afterwards.
   */
  function Complete(s: Sched, qid: QueueId, now: int): Sched {
    match FindId(s.queue, qid)
    case None => s
    case Some(k) =>
      ProcessNext(s.(queue := Drop(s.queue, qid),
                     activeDownloads := s.activeDownloads - {qid},
                     completedDownloads := s.completedDownloads + [s.queue[k].(status := Completed, endTime := Some(now))]),
                  now)
  }

  // ------------------------------------------------------- ordering

  predicate KnownAlgorithm(algorithm: string) {
    algorithm == "FCFS" || algorithm == "SJF" || algorithm == "Priority"
  }

  /** The sort key of each policy: arrival time, size, or priority (highest first). */
  function Key(algorithm: string, item: QueueItem): int {
    if algorithm == "FCFS" then item.arrivalTime
    else if algorithm == "SJF" then item.size
    else -item.priority
  }

  predicate SortedBy(algorithm: string, queue: seq<QueueItem>) {
    forall i, j :: 0 <= i < j < |queue| ==> Key(algorithm, queue[i]) <= Key(algorithm, queue[j])
  }

  /** How many leading elements of `sorted` have a key not greater than `item`'s. */
  function InsertPos(algorithm: string, item: QueueItem, sorted: seq<QueueItem>): (p: nat)
    ensures p <= |sorted|
    ensures forall j :: 0 <= j < p ==> Key(algorithm, sorted[j]) <= Key(algorithm, item)
    ensures p < |sorted| ==> Key(algorithm, item) < Key(algorithm, sorted[p])
  {
    if sorted == [] || Key(algorithm, item) < Key(algorithm, sorted[0]) then 0
    else 1 + InsertPos(algorithm, item, sorted[1..])
  }

  /** Places `item` after every element whose key is not greater than its own. */
  function Insert(algorithm: string, item: QueueItem, sorted: seq<QueueItem>): (r: seq<QueueItem>)
    requires SortedBy(algorithm, sorted)
    ensures SortedBy(algorithm, r)
    ensures multiset(r) == multiset(sorted) + multiset{item}
    ensures RunningCount(r) == RunningCount(sorted) + (if item.status == Running then 1 else 0)
  {
    var p := InsertPos(algorithm, item, sorted);
    assert sorted == sorted[..p] + sorted[p..];
    InsertSorted(algorithm, item, sorted, p);
    RunningCountSplit(sorted[..p], sorted[p..]);
    RunningCountSplit(sorted[..p] + [item], sorted[p..]);
    RunningCountSplit(sorted[..p], [item]);
    sorted[..p] + [item] + sorted[p..]
  }

  /**
   * `Array.prototype.sort` with the policy's comparator, here an insertion
   * sort that takes the elements in their queue order; it is stable (`SortByStable`).
   */
  function SortBy(algorithm: string, queue: seq<QueueItem>): (r: seq<QueueItem>)
    ensures SortedBy(algorithm, r)
    ensures multiset(r) == multiset(queue)
    ensures RunningCount(r) == RunningCount(queue)
  {
    if queue == [] then []
    else
      var last := |queue| - 1;
      RunningCountSplit(queue[..last], [queue[last]]);
      assert queue[..last] + [queue[last]] == queue;
      Insert(algorithm, queue[last], SortBy(algorithm, queue[..last]))
  }

  /** `sortQueue`: the three named policies sort; any other name leaves the order alone. */
  function QueueOrder(algorithm: string, queue: seq<QueueItem>): seq<QueueItem> {
    if KnownAlgorithm(algorithm) then SortBy(algorithm, queue) else queue
  }

  // ------------------------------------------------------- counting lemmas

  lemma {:induction false} RunningCountSplit(a: seq<QueueItem>, b: seq<QueueItem>)
    ensures RunningCount(a + b) == RunningCount(a) + RunningCount(b)
  {
    if a != [] {
      assert (a + b)[0] == a[0];
      assert (a + b)[1..] == a[1..] + b;
      RunningCountSplit(a[1..], b);
    } else {
      assert a + b == b;
    }
  }

  /** Replacing one item changes the running count by the change in that item's status. */
  lemma {:induction false} RunningCountUpdate(queue: seq<QueueItem>, k: nat, item: QueueItem)
    requires k < |queue|
    ensures RunningCount(queue[k := item]) ==
            RunningCount(queue) - (if queue[k].status == Running then 1 else 0) + (if item.status == Running then 1 else 0)
  {
    if k > 0 {
      assert queue[k := item][1..] == queue[1..][k - 1 := item];
      RunningCountUpdate(queue[1..], k - 1, item);
    }
  }

  /** Removing the one item with a given id takes that item's status out of the count. */
  lemma {:induction false} RunningCountDrop(queue: seq<QueueItem>, k: nat)
    requires k < |queue| && UniqueIds(queue)
    ensures RunningCount(Drop(queue, queue[k].id)) == RunningCount(queue) - (if queue[k].status == Running then 1 else 0)
  {
    var qid := queue[k].id;
    if k == 0 {
      assert forall j :: 0 <= j < |queue[1..]| ==> queue[1..][j].id == queue[j + 1].id;
      DropAbsent(queue[1..], qid);
      assert Drop(queue, qid) == [] + queue[1..] == queue[1..];
      assert RunningCount(queue) == (if queue[0].status == Running then 1 else 0) + RunningCount(queue[1..]);
    } else {
      assert UniqueIds(queue[1..]) && queue[1..][k - 1] == queue[k];
      RunningCountDrop(queue[1..], k - 1);
      var rest := Drop(queue[1..], qid);
      assert Drop(queue, qid) == [queue[0]] + rest;
      assert ([queue[0]] + rest)[1..] == rest;
    }
  }

  lemma {:induction false} DropAbsent(queue: seq<QueueItem>, qid: QueueId)
    requires forall j :: 0 <= j < |queue| ==> queue[j].id != qid
    ensures Drop(queue, qid) == queue
  {
    if queue != [] {
      DropAbsent(queue[1..], qid);
    }
  }

  lemma {:induction false} UniqueDrop(queue: seq<QueueItem>, qid: QueueId)
    requires UniqueIds(queue)
    ensures UniqueIds(Drop(queue, qid))
  {
    if queue != [] {
      assert UniqueIds(queue[1..]);
      UniqueDrop(queue[1..], qid);
      var rest := Drop(queue[1..], qid);
      forall x | x in rest ensures x.id != queue[0].id {
        var j :| 0 <= j < |queue[1..]| && queue[1..][j] == x;
        assert queue[j + 1] == x;
      }
    }
  }

  // ------------------------------------------------------- effects

  /**
   * `processNextInQueue` either changes nothing, or takes one slot and turns
   * the first waiting item, and no other, into a running one started now.
   */
  lemma ProcessNextEffects(s: Sched, now: int)
    requires UniqueIds(s.queue)
    ensures var t := ProcessNext(s, now);
            && t.maxConcurrent == s.maxConcurrent && t.algorithm == s.algorithm
            && t.completedDownloads == s.completedDownloads
            && |t.queue| == |s.queue|
            && (forall j :: 0 <= j < |s.queue| ==> t.queue[j].id == s.queue[j].id && t.queue[j].fileInfo == s.queue[j].fileInfo)
            && Advanced(s.queue, t.queue, now)
            && if CanAcquire(s) && FirstWaiting(s.queue).Some? then
                 var k := FirstWaiting(s.queue).value;
                 && t.currentCount == s.currentCount + 1
                 && t.queue == s.queue[k := s.queue[k].(status := Running, startTime := Some(now))]
                 && t.activeDownloads == s.activeDownloads + {s.queue[k].id}
                 && RunningCount(t.queue) == RunningCount(s.queue) + 1
               else t == s
  {
    if CanAcquire(s) && FirstWaiting(s.queue).Some? {
      var k := FirstWaiting(s.queue).value;
      FindIdUnique(s.queue, k);
      RunningCountUpdate(s.queue, k, s.queue[k].(status := Running, startTime := Some(now)));
    }
  }

  /** Starting the next item keeps slot and running count equal, the count within the limit, and ids unique. */
  lemma ProcessNextKeeps(s: Sched, now: int)
    requires UniqueIds(s.queue)
    ensures var t := ProcessNext(s, now);
            && UniqueIds(t.queue)
            && t.currentCount - RunningCount(t.queue) == s.currentCount - RunningCount(s.queue)
            && (Accounted(s) ==> Accounted(t))
            && (Bounded(s) ==> Bounded(t))
  {
    ProcessNextEffects(s, now);
  }

  /** Starting the next item keeps an id that is absent from the queue absent. */
  lemma ProcessNextAbsent(s: Sched, qid: QueueId, now: int)
    requires UniqueIds(s.queue) && forall x :: x in s.queue ==> x.id != qid
    ensures forall x :: x in ProcessNext(s, now).queue ==> x.id != qid
  {
    ProcessNextEffects(s, now);
    var t := ProcessNext(s, now);
    forall x | x in t.queue ensures x.id != qid {
      var j :| 0 <= j < |t.queue| && t.queue[j] == x;
      assert s.queue[j] in s.queue;
    }
  }

  /** `release` never takes the count below zero and keeps it within the limit. */
  lemma ReleaseKeeps(s: Sched, now: int)
    requires UniqueIds(s.queue)
    ensures var t := Released(s, now);
            && UniqueIds(t.queue)
            && (s.currentCount >= 0 ==> t.currentCount >= 0)
            && (Bounded(s) ==> Bounded(t))
            && (s.currentCount > 0 ==> t.currentCount <= s.currentCount)
  {
    if s.currentCount > 0 {
      ProcessNextEffects(s.(currentCount := s.currentCount - 1), now);
    }
  }

  /** A fresh waiting item leaves the count alone and the ids unique. */
  lemma EnqueueKeeps(s: Sched, qid: QueueId, fileInfo: FileRecord, priority: int, now: int)
    requires UniqueIds(s.queue) && forall x :: x in s.queue ==> x.id != qid
    ensures var t := s.(queue := Enqueue(s.queue, NewItem(qid, fileInfo, priority, now)));
            && UniqueIds(t.queue) && (Accounted(s) ==> Accounted(t))
            && t.queue[if priority >= UrgentPriority then 0 else |s.queue|] == NewItem(qid, fileInfo, priority, now)
  {
    var item := NewItem(qid, fileInfo, priority, now);
    if priority >= UrgentPriority {
      RunningCountSplit([item], s.queue);
    } else {
      RunningCountSplit(s.queue, [item]);
    }
  }

  // ------------------------------------------------------- ordering lemmas

  /** Sorting keeps the ids unique. */
  lemma {:induction false} SortByUnique(algorithm: string, queue: seq<QueueItem>)
    requires UniqueIds(queue)
    ensures UniqueIds(SortBy(algorithm, queue))
  {
    if queue != [] {
      var last := |queue| - 1;
      var init := queue[..last];
      assert UniqueIds(init);
      SortByUnique(algorithm, init);
      SortByAbsent(algorithm, init, queue[last].id);
      InsertUnique(algorithm, queue[last], SortBy(algorithm, init));
    }
  }

  lemma SortByAbsent(algorithm: string, queue: seq<QueueItem>, qid: QueueId)
    requires forall j :: 0 <= j < |queue| ==> queue[j].id != qid
    ensures forall x :: x in SortBy(algorithm, queue) ==> x.id != qid
  {
    forall x | x in SortBy(algorithm, queue) ensures x.id != qid {
      assert x in multiset(SortBy(algorithm, queue));
      assert x in queue;
    }
  }

  /** Position k of the queue with `item` inserted at `p`. */
  lemma InsertIndex(sorted: seq<QueueItem>, p: nat, item: QueueItem, k: nat)
    requires p <= |sorted| && k <= |sorted|
    ensures (sorted[..p] + [item] + sorted[p..])[k] == if k < p then sorted[k] else if k == p then item else sorted[k - 1]
  {
  }

  lemma InsertSorted(algorithm: string, item: QueueItem, sorted: seq<QueueItem>, p: nat)
    requires SortedBy(algorithm, sorted) && p == InsertPos(algorithm, item, sorted)
    ensures SortedBy(algorithm, sorted[..p] + [item] + sorted[p..])
  {
    var r := sorted[..p] + [item] + sorted[p..];
    forall i, j | 0 <= i < j < |r| ensures Key(algorithm, r[i]) <= Key(algorithm, r[j]) {
      InsertIndex(sorted, p, item, i);
      InsertIndex(sorted, p, item, j);
      if i == p {
        assert Key(algorithm, item) < Key(algorithm, sorted[p]);
        assert Key(algorithm, sorted[p]) <= Key(algorithm, sorted[j - 1]);
      } else if j != p && i > p {
        assert i - 1 < j - 1;
      }
    }
  }

  lemma InsertUnique(algorithm: string, item: QueueItem, sorted: seq<QueueItem>)
    requires SortedBy(algorithm, sorted) && UniqueIds(sorted)
    requires forall x :: x in sorted ==> x.id != item.id
    ensures UniqueIds(Insert(algorithm, item, sorted))
  {
    var p := InsertPos(algorithm, item, sorted);
    var r := sorted[..p] + [item] + sorted[p..];
    assert Insert(algorithm, item, sorted) == r;
    forall i, j | 0 <= i < j < |r| ensures r[i].id != r[j].id {
      InsertIndex(sorted, p, item, i);
      InsertIndex(sorted, p, item, j);
      if i == p {
        assert sorted[j - 1] in sorted;
      } else if j == p {
        assert sorted[i] in sorted;
      }
    }
  }

  /**
   * `sortQueue` only reorders: the result is a permutation of the queue,
   * ordered by the policy's key, with the same running items and unique ids;
   * so the semaphore's accounting survives a policy change.
   */
  lemma SortQueueKeeps(s: Sched)
    requires UniqueIds(s.queue)
    ensures var q := QueueOrder(s.algorithm, s.queue);
            && multiset(q) == multiset(s.queue)
            && (KnownAlgorithm(s.algorithm) ==> SortedBy(s.algorithm, q))
            && (!KnownAlgorithm(s.algorithm) ==> q == s.queue)
            && UniqueIds(q)
            && (Accounted(s) ==> Accounted(s.(queue := q)))
  {
    if KnownAlgorithm(s.algorithm) {
      SortByUnique(s.algorithm, s.queue);
    }
  }

  /** The policy's key strictly increases along the queue. */
  predicate StrictlySortedBy(algorithm: string, queue: seq<QueueItem>) {
    forall i, j :: 0 <= i < j < |queue| ==> Key(algorithm, queue[i]) < Key(algorithm, queue[j])
  }

  /** A queue already strictly ordered by the policy's key is left as it is. */
  lemma {:induction false} SortByStrictlySorted(algorithm: string, queue: seq<QueueItem>)
    requires StrictlySortedBy(algorithm, queue)
    ensures SortBy(algorithm, queue) == queue
  {
    if queue != [] {
      var last := |queue| - 1;
      var init := queue[..last];
      StrictPrefix(algorithm, queue);
      SortByStrictlySorted(algorithm, init);
      InsertGreatest(algorithm, queue[last], init);
      SortByLast(algorithm, queue);
      InitLast(queue);
    }
  }

  /** The items of the queue whose key under the policy is `k`, in queue order. */
  function WithKey(algorithm: string, k: int, queue: seq<QueueItem>): seq<QueueItem> {
    if queue == [] then []
    else (if Key(algorithm, queue[0]) == k then [queue[0]] else []) + WithKey(algorithm, k, queue[1..])
  }

  /**
   * The sort is stable: for every key, the items with that key come out in
   * the order they had in the queue.
   */
  lemma {:induction false} SortByStable(algorithm: string, queue: seq<QueueItem>, k: int)
    ensures WithKey(algorithm, k, SortBy(algorithm, queue)) == WithKey(algorithm, k, queue)
  {
    if queue != [] {
      var last := |queue| - 1;
      var init := queue[..last];
      SortByLast(algorithm, queue);
      InitLast(queue);
      SortByStable(algorithm, init, k);
      InsertKeepsClass(algorithm, queue[last], SortBy(algorithm, init), k);
      WithKeyAppend(algorithm, k, init, [queue[last]]);
    }
  }

  /** Inserting an item puts it after every item of its own key. */
  lemma InsertKeepsClass(algorithm: string, item: QueueItem, sorted: seq<QueueItem>, k: int)
    requires SortedBy(algorithm, sorted)
    ensures WithKey(algorithm, k, Insert(algorithm, item, sorted))
            == WithKey(algorithm, k, sorted) + if Key(algorithm, item) == k then [item] else []
  {
    var p := InsertPos(algorithm, item, sorted);
    InsertSplit(algorithm, item, sorted);
    if Key(algorithm, item) == k {
      AboveInsertPos(algorithm, item, sorted);
    }
    WithKeyAround(algorithm, k, sorted[..p], item, sorted[p..]);
  }

  /** Filtering with an item in the middle, when nothing after it has its key if it has `k`. */
  lemma WithKeyAround(algorithm: string, k: int, before: seq<QueueItem>, item: QueueItem, after: seq<QueueItem>)
    requires Key(algorithm, item) == k ==> WithKey(algorithm, k, after) == []
    ensures WithKey(algorithm, k, before + [item] + after)
            == WithKey(algorithm, k, before + after) + if Key(algorithm, item) == k then [item] else []
  {
    WithKeyAppend(algorithm, k, before + [item], after);
    WithKeyAppend(algorithm, k, before, [item]);
    WithKeyAppend(algorithm, k, before, after);
    assert [item][1..] == [];
  }

  lemma {:induction false} WithKeyAppend(algorithm: string, k: int, a: seq<QueueItem>, b: seq<QueueItem>)
    ensures WithKey(algorithm, k, a + b) == WithKey(algorithm, k, a) + WithKey(algorithm, k, b)
  {
    if a == [] {
      assert a + b == b;
    } else {
      assert (a + b)[0] == a[0];
      assert (a + b)[1..] == a[1..] + b;
      WithKeyAppend(algorithm, k, a[1..], b);
    }
  }

  lemma {:induction false} WithKeyNone(algorithm: string, k: int, a: seq<QueueItem>)
    requires forall j :: 0 <= j < |a| ==> Key(algorithm, a[j]) != k
    ensures WithKey(algorithm, k, a) == []
  {
    if a != [] {
      WithKeyNone(algorithm, k, a[1..]);
    }
  }

  /** `Insert` splits the sorted queue at the insertion point. */
  lemma InsertSplit(algorithm: string, item: QueueItem, sorted: seq<QueueItem>)
    requires SortedBy(algorithm, sorted)
    ensures var p := InsertPos(algorithm, item, sorted);
            && Insert(algorithm, item, sorted) == sorted[..p] + [item] + sorted[p..]
            && sorted == sorted[..p] + sorted[p..]
  {
  }

  /** No item from the insertion point on has the inserted item's key. */
  lemma AboveInsertPos(algorithm: string, item: QueueItem, sorted: seq<QueueItem>)
    requires SortedBy(algorithm, sorted)
    ensures WithKey(algorithm, Key(algorithm, item), sorted[InsertPos(algorithm, item, sorted)..]) == []
  {
    var p := InsertPos(algorithm, item, sorted);
    var after := sorted[p..];
    forall j | 0 <= j < |after| ensures Key(algorithm, after[j]) != Key(algorithm, item) {
      assert after[j] == sorted[p + j];
      assert Key(algorithm, sorted[p]) <= Key(algorithm, sorted[p + j]);
    }
    WithKeyNone(algorithm, Key(algorithm, item), after);
  }

  /** `SortBy` inserts the last item into the sorted rest. */
  lemma SortByLast(algorithm: string, queue: seq<QueueItem>)
    requires queue != []
    ensures SortBy(algorithm, queue) == Insert(algorithm, queue[|queue| - 1], SortBy(algorithm, queue[..|queue| - 1]))
  {
  }

  lemma InitLast(queue: seq<QueueItem>)
    requires queue != []
    ensures queue[..|queue| - 1] + [queue[|queue| - 1]] == queue
  {
  }

  /** Dropping the last item of a strictly ordered queue leaves one whose items all lie below that last one. */
  lemma StrictPrefix(algorithm: string, queue: seq<QueueItem>)
    requires StrictlySortedBy(algorithm, queue) && queue != []
    ensures StrictlySortedBy(algorithm, queue[..|queue| - 1]) && SortedBy(algorithm, queue[..|queue| - 1])
    ensures forall x :: x in queue[..|queue| - 1] ==> Key(algorithm, x) <= Key(algorithm, queue[|queue| - 1])
  {
    var init := queue[..|queue| - 1];
    forall x | x in init ensures Key(algorithm, x) <= Key(algorithm, queue[|queue| - 1]) {
      var i :| 0 <= i < |init| && init[i] == x;
      assert init[i] == queue[i];
    }
  }

  lemma {:induction false} InsertGreatest(algorithm: string, item: QueueItem, sorted: seq<QueueItem>)
    requires SortedBy(algorithm, sorted)
    requires forall x :: x in sorted ==> Key(algorithm, x) <= Key(algorithm, item)
    ensures Insert(algorithm, item, sorted) == sorted + [item]
  {
    if sorted != [] {
      assert sorted[0] in sorted;
      InsertGreatest(algorithm, item, sorted[1..]);
    }
  }

  // ------------------------------------------------------- releases in bulk

  /** `n` successive calls of `release`. */
  function ReleaseTimes(s: Sched, n: nat, now: int): Sched
    decreases n
  {
    if n == 0 then s else ReleaseTimes(Released(s, now), n - 1, now)
  }

  /** `release` changes neither the queue's length nor its items' ids and files. */
  lemma ReleasedShape(s: Sched, now: int)
    ensures var t := Released(s, now);
            && |t.queue| == |s.queue|
            && (forall j :: 0 <= j < |s.queue| ==> t.queue[j].id == s.queue[j].id && t.queue[j].fileInfo == s.queue[j].fileInfo)
  {
  }

  /** Repeated releases change neither the queue's length nor its items' ids and files. */
  lemma {:induction false} ReleaseTimesShape(s: Sched, n: nat, now: int)
    ensures var t := ReleaseTimes(s, n, now);
            && |t.queue| == |s.queue|
            && (forall j :: 0 <= j < |s.queue| ==> t.queue[j].id == s.queue[j].id && t.queue[j].fileInfo == s.queue[j].fileInfo)
    decreases n
  {
    if n > 0 {
      ReleasedShape(s, now);
      ReleaseTimesShape(Released(s, now), n - 1, now);
    }
  }

  /**
   * Releasing once per slot that neither a running item nor a detached
   * download holds brings the count back to those two, however many items
   * the releases start on the way; the releases only start waiting items.
   */
  lemma {:induction false} ReleaseTimesKeeps(s: Sched, detached: nat, n: nat, now: int)
    requires UniqueIds(s.queue) && Bounded(s)
    requires s.currentCount == RunningCount(s.queue) + detached + n
    ensures var t := ReleaseTimes(s, n, now);
            && Balanced(t, detached) && Bounded(t) && UniqueIds(t.queue)
            && Advanced(s.queue, t.queue, now)
    decreases n
  {
    if n > 0 {
      var s1 := s.(currentCount := s.currentCount - 1);
      ProcessNextEffects(s1, now);
      ReleaseTimesKeeps(Released(s, now), detached, n - 1, now);
      AdvancedTrans(s.queue, Released(s, now).queue, ReleaseTimes(s, n, now).queue, now);
    }
  }

  /** `queue.filter(keep)`. */
  function Keep(queue: seq<QueueItem>, keep: QueueItem -> bool): (r: seq<QueueItem>)
    ensures forall x :: x in r <==> x in queue && keep(x)
    ensures |r| <= |queue|
  {
    if queue == [] then []
    else (if keep(queue[0]) then [queue[0]] else []) + Keep(queue[1..], keep)
  }

  /** The complement of a filter's test. */
  function Rejected(keep: QueueItem -> bool): QueueItem -> bool {
    x => !keep(x)
  }

  /** The running items of a queue split between the kept part and the rest. */
  lemma {:induction false} KeepSplitsCount(queue: seq<QueueItem>, keep: QueueItem -> bool)
    ensures RunningCount(queue) == RunningCount(Keep(queue, keep)) + RunningCount(Keep(queue, Rejected(keep)))
  {
    if queue != [] {
      KeepSplitsCount(queue[1..], keep);
      var head := if queue[0].status == Running then 1 else 0;
      var kept := Keep(queue[1..], keep);
      var dropped := Keep(queue[1..], Rejected(keep));
      if keep(queue[0]) {
        assert Keep(queue, keep) == [queue[0]] + kept;
        assert ([queue[0]] + kept)[1..] == kept;
        assert Keep(queue, Rejected(keep)) == dropped;
      } else {
        assert Keep(queue, Rejected(keep)) == [queue[0]] + dropped;
        assert ([queue[0]] + dropped)[1..] == dropped;
        assert Keep(queue, keep) == kept;
      }
    }
  }

  lemma {:induction false} KeepUnique(queue: seq<QueueItem>, keep: QueueItem -> bool)
    requires UniqueIds(queue)
    ensures UniqueIds(Keep(queue, keep))
  {
    if queue != [] {
      assert UniqueIds(queue[1..]);
      KeepUnique(queue[1..], keep);
      var rest := Keep(queue[1..], keep);
      forall x | x in rest ensures x.id != queue[0].id {
        var j :| 0 <= j < |queue[1..]| && queue[1..][j] == x;
        assert queue[j + 1] == x;
      }
    }
  }

  // ------------------------------------------------------- download ends

  lemma AdvancedTrans(a: seq<QueueItem>, b: seq<QueueItem>, c: seq<QueueItem>, now: int)
    requires Advanced(a, b, now) && Advanced(b, c, now)
    ensures Advanced(a, c, now)
  {
    forall j | 0 <= j < |a|
      ensures c[j] == a[j] || (a[j].status == Waiting && c[j] == a[j].(status := Running, startTime := Some(now)))
    {
      if b[j] != a[j] {
        assert b[j].status == Running;
      }
    }
  }

  /** Starting items keeps every id and file where it was and never lowers the running count. */
  lemma {:induction false} AdvancedCount(a: seq<QueueItem>, b: seq<QueueItem>, now: int)
    requires Advanced(a, b, now)
    ensures RunningCount(b) >= RunningCount(a)
    ensures forall j :: 0 <= j < |a| ==> b[j].id == a[j].id && b[j].fileInfo == a[j].fileInfo
  {
    if a != [] {
      assert Advanced(a[1..], b[1..], now) by {
        forall j | 0 <= j < |a[1..]| ensures b[1..][j] == b[j + 1] && a[1..][j] == a[j + 1] { }
      }
      AdvancedCount(a[1..], b[1..], now);
    }
  }

  /** The relation holds item by item, so it holds of the tails. */
  lemma AdvancedTail(a: seq<QueueItem>, b: seq<QueueItem>, now: int)
    requires Advanced(a, b, now) && a != []
    ensures Advanced(a[1..], b[1..], now)
    ensures b[0] == a[0] || (a[0].status == Waiting && b[0] == a[0].(status := Running, startTime := Some(now)))
  {
    forall j | 0 <= j < |a[1..]| ensures b[1..][j] == b[j + 1] && a[1..][j] == a[j + 1] { }
  }

  /** Putting related items in front keeps the relation. */
  lemma AdvancedCons(x: QueueItem, y: QueueItem, a: seq<QueueItem>, b: seq<QueueItem>, now: int)
    requires Advanced(a, b, now)
    requires y == x || (x.status == Waiting && y == x.(status := Running, startTime := Some(now)))
    ensures Advanced([x] + a, [y] + b, now)
  {
    forall j | 0 <= j < |a| ensures ([y] + b)[j + 1] == b[j] && ([x] + a)[j + 1] == a[j] { }
  }

  /** One step of `Drop`. */
  lemma DropCons(a: seq<QueueItem>, qid: QueueId)
    requires a != []
    ensures Drop(a, qid) == if a[0].id == qid then Drop(a[1..], qid) else [a[0]] + Drop(a[1..], qid)
  {
  }

  /** Dropping one id from both sides keeps the relation. */
  lemma {:induction false} DropAdvanced(a: seq<QueueItem>, b: seq<QueueItem>, qid: QueueId, now: int)
    requires Advanced(a, b, now)
    ensures Advanced(Drop(a, qid), Drop(b, qid), now)
  {
    if a != [] {
      AdvancedTail(a, b, now);
      DropAdvanced(a[1..], b[1..], qid, now);
      DropCons(a, qid);
      DropCons(b, qid);
      if a[0].id != qid {
        AdvancedCons(a[0], b[0], Drop(a[1..], qid), Drop(b[1..], qid), now);
      }
    }
  }

  /** Item ids stay where they were, so they stay unique. */
  lemma AdvancedUnique(a: seq<QueueItem>, b: seq<QueueItem>, now: int)
    requires Advanced(a, b, now) && UniqueIds(a)
    ensures UniqueIds(b)
  {
    forall i, j | 0 <= i < j < |b| ensures b[i].id != b[j].id {
      assert b[i].id == a[i].id && b[j].id == a[j].id;
    }
  }

  /** `release` only starts waiting items. */
  lemma ReleasedAdvanced(s: Sched, now: int)
    requires UniqueIds(s.queue)
    ensures Advanced(s.queue, Released(s, now).queue, now) && UniqueIds(Released(s, now).queue)
  {
    if s.currentCount > 0 {
      ProcessNextEffects(s.(currentCount := s.currentCount - 1), now);
      ProcessNextKeeps(s.(currentCount := s.currentCount - 1), now);
    }
  }

  /** Repeated releases only start waiting items. */
  lemma {:induction false} ReleaseTimesAdvanced(s: Sched, n: nat, now: int)
    requires UniqueIds(s.queue)
    ensures Advanced(s.queue, ReleaseTimes(s, n, now).queue, now) && UniqueIds(ReleaseTimes(s, n, now).queue)
    decreases n
  {
    if n > 0 {
      ReleasedAdvanced(s, now);
      ReleaseTimesAdvanced(Released(s, now), n - 1, now);
      AdvancedTrans(s.queue, Released(s, now).queue, ReleaseTimes(s, n, now).queue, now);
    }
  }

  /**
   * The end of a download, as every end path of `performDownload` and
   * `downloadFileFromQueue` writes it (the file received, the sender's error
   * reply, a channel error, an exception, the 30-minute timer):
   * `completeDownload` then `release`.
   */
  function DownloadEnd(s: Sched, qid: QueueId, now: int): Sched {
    Released(Complete(s, qid, now), now)
  }

  /**
   * The end of a download whose item is still queued and running: the item
   * leaves the queue, the slot goes back, and the count keeps matching the
   * running items and detached downloads; the remaining items stay in their
   * order, some waiting ones started.
   */
  lemma EndRunningKeeps(s: Sched, detached: nat, qid: QueueId, now: int)
    requires UniqueIds(s.queue) && Balanced(s, detached) && Bounded(s)
    requires FindId(s.queue, qid).Some? && s.queue[FindId(s.queue, qid).value].status == Running
    ensures var t := DownloadEnd(s, qid, now);
            && Balanced(t, detached) && Bounded(t) && UniqueIds(t.queue)
            && Advanced(Drop(s.queue, qid), t.queue, now)
            && (forall x :: x in t.queue ==> x.id != qid)
            && t.currentCount >= s.currentCount - 1
  {
    CompleteRunning(s, detached, qid, now);
    var c := Complete(s, qid, now);
    ReleaseOwnSlot(c, detached, now);
    var t := Released(c, now);
    var d := Drop(s.queue, qid);
    AdvancedTrans(d, c.queue, t.queue, now);
    AdvancedCount(d, t.queue, now);
    forall x | x in t.queue ensures x.id != qid {
      var j :| 0 <= j < |t.queue| && t.queue[j] == x;
      assert d[j] in d;
    }
  }

  /** One `release` of a slot that is held beyond the running items and detached downloads restores the balance. */
  lemma ReleaseOwnSlot(c: Sched, detached: nat, now: int)
    requires UniqueIds(c.queue) && Bounded(c) && c.currentCount == RunningCount(c.queue) + detached + 1
    ensures var t := Released(c, now);
            && Balanced(t, detached) && Bounded(t) && UniqueIds(t.queue)
            && Advanced(c.queue, t.queue, now) && t.currentCount >= c.currentCount - 1
  {
    ReleaseTimesKeeps(c, detached, 1, now);
    assert ReleaseTimes(c, 1, now) == Released(c, now);
    ProcessNextEffects(c.(currentCount := c.currentCount - 1), now);
  }

  /** `completeDownload` of a running item: the item and its slot's owner leave the queue, the slot stays taken. */
  lemma CompleteRunning(s: Sched, detached: nat, qid: QueueId, now: int)
    requires UniqueIds(s.queue) && Balanced(s, detached) && Bounded(s)
    requires FindId(s.queue, qid).Some? && s.queue[FindId(s.queue, qid).value].status == Running
    ensures var c := Complete(s, qid, now);
            && c.currentCount == RunningCount(c.queue) + detached + 1 && Bounded(c) && UniqueIds(c.queue)
            && Advanced(Drop(s.queue, qid), c.queue, now) && c.currentCount >= s.currentCount
  {
    var k := FindId(s.queue, qid).value;
    var s1 := s.(queue := Drop(s.queue, qid),
                 activeDownloads := s.activeDownloads - {qid},
                 completedDownloads := s.completedDownloads + [s.queue[k].(status := Completed, endTime := Some(now))]);
    RunningCountDrop(s.queue, k);
    UniqueDrop(s.queue, qid);
    assert Complete(s, qid, now) == ProcessNext(s1, now);
    ProcessNextEffects(s1, now);
    ProcessNextKeeps(s1, now);
  }

  /** No item carries an id that no queue element has. */
  lemma FindIdAbsent(queue: seq<QueueItem>, qid: QueueId)
    requires forall x :: x in queue ==> x.id != qid
    ensures FindId(queue, qid).None?
  {
    forall j | 0 <= j < |queue| ensures queue[j].id != qid {
      assert queue[j] in queue;
    }
  }

  /**
   * The end of a download whose item is no longer queued: `completeDownload`
   * finds nothing, and `release` still takes a slot off the count.
   */
  lemma EndUnqueued(s: Sched, qid: QueueId, now: int)
    requires UniqueIds(s.queue) && FindId(s.queue, qid).None? && s.currentCount > 0
    ensures var t := DownloadEnd(s, qid, now);
            && t.currentCount - RunningCount(t.queue) == s.currentCount - RunningCount(s.queue) - 1
            && Advanced(s.queue, t.queue, now) && UniqueIds(t.queue)
            && (Bounded(s) ==> Bounded(t))
  {
    assert Complete(s, qid, now) == s;
    ProcessNextEffects(s.(currentCount := s.currentCount - 1), now);
    ProcessNextKeeps(s.(currentCount := s.currentCount - 1), now);
  }

  /**
   * `performDownload`'s timer is never cleared, so a download that ends
   * early is ended once more when its timer fires. While another download
   * runs, that second `release` leaves the count one below the running
   * downloads, so one more item than the limit allows can be started.
   */
  lemma TimerAfterEndOvercommits(s: Sched, k: nat, now: int, later: int)
    requires UniqueIds(s.queue) && Accounted(s) && Bounded(s)
    requires k < |s.queue| && s.queue[k].status == Running && RunningCount(s.queue) >= 2
    ensures var ended := DownloadEnd(s, s.queue[k].id, now);
            var timedOut := DownloadEnd(ended, s.queue[k].id, later);
            && Accounted(ended)
            && timedOut.currentCount + 1 == RunningCount(timedOut.queue)
  {
    var qid := s.queue[k].id;
    FindIdUnique(s.queue, k);
    EndRunningKeeps(s, 0, qid, now);
    var ended := DownloadEnd(s, qid, now);
    FindIdAbsent(ended.queue, qid);
    EndUnqueued(ended, qid, later);
  }

  /**
   * A download's end with its timer cleared: only the first end of a
   * download runs `completeDownload` and `release`; a later one finds the
   * download among those `ended` and does nothing.
   */
  function EndOnce(s: Sched, ended: set<QueueId>, qid: QueueId, now: int): (r: (Sched, set<QueueId>))
    ensures qid in r.1
  {
    if qid in ended then (s, ended) else (DownloadEnd(s, qid, now), ended + {qid})
  }

  /**
   * With the timer cleared, the end of a running download keeps the count
   * matching the running items and detached downloads, and the timer firing
   * afterwards changes nothing.
   */
  lemma ClearedTimerKeeps(s: Sched, detached: nat, ended: set<QueueId>, k: nat, now: int, later: int)
    requires UniqueIds(s.queue) && Balanced(s, detached) && Bounded(s)
    requires k < |s.queue| && s.queue[k].status == Running && s.queue[k].id !in ended
    ensures var first := EndOnce(s, ended, s.queue[k].id, now);
            var second := EndOnce(first.0, first.1, s.queue[k].id, later);
            && Balanced(first.0, detached) && Bounded(first.0)
            && (forall x :: x in first.0.queue ==> x.id != s.queue[k].id)
            && second == first
  {
    FindIdUnique(s.queue, k);
    EndRunningKeeps(s, detached, s.queue[k].id, now);
  }

  // ------------------------------------------------------- the limit

  /**
   * `changeSemaphoreLimit` sets the limit without looking at the count, so
   * lowering it below the slots in use leaves more downloads running than
   * the limit allows, and no new one can start until enough are released.
   */
  lemma LoweringLimitOvercommits(s: Sched, limit: int, now: int)
    requires Bounded(s) && limit < s.currentCount
    ensures var t := s.(maxConcurrent := limit);
            && !Bounded(t) && ProcessNext(t, now) == t
  {
  }

  // ------------------------------------------------------- the objects

  /** The value of the page's two scheduler objects. */
  function Snap(q: DownloadQueue, sem: Semaphore): Sched
    reads q, sem
  {
    Sched(q.queue, q.activeDownloads, q.completedDownloads, q.schedulingAlgorithm, sem.maxConcurrent, sem.currentCount)
  }

  class Semaphore {
    var maxConcurrent: int
    var currentCount: int

    constructor (maxConcurrent: int)
      ensures this.maxConcurrent == maxConcurrent && currentCount == 0
    {
      this.maxConcurrent := maxConcurrent;
      currentCount := 0;
    }

    predicate CanAcquire()
      reads this
    {
      currentCount < maxConcurrent
    }

    /** Takes a slot when one is free; says whether it did. */
    method Acquire() returns (acquired: bool)
      modifies this`currentCount
      ensures acquired == (old(currentCount) < maxConcurrent)
      ensures currentCount == if acquired then old(currentCount) + 1 else old(currentCount)
    {
      acquired := CanAcquire();
      if acquired {
        currentCount := currentCount + 1;
      }
    }

    /** Gives a slot back and asks the queue to start the next item. */
    method Release(q: DownloadQueue, now: int)
      modifies this, q
      ensures Snap(q, this) == Released(old(Snap(q, this)), now)
    {
      if currentCount > 0 {
        currentCount := currentCount - 1;
        q.ProcessNextInQueue(this, now);
      }
    }
  }

  class DownloadQueue {
    var queue: seq<QueueItem>
    var activeDownloads: set<QueueId>
    var completedDownloads: seq<QueueItem>
    var schedulingAlgorithm: string

    constructor ()
      ensures queue == [] && activeDownloads == {} && completedDownloads == [] && schedulingAlgorithm == "FCFS"
    {
      queue := [];
      activeDownloads := {};
      completedDownloads := [];
      schedulingAlgorithm := "FCFS";
    }

    /** Queues a download of `fileInfo`; `qid` and `now` stand for the clock and the random draw. */
    method AddToQueue(qid: QueueId, fileInfo: FileRecord, priority: int, now: int) returns (id: QueueId)
      modifies this`queue
      ensures id == qid && queue == Enqueue(old(queue), NewItem(qid, fileInfo, priority, now))
    {
      var item := NewItem(qid, fileInfo, priority, now);
      if priority >= UrgentPriority {
        queue := [item] + queue;
      } else {
        queue := queue + [item];
      }
      id := qid;
    }

    method SortQueue()
      modifies this`queue
      ensures queue == QueueOrder(schedulingAlgorithm, old(queue))
    {
      if KnownAlgorithm(schedulingAlgorithm) {
        queue := SortBy(schedulingAlgorithm, queue);
      }
    }

    /** `getNext`: the first waiting item, if any. */
    function GetNext(): (r: Option<QueueItem>)
      reads this
      ensures r.Some? <==> exists j :: 0 <= j < |queue| && queue[j].status == Waiting
      ensures r.Some? ==> r.value.status == Waiting && r.value in queue
      ensures r.Some? ==> exists k :: 0 <= k < |queue| && queue[k] == r.value && forall j :: 0 <= j < k ==> queue[j].status != Waiting
    {
      match FirstWaiting(queue)
      case None => None
      case Some(k) => Some(queue[k])
    }

    method StartDownload(qid: QueueId, now: int)
      modifies this`queue, this`activeDownloads
      ensures queue == Started(old(queue), qid, now)
      ensures activeDownloads == if FindId(old(queue), qid).Some? then old(activeDownloads) + {qid} else old(activeDownloads)
    {
      var found := FindId(queue, qid);
      if found.Some? {
        var k := found.value;
        queue := queue[k := queue[k].(status := Running, startTime := Some(now))];
        activeDownloads := activeDownloads + {qid};
      }
    }

    method CompleteDownload(qid: QueueId, now: int, sem: Semaphore)
      modifies this, sem
      ensures Snap(this, sem) == Complete(old(Snap(this, sem)), qid, now)
    {
      var found := FindId(queue, qid);
      if found.Some? {
        var item := queue[found.value].(status := Completed, endTime := Some(now));
        activeDownloads := activeDownloads - {qid};
        completedDownloads := completedDownloads + [item];
        queue := Drop(queue, qid);
        ProcessNextInQueue(sem, now);
      }
    }

    method ProcessNextInQueue(sem: Semaphore, now: int)
      modifies this, sem
      ensures Snap(this, sem) == ProcessNext(old(Snap(this, sem)), now)
    {
      if sem.CanAcquire() && |queue| > 0 {
        var next := FirstWaiting(queue);
        if next.Some? {
          var acquired := sem.Acquire();
          StartDownload(queue[next.value].id, now);
        }
      }
    }
  }
}
