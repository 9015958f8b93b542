/**
 * The page-level handlers of the browser client (public/app.js) that touch
 * the file catalogue, the active transfers and the download scheduler:
 * leaving a room, the `files-list`, `file-available` and `file-removed`
 * events, removing a queue item, reordering the queue by drag and drop, and
 * the two scheduler settings.
 *
 * Each handler is specified by a function on `Page`, the page's state
 * together with the scheduler's; the `Client` methods are proved equal to
 * them. The lemmas say which handlers keep the catalogue in scope and which
 * keep the semaphore's count equal to the running downloads.
 */
module ClientSession {
  import opened Common
  import opened Scheduler

  type TransferId = string

  /** An entry of `activeTransfers`; the page registers its downloads there. */
  datatype Transfer = Transfer(kind: string, fileId: FileId, roomId: Option<RoomId>)

  /** The page's globals these handlers read and write. */
  datatype Session = Session(
    myPeerId: Option<SocketId>,
    currentRoomId: Option<RoomId>,
    availableFiles: seq<FileRecord>,
    /** Each own shared file's `_roomId`. */
    mySharedFiles: map<FileId, Option<RoomId>>,
    activeTransfers: map<TransferId, Transfer>,
    /** The rooms named in `leave-room` emits, oldest first. */
    leaveRequests: seq<RoomId>)

  datatype Page = Page(session: Session, sched: Sched)

  // ------------------------------------------------------- the catalogue

  /** The scope test of `file-available`: the current room's files in a room, global files outside. */
  predicate InScope(s: Session, file: FileRecord) {
    if Truthy(s.currentRoomId) then file.roomId == s.currentRoomId else !Truthy(file.roomId)
  }

  /** `file-available` lists a file only when someone else shares it in the page's scope. */
  predicate Accepts(s: Session, file: FileRecord) {
    Some(file.peerId) != s.myPeerId && InScope(s, file)
  }

  /** Every listed file belongs to someone else and to the page's scope. */
  predicate Scoped(s: Session) {
    forall f :: f in s.availableFiles ==> Accepts(s, f)
  }

  function FileAvailableStep(s: Session, file: FileRecord): Session {
    if Accepts(s, file) then s.(availableFiles := s.availableFiles + [file]) else s
  }

  /** `files.filter(file => file.peerId !== myPeerId)`. */
  function Others(files: seq<FileRecord>, me: Option<SocketId>): (r: seq<FileRecord>)
    ensures forall f :: f in r <==> f in files && Some(f.peerId) != me
  {
    if files == [] then []
    else (if Some(files[0].peerId) != me then [files[0]] else []) + Others(files[1..], me)
  }

  /** The `files-list` queue filter: the item's file is still listed. */
  function StillListed(ids: set<FileId>): QueueItem -> bool {
    (item: QueueItem) => item.fileInfo.id in ids
  }

  /** The `leaveRoom` queue filter, as a test: the item's file is not in the room. */
  function OutsideRoom(room: RoomId): QueueItem -> bool {
    (item: QueueItem) => item.fileInfo.roomId != Some(room)
  }

  /**
   * `files-list`: the catalogue becomes the received list without the page's
   * own files, and queue items whose file is not in it are dropped. Nothing
   * is released for a dropped item that was running.
   */
  function FilesListStep(p: Page, files: seq<FileRecord>): Page {
    var available := Others(files, p.session.myPeerId);
    var ids := set f | f in available :: f.id;
    Page(p.session.(availableFiles := available),
         p.sched.(queue := Keep(p.sched.queue, StillListed(ids))))
  }

  /** `availableFiles.findIndex(f => f.id === fileId)`. */
  function FindRecord(files: seq<FileRecord>, fileId: FileId): (r: Option<nat>)
    ensures r.Some? ==> r.value < |files| && files[r.value].id == fileId
    ensures r.Some? ==> forall j :: 0 <= j < r.value ==> files[j].id != fileId
    ensures r.None? ==> forall j :: 0 <= j < |files| ==> files[j].id != fileId
  {
    FindFirst(files, (f: FileRecord) => f.id == fileId)
  }

  /** `downloadQueue.queue.findIndex(q => q.fileInfo.id === fileId)`. */
  function FindQueued(queue: seq<QueueItem>, fileId: FileId): (r: Option<nat>)
    ensures r.Some? ==> r.value < |queue| && queue[r.value].fileInfo.id == fileId
    ensures r.Some? ==> forall j :: 0 <= j < r.value ==> queue[j].fileInfo.id != fileId
    ensures r.None? ==> forall j :: 0 <= j < |queue| ==> queue[j].fileInfo.id != fileId
  {
    FindFirst(queue, (q: QueueItem) => q.fileInfo.id == fileId)
  }

  /** The active downloads of one file. */
  function Downloads(ts: map<TransferId, Transfer>, fileId: FileId): set<TransferId> {
    set t | t in ts && ts[t].kind == "download" && ts[t].fileId == fileId
  }

  /**
   * `file-removed`: the first catalogue entry and the first queue item of
   * the file go, the page forgets the file if it was its own, and each
   * active download of the file is cancelled with one release.
   */
  function FileRemovedStep(p: Page, fileId: FileId, now: int): Page {
    var s := p.session;
    var files := match FindRecord(s.availableFiles, fileId)
                 case None => s.availableFiles
                 case Some(k) => s.availableFiles[..k] + s.availableFiles[k + 1..];
    var q := p.sched.queue;
    var sched := match FindQueued(q, fileId)
                 case None => p.sched
                 case Some(k) => p.sched.(queue := q[..k] + q[k + 1..]);
    var cancelled := Downloads(s.activeTransfers, fileId);
    Page(s.(availableFiles := files, mySharedFiles := s.mySharedFiles - {fileId},
            activeTransfers := s.activeTransfers - cancelled),
         ReleaseTimes(sched, |cancelled|, now))
  }

  // ------------------------------------------------------- leaving a room

  /**
   * The queue filter of `leaveRoom`, item by item from index `i`. A running
   * room item releases its slot from inside the filter, and that release
   * may start another waiting item of the queue being filtered; the answer
   * is the scheduler state after the filter and the indices it keeps.
   */
  function RoomFilter(s: Sched, room: RoomId, now: int, i: nat): (r: (Sched, seq<nat>))
    requires i <= |s.queue|
    ensures |r.0.queue| == |s.queue|
    ensures forall n :: 0 <= n < |r.1| ==> i <= r.1[n] < |s.queue|
    decreases |s.queue| - i
  {
    if i == |s.queue| then (s, [])
    else
      ReleasedShape(s, now);
      var rest := RoomFilter(FilterOne(s, room, now, i), room, now, i + 1);
      (rest.0, if s.queue[i].fileInfo.roomId == Some(room) then rest.1 else [i] + rest.1)
  }

  /** The filter's callback on item `i`: a running room item gives its slot back. */
  function FilterOne(s: Sched, room: RoomId, now: int, i: nat): Sched
    requires i < |s.queue|
  {
    if s.queue[i].fileInfo.roomId == Some(room) && s.queue[i].status == Running then Released(s, now) else s
  }

  /** The items at the given indices, in that order. */
  function Pick(queue: seq<QueueItem>, kept: seq<nat>): (r: seq<QueueItem>)
    requires forall n :: 0 <= n < |kept| ==> kept[n] < |queue|
    ensures |r| == |kept| && forall n :: 0 <= n < |kept| ==> r[n] == queue[kept[n]]
  {
    seq(|kept|, n requires 0 <= n < |kept| => queue[kept[n]])
  }

  /**
   * The queue after `leaveRoom`'s filter: the kept items as they stand when
   * the filter ends (a start from inside the filter shows in them).
   */
  function LeaveQueue(s: Sched, room: RoomId, now: int): Sched {
    var r := RoomFilter(s, room, now, 0);
    r.0.(queue := Pick(r.0.queue, r.1))
  }

  function RoomTransfers(ts: map<TransferId, Transfer>, room: RoomId): set<TransferId> {
    set t | t in ts && ts[t].roomId == Some(room)
  }

  function RoomShares(files: map<FileId, Option<RoomId>>, room: RoomId): set<FileId> {
    set f | f in files && files[f] == Some(room)
  }

  /**
   * `leaveRoom`, outside a room a no-op: the page forgets its own files of
   * the room, filters the room's items out of the queue, cancels every
   * active transfer of the room with one release each, asks the server to
   * leave, and returns to the global scope with an empty catalogue.
   */
  function LeaveRoomStep(p: Page, now: int): Page {
    var s := p.session;
    if !Truthy(s.currentRoomId) then p
    else
      var room := s.currentRoomId.value;
      var cancelled := RoomTransfers(s.activeTransfers, room);
      Page(s.(mySharedFiles := s.mySharedFiles - RoomShares(s.mySharedFiles, room),
              activeTransfers := s.activeTransfers - cancelled,
              leaveRequests := s.leaveRequests + [room],
              currentRoomId := None,
              availableFiles := []),
           ReleaseTimes(LeaveQueue(p.sched, room, now), |cancelled|, now))
  }

  // ------------------------------------------------------- removing and reordering

  /**
   * `removeFromQueue`: a missing item changes nothing. A running item first
   * gives its slot back (which may start another item) and has its file's
   * transfers cancelled; then the item leaves the queue and the queue is
   * asked to start the next item.
   */
  function RemoveFromQueueStep(p: Page, itemId: QueueId, now: int): Page {
    match FindId(p.sched.queue, itemId)
    case None => p
    case Some(k) =>
      var item := p.sched.queue[k];
      var ts := p.session.activeTransfers;
      var running := item.status == Running;
      var sched := if running then Released(p.sched, now) else p.sched;
      var cancelled := if running then (set t | t in ts && ts[t].fileId == item.fileInfo.id) else {};
      Page(p.session.(activeTransfers := ts - cancelled),
           ProcessNext(sched.(queue := Drop(sched.queue, itemId)), now))
  }

  /** The queue with the item at `from` taken out and put back in at `to`. */
  function Moved(queue: seq<QueueItem>, from: nat, to: nat): seq<QueueItem>
    requires from < |queue| && to < |queue|
  {
    var rest := queue[..from] + queue[from + 1..];
    rest[..to] + [queue[from]] + rest[to..]
  }

  /** Each item's priority becomes the queue's length minus its position. */
  function Reprioritised(queue: seq<QueueItem>): seq<QueueItem> {
    seq(|queue|, i requires 0 <= i < |queue| => queue[i].(priority := |queue| - i))
  }

  /**
   * `handleQueueDrop`: no dragged item, a drop on itself, or an id missing
   * from the queue changes nothing; otherwise the dragged item moves to the
   * target's index and the priorities are renumbered from the front.
   */
  function QueueDropStep(queue: seq<QueueItem>, dragged: Option<QueueId>, target: QueueId): seq<QueueItem> {
    if !TruthyNumber(dragged) || dragged.value == target then queue
    else match (FindId(queue, dragged.value), FindId(queue, target))
      case (Some(from), Some(to)) => Reprioritised(Moved(queue, from, to))
      case _ => queue
  }

  // ------------------------------------------------------- catalogue lemmas

  /** `file-available` keeps the catalogue in scope, and lists the file exactly when it accepts it. */
  lemma FileAvailableKeepsScoped(s: Session, file: FileRecord)
    requires Scoped(s)
    ensures var t := FileAvailableStep(s, file);
            && Scoped(t)
            && (file in t.availableFiles <==> file in s.availableFiles || Accepts(s, file))
  {
  }

  /** `files-list` leaves the catalogue in scope exactly when every foreign file of the list is in scope. */
  lemma FilesListScoped(p: Page, files: seq<FileRecord>)
    ensures Scoped(FilesListStep(p, files).session) <==>
            forall f :: f in files && Some(f.peerId) != p.session.myPeerId ==> InScope(p.session, f)
  {
  }

  /** `file-removed` only shrinks the catalogue, and takes out the first entry of the file. */
  lemma FileRemovedKeepsScoped(p: Page, fileId: FileId, now: int)
    requires Scoped(p.session)
    ensures var t := FileRemovedStep(p, fileId, now);
            && Scoped(t.session)
            && multiset(t.session.availableFiles) <= multiset(p.session.availableFiles)
            && (FindRecord(p.session.availableFiles, fileId).None? ==> t.session.availableFiles == p.session.availableFiles)
            && (FindRecord(p.session.availableFiles, fileId).Some? ==>
                  var k := FindRecord(p.session.availableFiles, fileId).value;
                  && multiset(t.session.availableFiles) + multiset{p.session.availableFiles[k]} == multiset(p.session.availableFiles)
                  && |t.session.availableFiles| == |p.session.availableFiles| - 1)
            && t.session.myPeerId == p.session.myPeerId && t.session.currentRoomId == p.session.currentRoomId
            && (forall f :: f in t.session.mySharedFiles <==> f in p.session.mySharedFiles && f != fileId)
            && (forall x :: x in t.session.activeTransfers <==>
                  x in p.session.activeTransfers && !(p.session.activeTransfers[x].kind == "download" && p.session.activeTransfers[x].fileId == fileId))
            && (forall x :: x in t.session.activeTransfers ==> t.session.activeTransfers[x] == p.session.activeTransfers[x])
  {
    var s := p.session;
    match FindRecord(s.availableFiles, fileId)
    case None =>
    case Some(k) =>
      var files := s.availableFiles;
      assert files == files[..k] + [files[k]] + files[k + 1..];
      assert multiset(files) == multiset(files[..k]) + multiset{files[k]} + multiset(files[k + 1..]);
      forall f | f in files[..k] + files[k + 1..] ensures f in files {
        assert f in multiset(files[..k] + files[k + 1..]);
      }
      var t := FileRemovedStep(p, fileId, now).session;
      assert t.availableFiles == files[..k] + files[k + 1..];
      assert t.myPeerId == s.myPeerId && t.currentRoomId == s.currentRoomId;
      forall f | f in t.availableFiles ensures Accepts(t, f) {
        assert f in files && Accepts(s, f);
      }
  }

  /** After `leaveRoom` the page is in the global scope with nothing listed, so the catalogue is in scope. */
  lemma LeaveRoomScoped(p: Page, now: int)
    requires Truthy(p.session.currentRoomId)
    ensures var t := LeaveRoomStep(p, now).session;
            && Scoped(t) && t.currentRoomId == None
            && t.leaveRequests == p.session.leaveRequests + [p.session.currentRoomId.value]
            && t.availableFiles == [] && t.myPeerId == p.session.myPeerId
            && (forall f :: f in t.mySharedFiles <==> f in p.session.mySharedFiles && p.session.mySharedFiles[f] != p.session.currentRoomId)
            && (forall f :: f in t.mySharedFiles ==> t.mySharedFiles[f] == p.session.mySharedFiles[f])
            && (forall x :: x in t.activeTransfers <==> x in p.session.activeTransfers && p.session.activeTransfers[x].roomId != p.session.currentRoomId)
            && (forall x :: x in t.activeTransfers ==> t.activeTransfers[x] == p.session.activeTransfers[x])
  {
  }

  // ------------------------------------------------------- slot accounting

  lemma {:induction false} RunningMember(queue: seq<QueueItem>, x: QueueItem)
    requires x in queue && x.status == Running
    ensures RunningCount(queue) >= 1
  {
    if queue[0] != x {
      RunningMember(queue[1..], x);
    }
  }

  /**
   * `files-list` drops the items whose file is no longer listed and
   * releases nothing. The downloads of dropped running items go on and keep
   * their slots until they end, so the count still matches the running items
   * and the detached downloads, which now include those.
   */
  lemma FilesListDetaches(p: Page, files: seq<FileRecord>, detached: nat)
    requires Balanced(p.sched, detached)
    ensures var ids := set f | f in Others(files, p.session.myPeerId) :: f.id;
            var t := FilesListStep(p, files).sched;
            && (forall x :: x in t.queue <==> x in p.sched.queue && x.fileInfo.id in ids)
            && t.currentCount == p.sched.currentCount
            && Balanced(t, detached + RunningCount(Keep(p.sched.queue, Rejected(StillListed(ids)))))
  {
    var ids := set f | f in Others(files, p.session.myPeerId) :: f.id;
    KeepSplitsCount(p.sched.queue, StillListed(ids));
  }

  lemma {:induction false} RunningCountRemoveAt(queue: seq<QueueItem>, k: nat)
    requires k < |queue|
    ensures RunningCount(queue[..k] + queue[k + 1..]) == RunningCount(queue) - (if queue[k].status == Running then 1 else 0)
  {
    assert queue == queue[..k] + ([queue[k]] + queue[k + 1..]);
    RunningCountSplit(queue[..k], [queue[k]] + queue[k + 1..]);
    RunningCountSplit([queue[k]], queue[k + 1..]);
    RunningCountSplit(queue[..k], queue[k + 1..]);
  }

  lemma UniqueRemoveAt(queue: seq<QueueItem>, k: nat)
    requires k < |queue| && UniqueIds(queue)
    ensures UniqueIds(queue[..k] + queue[k + 1..])
    ensures forall x :: x in queue[..k] + queue[k + 1..] ==> x.id != queue[k].id
  {
    var r := queue[..k] + queue[k + 1..];
    forall i, j | 0 <= i < j < |r| ensures r[i].id != r[j].id {
      var i' := if i < k then i else i + 1;
      var j' := if j < k then j else j + 1;
      assert r[i] == queue[i'] && r[j] == queue[j'];
    }
    forall x | x in r ensures x.id != queue[k].id {
      var i :| 0 <= i < |r| && r[i] == x;
      assert r[i] == queue[if i < k then i else i + 1];
    }
  }

  /**
   * `file-removed` releases once per registered download of the file, while
   * each of those downloads goes on and releases again when it ends. With
   * `n` registered downloads, the removed item running (`r` is 1) or not,
   * and enough slots held for the releases, the count afterwards matches the
   * running items and `detached + r - n` downloads: the removed item's
   * download is detached when it has not registered yet (its sender then
   * answers with an error, which ends it), and a registered one is counted
   * nowhere although it still holds a slot.
   */
  lemma FileRemovedCounts(p: Page, fileId: FileId, detached: nat, now: int)
    requires UniqueIds(p.sched.queue) && Balanced(p.sched, detached) && Bounded(p.sched)
    requires var k := FindQueued(p.sched.queue, fileId);
             |Downloads(p.session.activeTransfers, fileId)| <=
             detached + (if k.Some? && p.sched.queue[k.value].status == Running then 1 else 0)
    ensures var q := p.sched.queue;
            var k := FindQueued(q, fileId);
            var r := if k.Some? && q[k.value].status == Running then 1 else 0;
            var t := FileRemovedStep(p, fileId, now).sched;
            && Balanced(t, detached + r - |Downloads(p.session.activeTransfers, fileId)|)
            && Bounded(t) && UniqueIds(t.queue)
            && Advanced(if k.Some? then q[..k.value] + q[k.value + 1..] else q, t.queue, now)
  {
    var q := p.sched.queue;
    var n := |Downloads(p.session.activeTransfers, fileId)|;
    match FindQueued(q, fileId)
    case None =>
      ReleaseTimesKeeps(p.sched, detached - n, n, now);
    case Some(k) =>
      var r := if q[k].status == Running then 1 else 0;
      RunningCountRemoveAt(q, k);
      UniqueRemoveAt(q, k);
      ReleaseTimesKeeps(p.sched.(queue := q[..k] + q[k + 1..]), detached + r - n, n, now);
  }

  /**
   * The download of a removed file whose transfer had registered keeps
   * running after `file-removed` released its slot, and releases once more
   * when it ends. While another download runs, that leaves the count one
   * below the running downloads.
   */
  lemma FileRemovedThenEndOvercommits(p: Page, fileId: FileId, now: int, later: int)
    requires UniqueIds(p.sched.queue) && Accounted(p.sched) && Bounded(p.sched)
    requires var k := FindQueued(p.sched.queue, fileId);
             k.Some? && p.sched.queue[k.value].status == Running
    requires |Downloads(p.session.activeTransfers, fileId)| == 1 && RunningCount(p.sched.queue) >= 2
    ensures var item := p.sched.queue[FindQueued(p.sched.queue, fileId).value];
            var t := FileRemovedStep(p, fileId, now).sched;
            var u := DownloadEnd(t, item.id, later);
            && Accounted(t) && u.currentCount + 1 == RunningCount(u.queue)
  {
    var q := p.sched.queue;
    var k := FindQueued(q, fileId).value;
    FileRemovedCounts(p, fileId, 0, now);
    var t := FileRemovedStep(p, fileId, now).sched;
    var rest := q[..k] + q[k + 1..];
    RunningCountRemoveAt(q, k);
    UniqueRemoveAt(q, k);
    AdvancedCount(rest, t.queue, now);
    forall x | x in t.queue ensures x.id != q[k].id {
      var j :| 0 <= j < |t.queue| && t.queue[j] == x;
      assert rest[j] in rest;
    }
    FindIdAbsent(t.queue, q[k].id);
    EndUnqueued(t, q[k].id, later);
  }

  /**
   * `file-removed` leaving each slot to its download's own end: the same
   * page, but nothing is released.
   */
  function FileRemovedLeavingSlots(p: Page, fileId: FileId, now: int): Page {
    var q := p.sched.queue;
    var sched := match FindQueued(q, fileId)
                 case None => p.sched
                 case Some(k) => p.sched.(queue := q[..k] + q[k + 1..]);
    Page(FileRemovedStep(p, fileId, now).session, sched)
  }

  /**
   * Without the releases, a removed running item's download becomes one more
   * detached download, and its end brings the count back to the detached
   * downloads there were before.
   */
  lemma FileRemovedLeavingSlotsKeeps(p: Page, fileId: FileId, detached: nat, now: int, later: int)
    requires UniqueIds(p.sched.queue) && Balanced(p.sched, detached) && Bounded(p.sched)
    ensures var q := p.sched.queue;
            var k := FindQueued(q, fileId);
            var r := if k.Some? && q[k.value].status == Running then 1 else 0;
            var t := FileRemovedLeavingSlots(p, fileId, now);
            && t.session == FileRemovedStep(p, fileId, now).session
            && t.sched.currentCount == p.sched.currentCount
            && Balanced(t.sched, detached + r) && Bounded(t.sched) && UniqueIds(t.sched.queue)
            && (k.Some? ==> t.sched.queue == q[..k.value] + q[k.value + 1..]
                            && forall x :: x in t.sched.queue ==> x.id != q[k.value].id)
            && (k.None? ==> t.sched == p.sched)
            && (r == 1 ==> var u := DownloadEnd(t.sched, q[k.value].id, later);
                           Balanced(u, detached) && Bounded(u))
  {
    var q := p.sched.queue;
    match FindQueued(q, fileId)
    case None =>
    case Some(k) =>
      RunningCountRemoveAt(q, k);
      UniqueRemoveAt(q, k);
      var t := FileRemovedLeavingSlots(p, fileId, now).sched;
      if q[k].status == Running {
        FindIdAbsent(t.queue, q[k].id);
        EndUnqueued(t, q[k].id, later);
      }
  }

  /**
   * `removeFromQueue` keeps the count equal to the running items, within the
   * limit, and the ids unique. The item is gone afterwards, and the queue is
   * the old one without it, in the same order, with at most some waiting
   * items started (by the release and by the final `processNextInQueue`).
   */
  lemma RemoveFromQueueKeeps(p: Page, itemId: QueueId, now: int)
    requires UniqueIds(p.sched.queue) && Accounted(p.sched) && Bounded(p.sched)
    ensures var t := RemoveFromQueueStep(p, itemId, now).sched;
            && Accounted(t) && Bounded(t) && UniqueIds(t.queue)
            && (forall x :: x in t.queue ==> x.id != itemId)
            && Advanced(Drop(p.sched.queue, itemId), t.queue, now)
  {
    var s := p.sched;
    match FindId(s.queue, itemId)
    case None =>
      DropAbsent(s.queue, itemId);
    case Some(k) =>
      var sched := if s.queue[k].status == Running then Released(s, now) else s;
      if s.queue[k].status == Running {
        ReleaseRunningItem(s, k, now);
      }
      ReleasedAdvanced(s, now);
      RunningCountDrop(sched.queue, k);
      UniqueDrop(sched.queue, itemId);
      var dropped := sched.(queue := Drop(sched.queue, itemId));
      ProcessNextKeeps(dropped, now);
      ProcessNextAbsent(dropped, itemId, now);
      ProcessNextEffects(dropped, now);
      DropAdvanced(s.queue, sched.queue, itemId, now);
      AdvancedTrans(Drop(s.queue, itemId), dropped.queue, ProcessNext(dropped, now).queue, now);
  }

  /**
   * Releasing the slot of a running item, which `removeFromQueue` does while
   * the item is still queued, leaves that item where and as it was, with one
   * slot fewer than running items.
   */
  lemma ReleaseRunningItem(s: Sched, k: nat, now: int)
    requires UniqueIds(s.queue) && Accounted(s) && Bounded(s)
    requires k < |s.queue| && s.queue[k].status == Running
    ensures var t := Released(s, now);
            && |t.queue| == |s.queue| && t.queue[k] == s.queue[k]
            && t.currentCount == RunningCount(t.queue) - 1
            && Bounded(t) && UniqueIds(t.queue)
  {
    RunningMember(s.queue, s.queue[k]);
    ProcessNextEffects(s.(currentCount := s.currentCount - 1), now);
  }

  /**
   * `removeFromQueue` releases the slot of a running item, but its download
   * goes on (deleting the transfer entry does not stop it) and releases
   * again when it ends. While another download runs, that leaves the count
   * one below the running downloads.
   */
  lemma RemoveThenEndOvercommits(p: Page, k: nat, now: int, later: int)
    requires UniqueIds(p.sched.queue) && Accounted(p.sched) && Bounded(p.sched)
    requires k < |p.sched.queue| && p.sched.queue[k].status == Running && RunningCount(p.sched.queue) >= 2
    ensures var qid := p.sched.queue[k].id;
            var t := RemoveFromQueueStep(p, qid, now).sched;
            var u := DownloadEnd(t, qid, later);
            && Accounted(t) && u.currentCount + 1 == RunningCount(u.queue)
  {
    var qid := p.sched.queue[k].id;
    RemoveFromQueueKeeps(p, qid, now);
    var t := RemoveFromQueueStep(p, qid, now).sched;
    RunningCountDrop(p.sched.queue, k);
    AdvancedCount(Drop(p.sched.queue, qid), t.queue, now);
    FindIdAbsent(t.queue, qid);
    EndUnqueued(t, qid, later);
  }

  /**
   * `removeFromQueue` leaving the slot to the download's own end: the same
   * handler without the release.
   */
  function RemoveLeavingSlot(p: Page, itemId: QueueId, now: int): Page {
    match FindId(p.sched.queue, itemId)
    case None => p
    case Some(k) =>
      var item := p.sched.queue[k];
      var ts := p.session.activeTransfers;
      var cancelled := if item.status == Running then (set t | t in ts && ts[t].fileId == item.fileInfo.id) else {};
      Page(p.session.(activeTransfers := ts - cancelled),
           ProcessNext(p.sched.(queue := Drop(p.sched.queue, itemId)), now))
  }

  /**
   * Without the release, a removed running item's download becomes one more
   * detached download, and its end brings the count back to the detached
   * downloads there were before; the queue keeps the other items in order.
   */
  lemma RemoveLeavingSlotKeeps(p: Page, k: nat, detached: nat, now: int, later: int)
    requires UniqueIds(p.sched.queue) && Balanced(p.sched, detached) && Bounded(p.sched)
    requires k < |p.sched.queue|
    ensures var q := p.sched.queue;
            var r := if q[k].status == Running then 1 else 0;
            var t := RemoveLeavingSlot(p, q[k].id, now);
            && t.session == RemoveFromQueueStep(p, q[k].id, now).session
            && Balanced(t.sched, detached + r) && Bounded(t.sched) && UniqueIds(t.sched.queue)
            && Advanced(Drop(q, q[k].id), t.sched.queue, now)
            && (forall x :: x in t.sched.queue ==> x.id != q[k].id)
            && (r == 1 ==> var u := DownloadEnd(t.sched, q[k].id, later);
                           Balanced(u, detached) && Bounded(u))
  {
    var q := p.sched.queue;
    var qid := q[k].id;
    FindIdUnique(q, k);
    RunningCountDrop(q, k);
    UniqueDrop(q, qid);
    var dropped := p.sched.(queue := Drop(q, qid));
    ProcessNextKeeps(dropped, now);
    ProcessNextEffects(dropped, now);
    ProcessNextAbsent(dropped, qid, now);
    var t := ProcessNext(dropped, now);
    if q[k].status == Running {
      FindIdAbsent(t.queue, qid);
      EndUnqueued(t, qid, later);
    }
  }

  // ------------------------------------------------------- leaveRoom's releases

  /**
   * `leaveRoom` as written releases twice for a running room download with
   * an active transfer: once in the queue filter and once more when the
   * transfer is cancelled, and the download, which goes on, releases a third
   * time when it ends. With one such download and one global download
   * running, the handler alone takes the count to zero while the global
   * download still runs, so the next three queued items would start beside it.
   */
  lemma LeaveRoomDoubleRelease(room: RoomId, f: FileRecord, g: FileRecord, now: int)
    requires room != "" && f.roomId == Some(room) && g.roomId == None
    ensures var a := QueueItem(1, f, 1, f.size, 0, Some(0), None, Running);
            var b := QueueItem(2, g, 1, g.size, 0, Some(0), None, Running);
            var sched := Sched([a, b], {1, 2}, [], "FCFS", PageMaxConcurrent, 2);
            var session := Session(None, Some(room), [], map[], map["t" := Transfer("download", f.id, Some(room))], []);
            var t := LeaveRoomStep(Page(session, sched), now).sched;
            && Accounted(sched) && Bounded(sched)
            && t.queue == [b] && t.currentCount == 0 && RunningCount(t.queue) == 1
  {
    var a := QueueItem(1, f, 1, f.size, 0, Some(0), None, Running);
    var b := QueueItem(2, g, 1, g.size, 0, Some(0), None, Running);
    var sched := Sched([a, b], {1, 2}, [], "FCFS", PageMaxConcurrent, 2);
    var ts := map["t" := Transfer("download", f.id, Some(room))];
    assert FirstWaiting([a, b]) == None;
    var s1 := sched.(currentCount := 1);
    assert Released(sched, now) == s1;
    assert RoomFilter(s1, room, now, 2) == (s1, []);
    assert [1] + [] == [1];
    assert RoomFilter(s1, room, now, 1) == (s1, [1]);
    assert RoomFilter(sched, room, now, 0) == (s1, [1]);
    assert LeaveQueue(sched, room, now) == s1.(queue := [b]);
    assert RoomTransfers(ts, room) == {"t"};
    assert FirstWaiting([b]) == None;
    assert ReleaseTimes(s1.(queue := [b]), 1, now) == s1.(queue := [b], currentCount := 0);
    assert RunningCount([b]) == 1;
  }

  /**
   * `leaveRoom` leaving each slot to its download's own end: the same page,
   * but the room's items leave the queue without any release.
   */
  function LeaveRoomLeavingSlots(p: Page, now: int): Page {
    var s := p.session;
    if !Truthy(s.currentRoomId) then p
    else Page(LeaveRoomStep(p, now).session, p.sched.(queue := Keep(p.sched.queue, OutsideRoom(s.currentRoomId.value))))
  }

  /**
   * Without the releases, the room's running downloads become detached
   * downloads, each holding its slot until it ends; the queue keeps exactly
   * the items outside the room, in their order, the same items the
   * releasing filter keeps.
   */
  lemma LeaveRoomLeavingSlotsKeeps(p: Page, detached: nat, now: int)
    requires UniqueIds(p.sched.queue) && Balanced(p.sched, detached) && Bounded(p.sched)
    ensures var t := LeaveRoomLeavingSlots(p, now);
            && t.session == LeaveRoomStep(p, now).session
            && t.sched.currentCount == p.sched.currentCount && Bounded(t.sched) && UniqueIds(t.sched.queue)
            && (!Truthy(p.session.currentRoomId) ==> t == p)
            && (Truthy(p.session.currentRoomId) ==>
                  var room := p.session.currentRoomId.value;
                  && (forall x :: x in t.sched.queue <==> x in p.sched.queue && x.fileInfo.roomId != Some(room))
                  && Balanced(t.sched, detached + RunningCount(Keep(p.sched.queue, Rejected(OutsideRoom(room)))))
                  && Advanced(t.sched.queue, LeaveRoomStep(p, now).sched.queue, now))
  {
    if Truthy(p.session.currentRoomId) {
      var room := p.session.currentRoomId.value;
      KeepSplitsCount(p.sched.queue, OutsideRoom(room));
      KeepUnique(p.sched.queue, OutsideRoom(room));
      LeaveRoomKept(p, now);
    }
  }

  // ------------------------------------------------------- what leaving a room keeps

  /** The indices from `i` on whose item's file is not in the room, in order. */
  function OutsideIndices(queue: seq<QueueItem>, room: RoomId, i: nat): (r: seq<nat>)
    requires i <= |queue|
    ensures forall n :: 0 <= n < |r| ==> i <= r[n] < |queue|
    decreases |queue| - i
  {
    if i == |queue| then []
    else (if queue[i].fileInfo.roomId == Some(room) then [] else [i]) + OutsideIndices(queue, room, i + 1)
  }

  lemma {:induction false} OutsideIndicesSameFiles(a: seq<QueueItem>, b: seq<QueueItem>, room: RoomId, i: nat)
    requires |a| == |b| && i <= |a| && forall j :: 0 <= j < |a| ==> a[j].fileInfo == b[j].fileInfo
    ensures OutsideIndices(a, room, i) == OutsideIndices(b, room, i)
    decreases |a| - i
  {
    if i < |a| {
      OutsideIndicesSameFiles(a, b, room, i + 1);
    }
  }

  /** The filter keeps the indices of the items outside the room, whatever its releases start. */
  lemma {:induction false} RoomFilterIndices(s: Sched, room: RoomId, now: int, i: nat)
    requires i <= |s.queue|
    ensures RoomFilter(s, room, now, i).1 == OutsideIndices(s.queue, room, i)
    decreases |s.queue| - i
  {
    if i < |s.queue| {
      var s1 := FilterOne(s, room, now, i);
      ReleasedShape(s, now);
      RoomFilterIndices(s1, room, now, i + 1);
      OutsideIndicesSameFiles(s1.queue, s.queue, room, i + 1);
    }
  }

  /** The filter's releases only start waiting items. */
  lemma {:induction false} RoomFilterAdvanced(s: Sched, room: RoomId, now: int, i: nat)
    requires i <= |s.queue| && UniqueIds(s.queue)
    ensures Advanced(s.queue, RoomFilter(s, room, now, i).0.queue, now)
    decreases |s.queue| - i
  {
    if i < |s.queue| {
      var s1 := FilterOne(s, room, now, i);
      ReleasedAdvanced(s, now);
      RoomFilterAdvanced(s1, room, now, i + 1);
      AdvancedTrans(s.queue, s1.queue, RoomFilter(s, room, now, i).0.queue, now);
    }
  }

  /** Picking the outside indices is filtering by the room. */
  lemma {:induction false} PickOutside(queue: seq<QueueItem>, room: RoomId, i: nat)
    requires i <= |queue|
    ensures Pick(queue, OutsideIndices(queue, room, i)) == Keep(queue[i..], OutsideRoom(room))
    decreases |queue| - i
  {
    if i < |queue| {
      PickOutside(queue, room, i + 1);
      KeepOutsideStep(queue, room, i);
      if queue[i].fileInfo.roomId != Some(room) {
        PickCons(queue, i, OutsideIndices(queue, room, i + 1));
      }
    } else {
      assert queue[i..] == [];
    }
  }

  /** One step of the room filter over a suffix of the queue. */
  lemma KeepOutsideStep(queue: seq<QueueItem>, room: RoomId, i: nat)
    requires i < |queue|
    ensures Keep(queue[i..], OutsideRoom(room))
            == (if queue[i].fileInfo.roomId == Some(room) then [] else [queue[i]]) + Keep(queue[i + 1..], OutsideRoom(room))
  {
    assert queue[i..][1..] == queue[i + 1..];
  }

  /** One step of `Pick`. */
  lemma PickCons(queue: seq<QueueItem>, i: nat, rest: seq<nat>)
    requires i < |queue| && forall n :: 0 <= n < |rest| ==> rest[n] < |queue|
    ensures Pick(queue, [i] + rest) == [queue[i]] + Pick(queue, rest)
  {
  }

  lemma PickAdvanced(a: seq<QueueItem>, b: seq<QueueItem>, kept: seq<nat>, now: int)
    requires Advanced(a, b, now) && forall n :: 0 <= n < |kept| ==> kept[n] < |a|
    ensures Advanced(Pick(a, kept), Pick(b, kept), now)
  {
  }

  /**
   * `leaveRoom`'s filter keeps exactly the items outside the room, in their
   * order; the releases inside it only start waiting items among them.
   */
  lemma LeaveQueueKept(s: Sched, room: RoomId, now: int)
    requires UniqueIds(s.queue)
    ensures Advanced(Keep(s.queue, OutsideRoom(room)), LeaveQueue(s, room, now).queue, now)
  {
    var r := RoomFilter(s, room, now, 0);
    RoomFilterIndices(s, room, now, 0);
    RoomFilterAdvanced(s, room, now, 0);
    PickAdvanced(s.queue, r.0.queue, r.1, now);
    PickOutside(s.queue, room, 0);
    assert s.queue[0..] == s.queue;
  }

  /**
   * After `leaveRoom` in a room, the queue holds exactly the items outside
   * the room, in their order, some waiting ones started by the releases.
   */
  lemma LeaveRoomKept(p: Page, now: int)
    requires UniqueIds(p.sched.queue) && Truthy(p.session.currentRoomId)
    ensures var room := p.session.currentRoomId.value;
            var t := LeaveRoomStep(p, now).sched;
            && Advanced(Keep(p.sched.queue, OutsideRoom(room)), t.queue, now)
            && (forall x :: x in t.queue ==> x.fileInfo.roomId != Some(room))
            && UniqueIds(t.queue)
  {
    var room := p.session.currentRoomId.value;
    var kept := Keep(p.sched.queue, OutsideRoom(room));
    var lq := LeaveQueue(p.sched, room, now);
    var n := |RoomTransfers(p.session.activeTransfers, room)|;
    LeaveQueueKept(p.sched, room, now);
    KeepUnique(p.sched.queue, OutsideRoom(room));
    AdvancedUnique(kept, lq.queue, now);
    ReleaseTimesAdvanced(lq, n, now);
    var t := ReleaseTimes(lq, n, now);
    AdvancedTrans(kept, lq.queue, t.queue, now);
    AdvancedCount(kept, t.queue, now);
    forall x | x in t.queue ensures x.fileInfo.roomId != Some(room) {
      var j :| 0 <= j < |t.queue| && t.queue[j] == x;
      assert kept[j] in kept;
    }
  }

  // ------------------------------------------------------- drag and drop

  lemma MovedItems(queue: seq<QueueItem>, from: nat, to: nat)
    requires from < |queue| && to < |queue|
    ensures var m := Moved(queue, from, to);
            && |m| == |queue| && m[to] == queue[from]
            && multiset(m) == multiset(queue)
            && RunningCount(m) == RunningCount(queue)
  {
    MovedMultiset(queue, from, to);
    MovedCount(queue, from, to);
  }

  lemma MovedMultiset(queue: seq<QueueItem>, from: nat, to: nat)
    requires from < |queue| && to < |queue|
    ensures multiset(Moved(queue, from, to)) == multiset(queue)
  {
    var rest := queue[..from] + queue[from + 1..];
    assert queue == queue[..from] + [queue[from]] + queue[from + 1..];
    assert multiset(queue) == multiset(rest) + multiset{queue[from]};
    assert rest == rest[..to] + rest[to..];
    assert multiset(rest) == multiset(rest[..to]) + multiset(rest[to..]);
  }

  lemma MovedCount(queue: seq<QueueItem>, from: nat, to: nat)
    requires from < |queue| && to < |queue|
    ensures RunningCount(Moved(queue, from, to)) == RunningCount(queue)
  {
    var rest := queue[..from] + queue[from + 1..];
    assert rest == rest[..to] + rest[to..];
    RunningCountRemoveAt(queue, from);
    RunningCountSplit(rest[..to] + [queue[from]], rest[to..]);
    RunningCountSplit(rest[..to], [queue[from]]);
    RunningCountSplit(rest[..to], rest[to..]);
  }

  lemma MovedUnique(queue: seq<QueueItem>, from: nat, to: nat)
    requires from < |queue| && to < |queue| && UniqueIds(queue)
    ensures UniqueIds(Moved(queue, from, to))
  {
    UniqueRemoveAt(queue, from);
    var rest := queue[..from] + queue[from + 1..];
    var m := Moved(queue, from, to);
    forall x | x in rest ensures x.id != queue[from].id {
      var j :| 0 <= j < |rest| && rest[j] == x;
      assert rest[j] == queue[if j < from then j else j + 1];
    }
    forall i, j | 0 <= i < j < |m| ensures m[i].id != m[j].id {
      var i' := if i < to then i else i - 1;
      var j' := if j <= to then j else j - 1;
      if i == to {
        assert m[j] == rest[j'] && rest[j'] in rest;
      } else if j == to {
        assert m[i] == rest[i'] && rest[i'] in rest;
      } else {
        assert m[i] == rest[i'] && m[j] == rest[j'] && i' < j';
      }
    }
  }

  lemma {:induction false} RunningCountSameStatus(a: seq<QueueItem>, b: seq<QueueItem>)
    requires |a| == |b| && forall i :: 0 <= i < |a| ==> a[i].status == b[i].status
    ensures RunningCount(a) == RunningCount(b)
  {
    if a != [] {
      RunningCountSameStatus(a[1..], b[1..]);
    }
  }

  /**
   * Renumbering makes the priorities fall strictly from the queue's length to
   * one while keeping every other field, so a later switch to the priority
   * policy leaves the order as it is.
   */
  lemma ReprioritisedEffects(m: seq<QueueItem>)
    requires UniqueIds(m)
    ensures var r := Reprioritised(m);
            && |r| == |m| && UniqueIds(r) && RunningCount(r) == RunningCount(m)
            && (forall i :: 0 <= i < |r| ==> r[i].priority == |r| - i && r[i] == m[i].(priority := |r| - i))
            && QueueOrder("Priority", r) == r
  {
    var r := Reprioritised(m);
    RunningCountSameStatus(r, m);
    assert UniqueIds(r) by {
      forall i, j | 0 <= i < j < |r| ensures r[i].id != r[j].id {
        assert r[i].id == m[i].id && r[j].id == m[j].id;
      }
    }
    SortByStrictlySorted("Priority", r);
  }

  /**
   * A drop that moves something puts the dragged item at the target's index,
   * keeps the others in their order around it, renumbers the priorities, and
   * keeps the running items and unique ids; any other drop changes nothing.
   */
  lemma QueueDropEffects(queue: seq<QueueItem>, dragged: Option<QueueId>, target: QueueId)
    requires UniqueIds(queue)
    ensures var r := QueueDropStep(queue, dragged, target);
            && |r| == |queue| && UniqueIds(r) && RunningCount(r) == RunningCount(queue)
    ensures var r := QueueDropStep(queue, dragged, target);
            if TruthyNumber(dragged) && dragged.value != target
               && FindId(queue, dragged.value).Some? && FindId(queue, target).Some?
            then
              var from := FindId(queue, dragged.value).value;
              var to := FindId(queue, target).value;
              && r[to].id == dragged.value
              && multiset(Moved(queue, from, to)) == multiset(queue)
              && (forall i :: 0 <= i < |r| ==> r[i].priority == |r| - i && r[i] == Moved(queue, from, to)[i].(priority := |r| - i))
              && QueueOrder("Priority", r) == r
            else r == queue
  {
    if TruthyNumber(dragged) && dragged.value != target
       && FindId(queue, dragged.value).Some? && FindId(queue, target).Some? {
      var from := FindId(queue, dragged.value).value;
      var to := FindId(queue, target).value;
      MovedItems(queue, from, to);
      MovedUnique(queue, from, to);
      ReprioritisedEffects(Moved(queue, from, to));
    }
  }

  // ------------------------------------------------------- the page

  /** `leaveRoom`'s queue filter, on the page's two scheduler objects. */
  method DropRoomItems(q: DownloadQueue, sem: Semaphore, room: RoomId, now: int)
    modifies q, sem
    ensures Snap(q, sem) == LeaveQueue(old(Snap(q, sem)), room, now)
  {
    ghost var goal := RoomFilter(Snap(q, sem), room, now, 0);
    var n := |q.queue|;
    var kept: seq<nat> := [];
    var i := 0;
    assert kept + goal.1 == goal.1;
    while i < n
      invariant 0 <= i <= n == |q.queue|
      invariant forall m :: 0 <= m < |kept| ==> kept[m] < i
      invariant goal == (RoomFilter(Snap(q, sem), room, now, i).0, kept + RoomFilter(Snap(q, sem), room, now, i).1)
    {
      ghost var rest := RoomFilter(FilterOne(Snap(q, sem), room, now, i), room, now, i + 1);
      var isRoomFile := FilterItem(q, sem, room, now, i);
      if !isRoomFile {
        assert kept + ([i] + rest.1) == (kept + [i]) + rest.1;
        kept := kept + [i];
      }
      i := i + 1;
    }
    q.queue := Pick(q.queue, kept);
  }

  /** One call of `leaveRoom`'s filter callback; says whether the item is a room item. */
  method FilterItem(q: DownloadQueue, sem: Semaphore, room: RoomId, now: int, i: nat) returns (isRoomFile: bool)
    requires i < |q.queue|
    modifies q, sem
    ensures isRoomFile == (old(q.queue[i]).fileInfo.roomId == Some(room))
    ensures Snap(q, sem) == FilterOne(old(Snap(q, sem)), room, now, i)
    ensures |q.queue| == old(|q.queue|)
  {
    ReleasedShape(Snap(q, sem), now);
    var item := q.queue[i];
    isRoomFile := item.fileInfo.roomId == Some(room);
    if isRoomFile && item.status == Running {
      sem.Release(q, now);
    }
  }

  /** `downloadQueue.schedulingAlgorithm = select.value; sortQueue()`, when the select exists. */
  method ChangeSchedulingAlgorithm(select: Option<string>, q: DownloadQueue)
    modifies q
    ensures select.None? ==> q.schedulingAlgorithm == old(q.schedulingAlgorithm) && q.queue == old(q.queue)
    ensures select.Some? ==> q.schedulingAlgorithm == select.value && q.queue == QueueOrder(select.value, old(q.queue))
    ensures q.activeDownloads == old(q.activeDownloads) && q.completedDownloads == old(q.completedDownloads)
  {
    if select.Some? {
      q.schedulingAlgorithm := select.value;
      q.SortQueue();
    }
  }

  /** `semaphore.maxConcurrent = parseInt(select.value)`, when the select exists; the count is left alone. */
  method ChangeSemaphoreLimit(select: Option<int>, sem: Semaphore)
    modifies sem
    ensures sem.maxConcurrent == (if select.Some? then select.value else old(sem.maxConcurrent))
    ensures sem.currentCount == old(sem.currentCount)
  {
    if select.Some? {
      sem.maxConcurrent := select.value;
    }
  }

  /** `handleQueueDrop` on the page's queue. */
  method HandleQueueDrop(q: DownloadQueue, dragged: Option<QueueId>, target: QueueId)
    modifies q`queue
    ensures q.queue == QueueDropStep(old(q.queue), dragged, target)
  {
    if !TruthyNumber(dragged) || dragged.value == target {
      return;
    }
    var from := FindId(q.queue, dragged.value);
    var to := FindId(q.queue, target);
    if from.None? || to.None? {
      return;
    }
    q.queue := Moved(q.queue, from.value, to.value);
    ghost var moved := q.queue;
    var i := 0;
    while i < |q.queue|
      invariant |q.queue| == |moved| && 0 <= i <= |moved|
      invariant forall j :: 0 <= j < i ==> q.queue[j] == moved[j].(priority := |moved| - j)
      invariant forall j :: i <= j < |moved| ==> q.queue[j] == moved[j]
    {
      q.queue := q.queue[i := q.queue[i].(priority := |q.queue| - i)];
      i := i + 1;
    }
  }

  /** The page's globals that these handlers use. */
  class Client {
    var myPeerId: Option<SocketId>
    var currentRoomId: Option<RoomId>
    var availableFiles: seq<FileRecord>
    var mySharedFiles: map<FileId, Option<RoomId>>
    var activeTransfers: map<TransferId, Transfer>
    var leaveRequests: seq<RoomId>

    function View(): Session
      reads this
    {
      Session(myPeerId, currentRoomId, availableFiles, mySharedFiles, activeTransfers, leaveRequests)
    }

    constructor ()
      ensures View() == Session(None, None, [], map[], map[], [])
    {
      myPeerId := None;
      currentRoomId := None;
      availableFiles := [];
      mySharedFiles := map[];
      activeTransfers := map[];
      leaveRequests := [];
    }

    method FileAvailable(file: FileRecord)
      modifies this`availableFiles
      ensures View() == FileAvailableStep(old(View()), file)
    {
      if Some(file.peerId) != myPeerId {
        if Truthy(currentRoomId) {
          if file.roomId == currentRoomId {
            availableFiles := availableFiles + [file];
          }
        } else if !Truthy(file.roomId) {
          availableFiles := availableFiles + [file];
        }
      }
    }

    method FilesList(files: seq<FileRecord>, q: DownloadQueue, sem: Semaphore)
      modifies this`availableFiles, q`queue
      ensures Page(View(), Snap(q, sem)) == FilesListStep(old(Page(View(), Snap(q, sem))), files)
    {
      availableFiles := Others(files, myPeerId);
      var ids := set f | f in availableFiles :: f.id;
      q.queue := Keep(q.queue, StillListed(ids));
    }

    /** Cancels each listed transfer with one release, in any order. */
    method CancelTransfers(cancelled: set<TransferId>, q: DownloadQueue, sem: Semaphore, now: int)
      modifies this`activeTransfers, q, sem
      ensures activeTransfers == old(activeTransfers) - cancelled
      ensures Snap(q, sem) == ReleaseTimes(old(Snap(q, sem)), |cancelled|, now)
    {
      ghost var s0 := Snap(q, sem);
      var todo := cancelled;
      while todo != {}
        invariant todo <= cancelled
        invariant activeTransfers == old(activeTransfers) - (cancelled - todo)
        invariant ReleaseTimes(Snap(q, sem), |todo|, now) == ReleaseTimes(s0, |cancelled|, now)
        decreases |todo|
      {
        var t :| t in todo;
        activeTransfers := activeTransfers - {t};
        sem.Release(q, now);
        todo := todo - {t};
      }
    }

    method FileRemoved(fileId: FileId, q: DownloadQueue, sem: Semaphore, now: int)
      modifies this`availableFiles, this`mySharedFiles, this`activeTransfers, q, sem
      ensures Page(View(), Snap(q, sem)) == FileRemovedStep(old(Page(View(), Snap(q, sem))), fileId, now)
    {
      var k := FindRecord(availableFiles, fileId);
      if k.Some? {
        availableFiles := availableFiles[..k.value] + availableFiles[k.value + 1..];
      }
      mySharedFiles := mySharedFiles - {fileId};
      var j := FindQueued(q.queue, fileId);
      if j.Some? {
        q.queue := q.queue[..j.value] + q.queue[j.value + 1..];
      }
      var cancelled := set t | t in activeTransfers && activeTransfers[t].kind == "download" && activeTransfers[t].fileId == fileId;
      CancelTransfers(cancelled, q, sem, now);
    }

    method LeaveRoom(q: DownloadQueue, sem: Semaphore, now: int)
      modifies this, q, sem
      ensures Page(View(), Snap(q, sem)) == LeaveRoomStep(old(Page(View(), Snap(q, sem))), now)
    {
      if !Truthy(currentRoomId) {
        return;
      }
      var room := currentRoomId.value;
      var shares := set f | f in mySharedFiles && mySharedFiles[f] == Some(room);
      mySharedFiles := mySharedFiles - shares;
      DropRoomItems(q, sem, room, now);
      var cancelled := set t | t in activeTransfers && activeTransfers[t].roomId == Some(room);
      CancelTransfers(cancelled, q, sem, now);
      leaveRequests := leaveRequests + [room];
      currentRoomId := None;
      availableFiles := [];
    }

    method RemoveFromQueue(itemId: QueueId, q: DownloadQueue, sem: Semaphore, now: int)
      modifies this`activeTransfers, q, sem
      ensures Page(View(), Snap(q, sem)) == RemoveFromQueueStep(old(Page(View(), Snap(q, sem))), itemId, now)
    {
      var k := FindId(q.queue, itemId);
      if k.None? {
        return;
      }
      var item := q.queue[k.value];
      if item.status == Running {
        sem.Release(q, now);
        activeTransfers := activeTransfers - (set t | t in activeTransfers && activeTransfers[t].fileId == item.fileInfo.id);
      }
      q.queue := Drop(q.queue, itemId);
      q.ProcessNextInQueue(sem, now);
    }
  }
}
