/** The buffer cache of bio.c over one disk.

    Each method is one atomic section of the source: what happens while `bcache.lock` is
    held, or while the caller holds the buffer's sleep lock. `Valid` holds between them, so
    it holds under every interleaving of callers that keep the stated discipline: a buffer
    is modified only while locked, and a modified buffer is logged or written to disk
    before it is released. */
module BufferCache {
  import opened Collections
  import opened Sectors
  import opened LruRing

  const ROOTDEV: nat := 1

  datatype Buf = Buf(valid: bool, dev: nat, blockno: nat, refcnt: nat, locked: bool, data: Sector)

  predicate Caches(b: Buf, dev: nat, blockno: nat) {
    b.dev == dev && b.blockno == blockno
  }

  /** Buffer i's own part of the invariant. `refcnt` counts the processes waiting for it,
      its lock holder and its pin; only never-used buffers have device 0; a valid buffer
      that is not being modified agrees with the plain block map `view`. */
  ghost predicate Good(b: Buf, i: nat, waiters: nat, view: Disk, pins: map<nat, nat>, dirty: set<nat>) {
    && b.refcnt == waiters + (if b.locked then 1 else 0) + (if Pins(pins, b.blockno, i) then 1 else 0)
    && (b.dev == ROOTDEV || (b.dev == 0 && b.refcnt == 0 && !b.valid))
    && (b.dev == ROOTDEV ==> b.blockno < |view|)
    && (b.valid && i !in dirty ==> b.data == view[b.blockno])
    && (i in dirty ==> b.locked && b.valid)
    && (Pins(pins, b.blockno, i) ==> b.valid)
  }

  predicate Pins(pins: map<nat, nat>, blockno: nat, i: nat) {
    blockno in pins && pins[blockno] == i
  }

  /** At most one buffer holds a block. */
  ghost predicate Unique(buf: seq<Buf>) {
    forall i, j {:trigger Apart(buf[i], buf[j])} :: 0 <= i < j < |buf| ==> Apart(buf[i], buf[j])
  }

  /** Two buffers hold different blocks, or neither has been used. */
  predicate Apart(b: Buf, c: Buf) {
    b.dev == c.dev && b.blockno == c.blockno ==> b.dev == 0
  }

  /** Outside pinned blocks the disk agrees with the block map; a pinned block stays in
      its buffer. */
  ghost predicate PinsHeld(buf: seq<Buf>, disk: Disk, view: Disk, pins: map<nat, nat>) {
    && |view| == |disk|
    && (forall no {:trigger OnDisk(disk, view, no)} :: 0 <= no < |disk| && no !in pins ==> OnDisk(disk, view, no))
    && (forall no :: no in pins ==> no < |disk| && pins[no] < |buf| && Caches(buf[pins[no]], ROOTDEV, no))
  }

  /** The disk holds the latest contents of block no. */
  predicate OnDisk(disk: Disk, view: Disk, no: nat) {
    no < |disk| && no < |view| && disk[no] == view[no]
  }

  ghost predicate Coherent(buf: seq<Buf>, waiting: seq<nat>, disk: Disk, view: Disk,
                           pins: map<nat, nat>, dirty: set<nat>)
  {
    && |buf| == |waiting| == NBUF
    && (forall i :: 0 <= i < NBUF ==> Good(buf[i], i, waiting[i], view, pins, dirty))
    && (forall i :: i in dirty ==> i < NBUF)
    && Unique(buf)
    && PinsHeld(buf, disk, view, pins)
  }

  /** Two buffers that hold the same block are the same buffer. */
  lemma SameBuffer(buf: seq<Buf>, i: nat, j: nat, no: nat)
    requires Unique(buf) && i < |buf| && j < |buf|
    requires Caches(buf[i], ROOTDEV, no) && Caches(buf[j], ROOTDEV, no)
    ensures i == j
  {
    assert i < j ==> Apart(buf[i], buf[j]);
    assert j < i ==> Apart(buf[j], buf[i]);
  }

  lemma SameKeysUnique(buf: seq<Buf>, buf': seq<Buf>)
    requires Unique(buf) && |buf'| == |buf|
    requires forall j :: 0 <= j < |buf| ==> Caches(buf'[j], buf[j].dev, buf[j].blockno)
    ensures Unique(buf')
  {
    forall j, k | 0 <= j < k < |buf| ensures Apart(buf'[j], buf'[k]) {
      assert Apart(buf[j], buf[k]);
    }
  }

  /** An update of one buffer that keeps its key keeps the whole invariant. */
  lemma UpdateKeeps(buf: seq<Buf>, waiting: seq<nat>, disk: Disk, view: Disk, pins: map<nat, nat>,
                    dirty: set<nat>, i: nat, b: Buf, w: nat, dirty': set<nat>)
    requires Coherent(buf, waiting, disk, view, pins, dirty) && i < NBUF
    requires Caches(b, buf[i].dev, buf[i].blockno)
    requires dirty' - {i} == dirty - {i}
    requires Good(b, i, w, view, pins, dirty')
    ensures Coherent(buf[i := b], waiting[i := w], disk, view, pins, dirty')
  {
    var buf' := buf[i := b];
    forall j | 0 <= j < NBUF
      ensures Good(buf'[j], j, waiting[i := w][j], view, pins, dirty')
      ensures buf'[j].dev == buf[j].dev && buf'[j].blockno == buf[j].blockno
    {
      assert j in dirty' - {i} <==> j in dirty - {i};
    }
    forall j | j in dirty' ensures j < NBUF {
      assert j in dirty' - {i} <==> j in dirty - {i};
    }
    SameKeysUnique(buf, buf');
  }

  /** Recycling an unreferenced buffer for a block no buffer holds keeps the invariant. */
  lemma RecycleKeeps(buf: seq<Buf>, waiting: seq<nat>, disk: Disk, view: Disk, pins: map<nat, nat>,
                     dirty: set<nat>, i: nat, blockno: nat)
    requires Coherent(buf, waiting, disk, view, pins, dirty) && i < NBUF && blockno < |disk|
    requires buf[i].refcnt == 0
    requires forall j :: 0 <= j < NBUF ==> !Caches(buf[j], ROOTDEV, blockno)
    ensures Coherent(buf[i := buf[i].(dev := ROOTDEV, blockno := blockno, valid := false, refcnt := 1)],
                     waiting[i := waiting[i] + 1], disk, view, pins, dirty)
  {
    assert Good(buf[i], i, waiting[i], view, pins, dirty);
    assert blockno !in pins;
    var buf' := buf[i := buf[i].(dev := ROOTDEV, blockno := blockno, valid := false, refcnt := 1)];
    forall no | no in pins ensures Caches(buf'[pins[no]], ROOTDEV, no) {
      assert Good(buf[pins[no]], pins[no], waiting[pins[no]], view, pins, dirty);
      assert pins[no] != i;
    }
    forall j, k | 0 <= j < k < NBUF ensures Apart(buf'[j], buf'[k]) {
      assert Apart(buf[j], buf[k]);
    }
    assert PinsHeld(buf', disk, view, pins);
  }

  /** Pinning or unpinning the block of one locked valid buffer keeps the invariant. */
  lemma PinKeeps(buf: seq<Buf>, waiting: seq<nat>, disk: Disk, view: Disk, pins: map<nat, nat>,
                 dirty: set<nat>, i: nat, refcnt: nat, pins': map<nat, nat>)
    requires Coherent(buf, waiting, disk, view, pins, dirty) && i < NBUF
    requires buf[i].locked && buf[i].valid
    requires var no := buf[i].blockno;
             || (no !in pins && pins' == pins[no := i] && refcnt == buf[i].refcnt + 1)
             || (Pins(pins, no, i) && pins' == pins - {no} && refcnt == buf[i].refcnt - 1
                 && no < |disk| && no < |view| && disk[no] == view[no])
    ensures Coherent(buf[i := buf[i].(refcnt := refcnt)], waiting, disk, view, pins', dirty)
  {
    var buf' := buf[i := buf[i].(refcnt := refcnt)];
    assert Good(buf[i], i, waiting[i], view, pins, dirty);
    forall j | 0 <= j < NBUF
      ensures Good(buf'[j], j, waiting[j], view, pins', dirty)
    {
      assert Good(buf[j], j, waiting[j], view, pins, dirty);
      if j != i {
        assert Pins(pins', buf[j].blockno, j) <==> Pins(pins, buf[j].blockno, j);
      }
    }
    assert PinsHeld(buf', disk, view, pins') by {
      forall no | 0 <= no < |disk| && no !in pins' ensures OnDisk(disk, view, no) {
        assert no !in pins ==> OnDisk(disk, view, no);
      }
    }
    SameKeysUnique(buf, buf');
  }

  /** Making a held buffer's data the latest contents of its block, on disk too or under
      a pin, keeps the invariant. */
  lemma PublishKeeps(buf: seq<Buf>, waiting: seq<nat>, disk: Disk, view: Disk, pins: map<nat, nat>,
                     dirty: set<nat>, i: nat, disk': Disk)
    requires Coherent(buf, waiting, disk, view, pins, dirty) && i < NBUF
    requires buf[i].locked && buf[i].valid
    requires buf[i].blockno < |disk|
    requires (disk' == disk && buf[i].blockno in pins) || disk' == disk[buf[i].blockno := buf[i].data]
    ensures buf[i].blockno < |view|
    ensures Coherent(buf, waiting, disk', view[buf[i].blockno := buf[i].data], pins, dirty - {i})
  {
    var view' := view[buf[i].blockno := buf[i].data];
    assert Good(buf[i], i, waiting[i], view, pins, dirty);
    forall j | 0 <= j < NBUF ensures Good(buf[j], j, waiting[j], view', pins, dirty - {i}) {
      assert Good(buf[j], j, waiting[j], view, pins, dirty);
      if j != i {
        assert Apart(buf[if i < j then i else j], buf[if i < j then j else i]);
      }
    }
    forall no | 0 <= no < |disk'| && no !in pins ensures OnDisk(disk', view', no) {
      assert OnDisk(disk, view, no);
    }
  }

  /** What a process that holds the buffers in `mine` may rely on whatever others do: those
      buffers are as it left them but for their reference counts. */
  ghost predicate Spared(mine: set<nat>, buf: seq<Buf>, dirty: set<nat>, disk: Disk, history: seq<Disk>,
                         buf': seq<Buf>, dirty': set<nat>, disk': Disk, history': seq<Disk>) {
    && |buf'| == |buf| && |disk'| == |disk| && history <= history'
    && (forall i {:trigger Same(buf, buf', i)} :: i in mine && i < |buf| ==> Same(buf, buf', i))
    && (forall i :: i in mine ==> (i in dirty' <==> i in dirty))
  }

  predicate Same(buf: seq<Buf>, buf': seq<Buf>, i: nat) {
    i < |buf| && i < |buf'| && buf'[i].(refcnt := 0) == buf[i].(refcnt := 0)
  }

  /** However many sections others run. */
  lemma SparedTrans(mine: set<nat>, buf: seq<Buf>, dirty: set<nat>, disk: Disk, history: seq<Disk>,
                    buf1: seq<Buf>, dirty1: set<nat>, disk1: Disk, history1: seq<Disk>,
                    buf2: seq<Buf>, dirty2: set<nat>, disk2: Disk, history2: seq<Disk>)
    requires Spared(mine, buf, dirty, disk, history, buf1, dirty1, disk1, history1)
    requires Spared(mine, buf1, dirty1, disk1, history1, buf2, dirty2, disk2, history2)
    ensures Spared(mine, buf, dirty, disk, history, buf2, dirty2, disk2, history2)
  {
    forall i | i in mine && i < |buf| ensures Same(buf, buf2, i) {
      assert Same(buf, buf1, i) && Same(buf1, buf2, i);
    }
  }

  /** No buffer that somebody refers to is given to another block. */
  ghost predicate ReferencedKept(buf: seq<Buf>, buf': seq<Buf>) {
    |buf'| == |buf| && forall i :: 0 <= i < |buf| && buf[i].refcnt > 0 ==> Caches(buf'[i], buf[i].dev, buf[i].blockno)
  }

  class Cache {
    var disk: Disk                    // stable storage
    var buf: seq<Buf>
    var prev: seq<nat>
    var next: seq<nat>

    ghost var history: seq<Disk>      // every state the disk has been in since boot
    ghost var order: seq<nat>         // the list, most recently released first
    ghost var stamp: seq<nat>         // when each buffer was last released for good
    ghost var clock: nat
    ghost var waiting: seq<nat>       // processes that hold a reference but not the lock
    ghost var view: Disk              // latest logged or written contents of every block
    ghost var pins: map<nat, nat>     // pinned blocks and the buffers that hold them
    ghost var dirty: set<nat>         // buffers modified since they last agreed with view

    ghost predicate Valid()
      reads this
    {
      && Linked(prev, next, order) && Full(order) && Recent(order, stamp, clock)
      && Coherent(buf, waiting, disk, view, pins, dirty)
      && |history| > 0 && history[|history| - 1] == disk
    }

    /** What a process may rely on while others only read: the block map, the disk and
        the buffers in `mine` stay as they are. */
    twostate predicate OnlyReadersRan(mine: set<nat>)
      reads this
    {
      && disk == old(disk) && view == old(view) && pins == old(pins)
      && history == old(history) && dirty == old(dirty)
      && |buf| == |old(buf)|
      && forall i :: i in mine && i < |buf| ==> buf[i].(refcnt := 0) == old(buf[i]).(refcnt := 0)
    }

    /** The state of bget's panic: somebody refers to every buffer. */
    ghost predicate Exhausted()
      reads this
    {
      |buf| == NBUF && forall i :: 0 <= i < NBUF ==> buf[i].refcnt > 0
    }

    /** One section of another process, on buffer b, leaves alone whoever does not hold b. */
    twostate predicate OthersRan(mine: set<nat>)
      reads this
    {
      Spared(mine, old(buf), old(dirty), old(disk), old(history), buf, dirty, disk, history)
    }

    twostate predicate Section(b: nat)
      reads this
    {
      && ReferencedKept(old(buf), buf)
      && forall mine: set<nat> {:trigger OthersRan(mine)} :: b !in mine ==> OthersRan(mine)
    }

    /** Some buffer holds the block, or some buffer is free for it. */
    ghost predicate Available(dev: nat, blockno: nat)
      reads this
    {
      exists i :: 0 <= i < |buf| && (buf[i].refcnt == 0 || Caches(buf[i], dev, blockno))
    }

    /** Nobody has the block's buffer locked. */
    ghost predicate Unlocked(dev: nat, blockno: nat)
      reads this
    {
      forall i :: 0 <= i < |buf| && Caches(buf[i], dev, blockno) ==> !buf[i].locked
    }

    /** binit, on a machine that has just booted with disk contents `d`. */
    constructor (d: Disk)
      ensures Valid()
      ensures disk == d && view == d && pins == map[] && dirty == {} && history == [d]
      ensures forall i :: 0 <= i < NBUF ==> buf[i].refcnt == 0
    {
      disk, view, pins, dirty, history := d, d, map[], {}, [d];
      buf := seq(NBUF, i => Buf(false, 0, 0, 0, false, seq(WORDS, _ => 0)));
      waiting := seq(NBUF, i => 0);
      stamp := seq(NBUF, i => i);
      clock := NBUF;
      prev := seq(NBUF + 1, i => HEAD);
      next := seq(NBUF + 1, i => HEAD);
      order := [];
      new;
      var b := 0;
      while b < NBUF
        invariant b <= NBUF && |order| == b
        invariant Linked(prev, next, order)
        invariant forall k :: 0 <= k < b ==> order[k] == b - 1 - k
        modifies `prev, `next, `order
      {
        PushKeepsCycle(prev, next, order, b);
        assert b !in order;
        prev := prev[b := HEAD];
        prev, next := prev[next[HEAD] := b], next[b := next[HEAD]];
        next := next[HEAD := b];
        order := [b] + order;
        b := b + 1;
      }
      forall c | 0 <= c < NBUF ensures c in order {
        assert order[NBUF - 1 - c] == c;
      }
    }

    /** The locked part of bget: find the block's buffer, or recycle the least recently
        released buffer nobody references; `ok` is false where the source panics. */
    method Ref(dev: nat, blockno: nat) returns (b: nat, ok: bool)
      requires Valid()
      requires dev == ROOTDEV && blockno < |disk|
      modifies `buf, `waiting
      ensures Valid()
      ensures ok ==> b < NBUF && Caches(buf[b], dev, blockno)
      ensures ok ==> waiting == old(waiting)[b := old(waiting[b]) + 1]
      ensures ok ==> buf == old(buf)[b := buf[b]]
      ensures ok && Caches(old(buf[b]), dev, blockno) ==>
                buf[b] == old(buf[b]).(refcnt := old(buf[b]).refcnt + 1)
      ensures ok && !Caches(old(buf[b]), dev, blockno) ==>
                && (forall i :: 0 <= i < NBUF ==> !Caches(old(buf[i]), dev, blockno))
                && old(buf[b]).refcnt == 0 && !buf[b].valid && buf[b].refcnt == 1
                && (forall i :: 0 <= i < NBUF && old(buf[i]).refcnt == 0 ==> stamp[b] <= stamp[i])
      ensures !ok ==> && buf == old(buf) && waiting == old(waiting)
                      && forall i :: 0 <= i < NBUF ==> buf[i].refcnt > 0 && !Caches(buf[i], dev, blockno)
      ensures ok <==> old(Available(dev, blockno))
      ensures ok ==> buf[b].refcnt == old(buf[b]).refcnt + 1 && (old(Unlocked(dev, blockno)) ==> !buf[b].locked)
      ensures ok ==> buf[b].locked == old(buf[b]).locked
      ensures forall mine: set<nat> :: !ok || b !in mine ==> OnlyReadersRan(mine)
      ensures Section(b)
    {
      b := Find(dev, blockno);
      if b != HEAD {
        TakeReference(b);
        return b, true;
      }
      b := LeastRecentlyUsed();
      if b == HEAD {
        return 0, false;
      }
      assert Good(buf[b], b, waiting[b], view, pins, dirty);
      Recycle(b, blockno);
      return b, true;
    }

    method TakeReference(b: nat)
      requires Valid() && b < NBUF && buf[b].dev == ROOTDEV
      modifies `buf, `waiting
      ensures Valid()
      ensures buf == old(buf)[b := old(buf[b]).(refcnt := old(buf[b]).refcnt + 1)]
      ensures waiting == old(waiting)[b := old(waiting[b]) + 1]
    {
      UpdateKeeps(buf, waiting, disk, view, pins, dirty, b, buf[b].(refcnt := buf[b].refcnt + 1),
                  waiting[b] + 1, dirty);
      buf := buf[b := buf[b].(refcnt := buf[b].refcnt + 1)];
      waiting := waiting[b := waiting[b] + 1];
    }

    method Recycle(b: nat, blockno: nat)
      requires Valid() && b < NBUF && blockno < |disk| && buf[b].refcnt == 0
      requires forall i :: 0 <= i < NBUF ==> !Caches(buf[i], ROOTDEV, blockno)
      modifies `buf, `waiting
      ensures Valid()
      ensures buf == old(buf)[b := old(buf[b]).(dev := ROOTDEV, blockno := blockno, valid := false, refcnt := 1)]
      ensures waiting == old(waiting)[b := old(waiting[b]) + 1]
    {
      RecycleKeeps(buf, waiting, disk, view, pins, dirty, b, blockno);
      buf := buf[b := buf[b].(dev := ROOTDEV, blockno := blockno, valid := false, refcnt := 1)];
      waiting := waiting[b := waiting[b] + 1];
    }

    /** First scan of bget, from the most recently used end. */
    method Find(dev: nat, blockno: nat) returns (b: nat)
      requires Valid()
      ensures b != HEAD ==> b < NBUF && Caches(buf[b], dev, blockno)
      ensures b == HEAD ==> forall i :: 0 <= i < NBUF ==> !Caches(buf[i], dev, blockno)
    {
      ghost var k := 0;
      assert LinkAt(prev, next, order, -1);
      b := next[HEAD];
      while b != HEAD
        invariant 0 <= k <= NBUF && b == Node(order, k)
        invariant forall j :: 0 <= j < k ==> !Caches(buf[order[j]], dev, blockno)
        decreases NBUF - k
      {
        if buf[b].dev == dev && buf[b].blockno == blockno {
          return b;
        }
        assert LinkAt(prev, next, order, k);
        b := next[b];
        k := k + 1;
      }
      forall i | 0 <= i < NBUF ensures !Caches(buf[i], dev, blockno) {
        assert i in order;
      }
    }

    /** Second scan of bget, from the least recently used end. */
    method LeastRecentlyUsed() returns (b: nat)
      requires Valid()
      ensures b != HEAD ==> b < NBUF && buf[b].refcnt == 0
      ensures b != HEAD ==> forall i :: 0 <= i < NBUF && buf[i].refcnt == 0 ==> stamp[b] <= stamp[i]
      ensures b == HEAD ==> forall i :: 0 <= i < NBUF ==> buf[i].refcnt > 0
    {
      ghost var k := NBUF - 1;
      assert LinkAt(prev, next, order, k);
      b := prev[HEAD];
      while b != HEAD
        invariant -1 <= k < NBUF && b == Node(order, k)
        invariant forall j :: k < j < NBUF ==> buf[order[j]].refcnt > 0
        decreases k
      {
        if buf[b].refcnt == 0 {
          LeastStamp(k);
          return b;
        }
        assert LinkAt(prev, next, order, k - 1);
        b := prev[b];
        k := k - 1;
      }
      forall i | 0 <= i < NBUF ensures buf[i].refcnt > 0 {
        assert i in order;
      }
    }

    /** The unreferenced buffer nearest the tail has the oldest stamp of all unreferenced ones. */
    lemma LeastStamp(k: nat)
      requires Valid() && k < NBUF
      requires forall j :: k < j < NBUF ==> buf[order[j]].refcnt > 0
      ensures forall i :: 0 <= i < NBUF && buf[i].refcnt == 0 ==> stamp[order[k]] <= stamp[i]
    {
      forall i | 0 <= i < NBUF && buf[i].refcnt == 0 ensures stamp[order[k]] <= stamp[i] {
        assert i in order;
        var j :| 0 <= j < NBUF && order[j] == i;
      }
    }

    /** acquiresleep, at the moment the lock is free. */
    method Acquire(b: nat)
      requires Valid() && b < NBUF
      requires waiting[b] > 0 && !buf[b].locked
      modifies `buf, `waiting
      ensures Valid()
      ensures buf == old(buf)[b := old(buf[b]).(locked := true)]
      ensures waiting == old(waiting)[b := old(waiting[b]) - 1]
      ensures forall mine: set<nat> :: b !in mine ==> OnlyReadersRan(mine)
      ensures Section(b)
    {
      UpdateKeeps(buf, waiting, disk, view, pins, dirty, b, buf[b].(locked := true), waiting[b] - 1, dirty);
      buf := buf[b := buf[b].(locked := true)];
      waiting := waiting[b := waiting[b] - 1];
    }

    /** The rest of bread: read the block from disk unless the buffer already holds it.
        Either way the caller sees the latest contents of the block. */
    method Fill(b: nat)
      requires Valid() && b < NBUF && buf[b].locked && b !in dirty
      modifies `buf
      ensures Valid()
      ensures old(buf[b]).blockno < |view|
      ensures buf == old(buf)[b := old(buf[b]).(valid := true, data := view[old(buf[b]).blockno])]
      ensures forall mine: set<nat> :: b !in mine ==> OnlyReadersRan(mine)
      ensures Section(b)
    {
      assert Good(buf[b], b, waiting[b], view, pins, dirty);
      if buf[b].blockno in pins {
        SameBuffer(buf, b, pins[buf[b].blockno], buf[b].blockno);
      }
      assert !buf[b].valid ==> OnDisk(disk, view, buf[b].blockno);
      UpdateKeeps(buf, waiting, disk, view, pins, dirty, b,
                  buf[b].(valid := true, data := view[buf[b].blockno]), waiting[b], dirty);
      if !buf[b].valid {
        buf := buf[b := buf[b].(data := disk[buf[b].blockno])];
        buf := buf[b := buf[b].(valid := true)];
      }
    }

    /** bread once the lock is free. */
    method LockAndFill(b: nat)
      requires Valid() && b < NBUF && waiting[b] > 0 && !buf[b].locked
      modifies `buf, `waiting
      ensures Valid() && b !in dirty && buf[b].blockno < |view|
      ensures buf == old(buf)[b := old(buf[b]).(locked := true, valid := true, data := view[old(buf[b]).blockno])]
      ensures waiting == old(waiting)[b := old(waiting[b]) - 1]
      ensures forall mine: set<nat> :: b !in mine ==> OnlyReadersRan(mine)
      ensures Section(b)
    {
      assert Good(buf[b], b, waiting[b], view, pins, dirty);
      Acquire(b);
      Fill(b);
    }

    /** A client changes the data of a buffer it holds. */
    method Modify(b: nat, data: Sector)
      requires Valid() && b < NBUF && buf[b].locked && buf[b].valid
      modifies `buf, `dirty
      ensures Valid()
      ensures buf == old(buf)[b := old(buf[b]).(data := data)]
      ensures dirty == old(dirty) + {b}
      ensures Section(b)
    {
      UpdateKeeps(buf, waiting, disk, view, pins, dirty, b, buf[b].(data := data), waiting[b], dirty + {b});
      buf := buf[b := buf[b].(data := data)];
      dirty := dirty + {b};
    }

    /** bwrite: one atomic write of a block the caller holds. */
    method Bwrite(b: nat)
      requires Valid() && b < NBUF && buf[b].locked && buf[b].valid
      modifies `disk, `view, `dirty, `history
      ensures Valid()
      ensures buf[b].blockno < |old(disk)|
      ensures disk == old(disk)[buf[b].blockno := buf[b].data]
      ensures view == old(view)[buf[b].blockno := buf[b].data]
      ensures history == old(history) + [disk]
      ensures dirty == old(dirty) - {b}
      ensures Section(b)
    {
      assert Good(buf[b], b, waiting[b], view, pins, dirty);
      PublishKeeps(buf, waiting, disk, view, pins, dirty, b, disk[buf[b].blockno := buf[b].data]);
      disk := disk[buf[b].blockno := buf[b].data];
      view := view[buf[b].blockno := buf[b].data];
      history := history + [disk];
      dirty := dirty - {b};
    }

    /** brelse's releasesleep: the caller keeps its reference for now. */
    method ReleaseSleep(b: nat)
      requires Valid() && b < NBUF && buf[b].locked && b !in dirty
      modifies `buf, `waiting
      ensures Valid()
      ensures buf == old(buf)[b := old(buf[b]).(locked := false)]
      ensures waiting == old(waiting)[b := old(waiting[b]) + 1]
      ensures forall mine: set<nat> :: b !in mine ==> OnlyReadersRan(mine)
      ensures Section(b)
    {
      UpdateKeeps(buf, waiting, disk, view, pins, dirty, b, buf[b].(locked := false), waiting[b] + 1, dirty);
      buf := buf[b := buf[b].(locked := false)];
      waiting := waiting[b := waiting[b] + 1];
    }

    /** brelse under bcache.lock: the reference goes, and an unreferenced buffer becomes the
        most recently used one. */
    method DropReference(b: nat)
      requires Valid() && b < NBUF && waiting[b] > 0
      modifies `buf, `waiting, `prev, `next, `order, `stamp, `clock
      ensures Valid()
      ensures old(buf[b]).refcnt > 0 && buf == old(buf)[b := old(buf[b]).(refcnt := old(buf[b]).refcnt - 1)]
      ensures waiting == old(waiting)[b := old(waiting[b]) - 1]
      ensures if buf[b].refcnt == 0
              then order[0] == b && stamp[b] == clock && clock == old(clock) + 1
              else order == old(order) && stamp == old(stamp)
      ensures forall i :: 0 <= i < NBUF && i != b ==> stamp[i] == old(stamp[i])
      ensures forall mine: set<nat> :: OnlyReadersRan(mine)
      ensures Section(b)
    {
      assert Good(buf[b], b, waiting[b], view, pins, dirty);
      UpdateKeeps(buf, waiting, disk, view, pins, dirty, b,
                  buf[b].(refcnt := buf[b].refcnt - 1), waiting[b] - 1, dirty);
      buf := buf[b := buf[b].(refcnt := buf[b].refcnt - 1)];
      waiting := waiting[b := waiting[b] - 1];
      assert buf == old(buf)[b := buf[b]];
      if buf[b].refcnt == 0 {
        MoveToFront(b);
      }
    }

    /** brelse, with other processes running in between, unless the caller is `alone`. */
    method Brelse(b: nat, ghost mine: set<nat>, ghost alone: bool)
      requires Valid() && b < NBUF && buf[b].locked && b !in dirty && b !in mine
      modifies this
      ensures Valid() && OthersRan(mine)
      ensures alone ==> Released(b)
    {
      ReleaseSleep(b);
      ghost var buf1, dirty1, disk1, history1 := buf, dirty, disk, history;
      WaitAndDrop(b, mine, alone);
      SparedTrans(mine, old(buf), old(dirty), old(disk), old(history), buf1, dirty1, disk1, history1,
                  buf, dirty, disk, history);
    }

    method WaitAndDrop(b: nat, ghost mine: set<nat>, ghost alone: bool)
      requires Valid() && b < NBUF && waiting[b] > 0 && b !in mine
      modifies this
      ensures Valid() && OthersRan(mine)
      ensures alone ==> OnlyReadersRan({})
      ensures alone ==> && old(buf[b]).refcnt > 0 && waiting == old(waiting)[b := old(waiting[b]) - 1]
                        && buf == old(buf)[b := old(buf[b]).(refcnt := old(buf[b]).refcnt - 1)]
                        && if buf[b].refcnt == 0 then order != [] && order[0] == b else order == old(order)
    {
      AwaitTurn(b, mine, alone);
      ghost var buf1, dirty1, disk1, history1 := buf, dirty, disk, history;
      DropReference(b);
      SparedTrans(mine, old(buf), old(dirty), old(disk), old(history), buf1, dirty1, disk1, history1,
                  buf, dirty, disk, history);
    }

    /** The lock and one reference to b are gone, and nothing else has happened. */
    twostate predicate Released(b: nat)
      reads this
    {
      && b < |old(buf)| && old(buf[b]).refcnt > 0
      && buf == old(buf)[b := old(buf[b]).(locked := false, refcnt := old(buf[b]).refcnt - 1)]
      && waiting == old(waiting) && OnlyReadersRan({})
      && (if buf[b].refcnt == 0 then order != [] && order[0] == b else order == old(order))
    }

    /** brelse inside a commit, when other processes only read. */
    method BrelseInCommit(b: nat, ghost mine: set<nat>, ghost alone: bool)
      requires Valid() && b < NBUF && buf[b].locked && b !in dirty && b !in mine
      modifies `buf, `waiting, `prev, `next, `order, `stamp, `clock
      ensures Valid() && OnlyReadersRan(mine)
      ensures alone && old(Only(mine + {b})) ==> Only(mine)
    {
      ReleaseSleep(b);
      AwaitTurnInCommit(b, mine, alone);
      DropReference(b);
    }

    /** Other processes run while the caller holds a reference to b. */
    method AwaitTurn(b: nat, ghost mine: set<nat>, ghost alone: bool)
      requires Valid() && b < NBUF && waiting[b] > 0 && b !in mine
      modifies this
      ensures Valid() && waiting[b] > 0 && OthersRan(mine)
      ensures Caches(buf[b], old(buf[b]).dev, old(buf[b]).blockno)
      ensures alone ==> unchanged(this)
    {
    }

    method AwaitTurnInCommit(b: nat, ghost mine: set<nat>, ghost alone: bool)
      requires Valid() && b < NBUF && waiting[b] > 0 && b !in mine
      modifies `buf, `waiting, `prev, `next, `order, `stamp, `clock
      ensures Valid() && waiting[b] > 0 && OnlyReadersRan(mine)
      ensures Caches(buf[b], old(buf[b]).dev, old(buf[b]).blockno)
      ensures alone ==> unchanged(this)
    {
    }

    method MoveToFront(b: nat)
      requires Linked(prev, next, order) && Full(order) && Recent(order, stamp, clock)
      requires b < NBUF
      modifies `prev, `next, `order, `stamp, `clock
      ensures Linked(prev, next, order) && Full(order) && Recent(order, stamp, clock)
      ensures order[0] == b && clock == old(clock) + 1 && stamp == old(stamp)[b := clock]
    {
      assert b in order;
      ghost var k :| 0 <= k < NBUF && order[k] == b;
      UnlinkKeepsCycle(prev, next, order, k);
      MoveToFrontKeeps(order, stamp, clock, k);
      order := Without(order, k);
      next, prev := next[prev[b] := next[b]], prev[next[b] := prev[b]];
      PushKeepsCycle(prev, next, order, b);
      next, prev := next[b := next[HEAD]], prev[b := HEAD];
      prev := prev[next[HEAD] := b];
      next := next[HEAD := b];
      order := [b] + order;
      clock := clock + 1;
      stamp := stamp[b := clock];
    }

    /** bpin, called by log_write on the block it adds to the log. */
    method Bpin(b: nat)
      requires Valid() && b < NBUF && buf[b].locked && buf[b].valid && buf[b].blockno !in pins
      modifies `buf, `pins
      ensures Valid()
      ensures buf == old(buf)[b := old(buf[b]).(refcnt := old(buf[b]).refcnt + 1)]
      ensures pins == old(pins)[buf[b].blockno := b]
      ensures Section(b)
    {
      PinKeeps(buf, waiting, disk, view, pins, dirty, b, buf[b].refcnt + 1, pins[buf[b].blockno := b]);
      buf := buf[b := buf[b].(refcnt := buf[b].refcnt + 1)];
      pins := pins[buf[b].blockno := b];
    }

    /** bunpin, called by install_trans once the block has reached its home on disk. */
    method Bunpin(b: nat)
      requires Valid() && b < NBUF && buf[b].locked
      requires Pins(pins, buf[b].blockno, b) && disk[buf[b].blockno] == view[buf[b].blockno]
      modifies `buf, `pins
      ensures Valid()
      ensures buf == old(buf)[b := old(buf[b]).(refcnt := old(buf[b]).refcnt - 1)]
      ensures pins == old(pins) - {buf[b].blockno}
      ensures Section(b)
    {
      assert Good(buf[b], b, waiting[b], view, pins, dirty);
      PinKeeps(buf, waiting, disk, view, pins, dirty, b, buf[b].refcnt - 1, pins - {buf[b].blockno});
      pins := pins - {buf[b].blockno};
      buf := buf[b := buf[b].(refcnt := buf[b].refcnt - 1)];
    }

    /** A logged buffer's contents become the block's latest contents. */
    ghost method Publish(b: nat)
      requires Valid() && b < NBUF && buf[b].locked && buf[b].valid && buf[b].blockno in pins
      modifies `view, `dirty
      ensures Valid()
      ensures view == old(view)[buf[b].blockno := buf[b].data]
      ensures dirty == old(dirty) - {b}
      ensures Section(b)
    {
      PublishKeeps(buf, waiting, disk, view, pins, dirty, b, disk);
      view := view[buf[b].blockno := buf[b].data];
      dirty := dirty - {b};
    }

    /** Wait in acquiresleep: other processes run, reading, modifying, logging and writing
        buffers of theirs, until the lock is free. Callers know no more of what those
        processes did than this contract, which every section of theirs keeps; and if the
        caller is `alone` and the lock is free, nothing happens. */
    method AwaitUnlocked(b: nat, ghost mine: set<nat>, ghost alone: bool)
      requires Valid() && b < NBUF && waiting[b] > 0 && b !in mine
      modifies this
      ensures Valid() && waiting[b] > 0 && !buf[b].locked && OthersRan(mine)
      ensures Caches(buf[b], old(buf[b]).dev, old(buf[b]).blockno)
      ensures alone && !old(buf[b]).locked ==> unchanged(this)
    {
      if buf[b].locked {
        if buf[b].valid {
          Bwrite(b);
        }
        ReleaseSleep(b);
        DropReference(b);
      }
    }

    /** The same inside a commit, when other processes only read. */
    method AwaitUnlockedInCommit(b: nat, ghost mine: set<nat>, ghost alone: bool)
      requires Valid() && b < NBUF && waiting[b] > 0 && b !in mine && dirty <= mine
      modifies `buf, `prev, `next, `order, `stamp, `clock, `waiting
      ensures Valid() && waiting[b] > 0 && !buf[b].locked
      ensures buf[b].dev == old(buf[b]).dev && buf[b].blockno == old(buf[b]).blockno
      ensures OnlyReadersRan(mine)
      ensures alone && !old(buf[b]).locked ==> unchanged(this)
    {
      if buf[b].locked {
        ReleaseSleep(b);
        DropReference(b);
      }
    }

    /** b is now locked with one reference more, and nothing else has happened. */
    twostate predicate Locked(b: nat)
      reads this
    {
      && b < |old(buf)| && |buf| == |old(buf)| && buf == old(buf)[b := buf[b]] && !old(buf[b]).locked && buf[b].locked
      && buf[b].refcnt == old(buf[b]).refcnt + 1
      && waiting == old(waiting) && order == old(order) && OnlyReadersRan({})
    }

    /** bread: the block's buffer, locked, holding the latest contents of the block as they
        are now, whatever other processes did meanwhile to it or to other blocks. It fails
        exactly when all buffers are referred to and none holds the block. */
    method Bread(dev: nat, blockno: nat, ghost mine: set<nat>, ghost alone: bool) returns (b: nat, ok: bool)
      requires Valid() && dev == ROOTDEV && blockno < |disk|
      requires forall i :: i in mine ==> i < NBUF && buf[i].locked && buf[i].blockno != blockno
      modifies this
      ensures Valid() && OthersRan(mine)
      ensures ok <==> old(Available(dev, blockno))
      ensures ok ==> b < NBUF && b !in mine && buf[b].locked && buf[b].valid && b !in dirty
      ensures ok ==> Caches(buf[b], dev, blockno) && blockno < |view| && buf[b].data == view[blockno]
      ensures ok && alone && old(Unlocked(dev, blockno)) ==> Locked(b)
      ensures !ok ==> unchanged(this)
    {
      b, ok := Ref(dev, blockno);
      if ok {
        ghost var buf1, dirty1, disk1, history1 := buf, dirty, disk, history;
        AwaitUnlocked(b, mine, alone);
        SparedTrans(mine, old(buf), old(dirty), old(disk), old(history), buf1, dirty1, disk1, history1,
                    buf, dirty, disk, history);
        ghost var buf2, dirty2, disk2, history2 := buf, dirty, disk, history;
        LockAndFill(b);
        SparedTrans(mine, old(buf), old(dirty), old(disk), old(history), buf2, dirty2, disk2, history2,
                    buf, dirty, disk, history);
      }
    }

    /** bread inside a commit, when other processes only read: in addition the disk, the
        block map and the pins stay as they are. */
    method BreadInCommit(dev: nat, blockno: nat, ghost mine: set<nat>, ghost alone: bool) returns (b: nat, ok: bool)
      requires Valid() && dev == ROOTDEV && blockno < |disk| && dirty <= mine
      requires forall i :: i in mine ==> i < NBUF && buf[i].locked && buf[i].blockno != blockno
      modifies `buf, `prev, `next, `order, `stamp, `clock, `waiting
      ensures Valid() && OnlyReadersRan(mine)
      ensures ok <==> old(Available(dev, blockno))
      ensures ok ==> b < NBUF && b !in mine && buf[b].locked && buf[b].valid
      ensures ok ==> Caches(buf[b], dev, blockno) && buf[b].data == view[blockno]
      ensures alone && ok && old(Only(mine)) ==> Only(mine + {b})
      ensures !ok ==> unchanged(this)
    {
      b, ok := Ref(dev, blockno);
      if ok {
        AwaitUnlockedInCommit(b, mine, alone);
        LockAndFill(b);
      }
    }

    /** A pinned block can always be read. */
    lemma PinnedAvailable(blockno: nat)
      requires Valid() && blockno in pins
      ensures Available(ROOTDEV, blockno)
    {
      assert Caches(buf[pins[blockno]], ROOTDEV, blockno);
    }

    /** The two breads of write_log and install_trans. Alone, they succeed with a buffer free
        for each block that is not pinned. */
    method BreadPair(first: nat, second: nat, ghost alone: bool, ghost keep: set<nat>)
      returns (a: nat, b: nat, ok: bool)
      requires Valid() && dirty == {} && first < |disk| && second < |disk| && first != second
      modifies `buf, `prev, `next, `order, `stamp, `clock, `waiting
      ensures Valid() && OnlyReadersRan({})
      ensures ok ==> a < NBUF && b < NBUF && a != b && buf[a].locked && buf[a].valid && buf[b].locked && buf[b].valid
      ensures ok ==> Caches(buf[a], ROOTDEV, first) && buf[a].data == view[first]
      ensures ok ==> Caches(buf[b], ROOTDEV, second) && buf[b].data == view[second]
      ensures alone && ok && old(Only({})) ==> Only({a, b})
      ensures alone && old(Only({})) && PinnedIn(keep) && |keep| + (if second in pins then 0 else 1) < NBUF ==> ok
      ensures !ok ==> Exhausted()
    {
      b := 0;
      if Only({}) && PinnedIn(keep) && |keep| < NBUF {
        OneFree({}, keep);
      }
      a, ok := BreadInCommit(ROOTDEV, first, {}, alone);
      if ok {
        b, ok := BreadSecond(a, second, alone, keep);
      }
    }

    method BreadSecond(a: nat, second: nat, ghost alone: bool, ghost keep: set<nat>) returns (b: nat, ok: bool)
      requires Valid() && dirty == {} && second < |disk| && a < NBUF && buf[a].locked && buf[a].blockno != second
      modifies `buf, `prev, `next, `order, `stamp, `clock, `waiting
      ensures Valid() && OnlyReadersRan({a})
      ensures ok ==> b < NBUF && a != b && buf[b].locked && buf[b].valid
      ensures ok ==> Caches(buf[b], ROOTDEV, second) && buf[b].data == view[second]
      ensures alone && ok && old(Only({a})) ==> Only({a, b})
      ensures alone && old(Only({a})) && PinnedIn(keep) && |keep| + (if second in pins then 0 else 1) < NBUF ==> ok
      ensures !ok ==> Exhausted()
    {
      if second in pins {
        PinnedAvailable(second);
      } else if Only({a}) && PinnedIn(keep) && |keep| + 1 < NBUF {
        OneFree({a}, keep);
      }
      b, ok := BreadInCommit(ROOTDEV, second, {a}, alone);
      assert {a} + {b} == {a, b};
    }

    /** What write_log and install_trans do with a pair of buffers: copy one block over
        the other, write it to disk, unpin it if it was pinned, release both. */
    method CopyOut(from: nat, to: nat, unpin: bool, ghost alone: bool)
      requires Valid() && dirty == {} && from < NBUF && to < NBUF && from != to
      requires buf[from].locked && buf[from].valid && buf[to].locked && buf[to].valid
      requires unpin ==> Pins(pins, buf[to].blockno, to)
      modifies this
      ensures Valid() && dirty == {}
      ensures old(buf[to]).blockno < |old(disk)| == |old(view)|
      ensures disk == old(disk)[old(buf[to]).blockno := old(buf[from]).data]
      ensures view == old(view)[old(buf[to]).blockno := old(buf[from]).data]
      ensures history == old(history) + [disk]
      ensures pins == if unpin then old(pins) - {old(buf[to]).blockno} else old(pins)
      ensures alone && old(Only({from, to})) ==> Only({})
    {
      CopyData(from, to, unpin);
      BrelseInCommit(from, {to}, alone);
      BrelseInCommit(to, {}, alone);
    }

    method CopyData(from: nat, to: nat, unpin: bool)
      requires Valid() && dirty == {} && from < NBUF && to < NBUF && from != to
      requires buf[from].locked && buf[from].valid && buf[to].locked && buf[to].valid
      requires unpin ==> Pins(pins, buf[to].blockno, to)
      modifies `buf, `disk, `view, `dirty, `history, `pins
      ensures Valid() && dirty == {}
      ensures old(buf[to]).blockno < |old(disk)| == |old(view)|
      ensures disk == old(disk)[old(buf[to]).blockno := old(buf[from]).data]
      ensures view == old(view)[old(buf[to]).blockno := old(buf[from]).data]
      ensures history == old(history) + [disk]
      ensures pins == if unpin then old(pins) - {old(buf[to]).blockno} else old(pins)
      ensures forall i :: 0 <= i < NBUF ==> buf[i].locked == old(buf[i]).locked
    {
      Modify(to, buf[from].data);
      Bwrite(to);
      if unpin {
        Bunpin(to);
      }
    }

    /** With few enough buffers held and pinned, one is free. */
    lemma OneFree(held: set<nat>, keep: set<nat>)
      requires Valid() && Only(held) && PinnedIn(keep) && |held| + |keep| < NBUF
      ensures !Exhausted() && forall blockno :: Available(ROOTDEV, blockno)
    {
      UnionSize(held, keep);
      OneLeft(held + keep, NBUF);
      var i :| 0 <= i < NBUF && i !in held + keep;
      assert Good(buf[i], i, waiting[i], view, pins, dirty);
    }

    /** Every pinned block is in a buffer of `keep`. */
    ghost predicate PinnedIn(keep: set<nat>)
      reads this
    {
      forall no :: no in pins ==> pins[no] in keep
    }

    /** Nobody waits for a buffer, and only the buffers in `held` are locked. */
    ghost predicate Only(held: set<nat>)
      reads this
    {
      |buf| == |waiting| && forall i :: 0 <= i < |buf| ==> waiting[i] == 0 && (buf[i].locked ==> i in held)
    }
  }
}
