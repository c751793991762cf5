/** The write-ahead log of log.c over the buffer cache. */
module Log {
  import opened Params
  import opened Collections
  import opened Sectors
  import opened LruRing
  import opened BufferCache
  import opened LogSpec

  /** An open file system operation: how many log entries it has added, and which
      transaction it belongs to. */
  datatype Op = Op(used: nat, txn: nat)

  /** What is left of an allowance of m entries. */
  ghost function Left(o: Op, m: nat): nat {
    if o.used <= m then m - o.used else 0
  }

  /** Log entries the open operations may still add, at m each. */
  ghost function Unused(ops: map<nat, Op>, m: nat): nat
    decreases |ops|
  {
    if ops == map[] then 0
    else
      var id :| id in ops;
      Left(ops[id], m) + Unused(ops - {id}, m)
  }

  /** The unused allowance does not depend on the order in which operations are counted. */
  lemma {:induction false} UnusedSplit(ops: map<nat, Op>, m: nat, id: nat)
    requires id in ops
    ensures Unused(ops, m) == Left(ops[id], m) + Unused(ops - {id}, m)
    decreases |ops|
  {
    var x :| x in ops && Unused(ops, m) == Left(ops[x], m) + Unused(ops - {x}, m);
    if x != id {
      UnusedSplit(ops - {x}, m, id);
      UnusedSplit(ops - {id}, m, x);
      assert ops - {x} - {id} == ops - {id} - {x};
    }
  }

  lemma {:induction false} UnusedBound(ops: map<nat, Op>, m: nat)
    ensures Unused(ops, m) <= |ops| * m
    decreases |ops|
  {
    if ops != map[] {
      var id :| id in ops;
      UnusedSplit(ops, m, id);
      UnusedBound(ops - {id}, m);
      assert |ops - {id}| == |ops| - 1 by {
        assert (ops - {id}).Keys == ops.Keys - {id};
      }
      assert |ops| * m == (|ops| - 1) * m + m;
    }
  }

  /** No log space is promised twice: ten entries for each open operation, and two log blocks to
      spare as long as no operation has added more than nine. */
  ghost predicate Reserved(ops: map<nat, Op>, n: nat, most: nat) {
    && n + Unused(ops, MAXOPBLOCKS) <= LOGSIZE
    && (most < MAXOPBLOCKS ==> n + Unused(ops, MAXOPBLOCKS - 1) <= LOGSIZE - 2)
    && (forall id :: id in ops ==> ops[id].used <= most)
  }

  /** begin_op's test keeps these promises. */
  lemma Admitting(ops: map<nat, Op>, n: nat, most: nat, id: nat, o: Op)
    requires n + (|ops| + 1) * MAXOPBLOCKS <= LOGSIZE && id !in ops && o.used == 0 && (ops == map[] ==> n == 0)
    requires Reserved(ops, n, most)
    ensures Reserved(ops[id := o], n, most)
  {
    assert ops[id := o] - {id} == ops;
    UnusedSplit(ops[id := o], MAXOPBLOCKS, id);
    UnusedBound(ops, MAXOPBLOCKS);
    UnusedSplit(ops[id := o], MAXOPBLOCKS - 1, id);
    UnusedBound(ops, MAXOPBLOCKS - 1);
  }

  ghost function Blocks(s: seq<nat>): set<nat> {
    set no | no in s
  }

  /** The header lists distinct home blocks, and `pinned` is exactly those. */
  ghost predicate Listed(d: Disk, l: Layout, block: seq<nat>, n: nat, pinned: set<nat>) {
    && |block| == LOGSIZE && n <= LOGSIZE
    && Loggable(d, l, block[..n])
    && (forall i, j :: 0 <= i < j < n ==> block[i] != block[j])
    && pinned == Blocks(block[..n])
  }

  lemma ListedAppend(d: Disk, l: Layout, block: seq<nat>, n: nat, pinned: set<nat>, no: nat)
    requires Listed(d, l, block, n, pinned)
    requires n < LOGSIZE && n < l.size - 1 && Home(d, l, no) && no !in block[..n]
    ensures block[n := no][..n + 1] == block[..n] + [no]
    ensures Listed(d, l, block[n := no], n + 1, pinned + {no})
  {
    var block' := block[n := no];
    assert block'[..n + 1] == block[..n] + [no];
    forall i | 0 <= i < n ensures block'[i] == block[i] && block[i] != no {
      assert block[i] in block[..n];
    }
  }

  /** Of the blocks still to be installed, all at home outside the log, the next one is
      pinned and drops out. */
  lemma NextBlock(d: Disk, l: Layout, block: seq<nat>, tail: nat, n: nat)
    requires tail < n <= |block|
    requires forall i :: 0 <= i < n ==> Home(d, l, block[i])
    requires forall i, j :: 0 <= i < j < n ==> block[i] != block[j]
    ensures block[tail] in Blocks(block[tail..n])
    ensures Blocks(block[tail..n]) - {block[tail]} == Blocks(block[tail + 1..n])
    ensures l.start + tail + 1 < l.start + l.size ==> l.start + tail + 1 !in Blocks(block[tail..n])
  {
    assert block[tail..n] == [block[tail]] + block[tail + 1..n];
  }

  /** Operation id has added one more entry. */
  ghost function Charge(ops: map<nat, Op>, id: nat): (r: map<nat, Op>)
    requires id in ops
    ensures r.Keys == ops.Keys
  {
    ops[id := ops[id].(used := ops[id].used + 1)]
  }

  /** Adding one log entry uses up one of the operation's allowance. */
  lemma UsedOne(ops: map<nat, Op>, m: nat, id: nat)
    requires id in ops && ops[id].used < m
    ensures Unused(Charge(ops, id), m) == Unused(ops, m) - 1
    ensures |Charge(ops, id)| == |ops|
    ensures forall x :: x in ops ==> Charge(ops, id)[x].txn == ops[x].txn
  {
    UnusedSplit(ops, m, id);
    UnusedSplit(Charge(ops, id), m, id);
    assert Charge(ops, id) - {id} == ops - {id};
    assert |Charge(ops, id)| == |Charge(ops, id).Keys|;
  }

  /** There is room in the header for an operation within its allowance, and in the log mkfs
      makes if no operation has used all of its own. */
  lemma RoomLeft(ops: map<nat, Op>, n: nat, most: nat, id: nat)
    requires Reserved(ops, n, most)
    ensures id in ops && ops[id].used < MAXOPBLOCKS ==> n < LOGSIZE
    ensures most < MAXOPBLOCKS ==> n < LOGSIZE - 1
  {
    if id in ops {
      UnusedSplit(ops, MAXOPBLOCKS, id);
    }
  }

  lemma Charged(ops: map<nat, Op>, n: nat, most: nat, id: nat) returns (most': nat)
    requires Reserved(ops, n, most) && id in ops && ops[id].used < MAXOPBLOCKS
    ensures Reserved(Charge(ops, id), n + 1, most') && |Charge(ops, id)| == |ops|
    ensures forall x :: x in ops ==> Charge(ops, id)[x].txn == ops[x].txn
  {
    UsedOne(ops, MAXOPBLOCKS, id);
    if ops[id].used < MAXOPBLOCKS - 1 {
      UsedOne(ops, MAXOPBLOCKS - 1, id);
    }
    most' := if ops[id].used + 1 > most then ops[id].used + 1 else most;
  }

  class Log {
    const cache: Cache
    var start: nat
    var size: nat
    var outstanding: int
    var committing: bool
    var n: nat                   // lh.n
    var block: seq<nat>          // lh.block

    ghost var ops: map<nat, Op>  // open operations
    ghost var txn: nat           // the transaction being collected
    ghost var most: nat          // the most entries any operation has added so far

    ghost function Place(): Layout
      reads this
    {
      Layout(start, size)
    }

    /** The transaction being collected: distinct home blocks, each pinned in the cache. */
    ghost predicate Collecting()
      reads this, cache
    {
      && cache.Valid()
      && Listed(cache.disk, Place(), block, n, cache.pins.Keys)
      && HeadN(cache.disk[start]) == 0
    }

    /** No log space is promised twice, all open operations belong to the current
        transaction, and nothing is committed while one of them is open. */
    ghost predicate Admitted()
      reads this
    {
      && outstanding == |ops|
      && Reserved(ops, n, most)
      && (forall id :: id in ops ==> ops[id].txn == txn)
      && (committing ==> ops == map[])
      && (!committing && ops == map[] ==> n == 0)
    }

    ghost predicate Valid()
      reads this, cache
    {
      Admitted() && (!committing ==> Collecting())
    }

    /** initlog up to its call of recover_from_log. */
    constructor (c: Cache, start: nat, size: nat)
      ensures cache == c && this.start == start && this.size == size
      ensures outstanding == 0 && !committing && n == 0 && |block| == LOGSIZE && ops == map[] && most == 0
    {
      cache := c;
      this.start, this.size := start, size;
      outstanding, committing := 0, false;
      n, block := 0, seq(LOGSIZE, i => 0);
      ops, txn, most := map[], 0, 0;
    }

    /** begin_op, one turn of its loop: `admitted` is false where the source sleeps. */
    method BeginOp(ghost id: nat) returns (admitted: bool)
      requires Valid() && id !in ops
      modifies `outstanding, `ops
      ensures Valid()
      ensures admitted <==> !committing && n + (old(outstanding) + 1) * MAXOPBLOCKS <= LOGSIZE
      ensures admitted ==> outstanding == old(outstanding) + 1 && ops == old(ops)[id := Op(0, txn)]
      ensures !admitted ==> outstanding == old(outstanding) && ops == old(ops)
      ensures !admitted ==> committing || outstanding > 0
    {
      if committing {
        return false;
      } else if n + (outstanding + 1) * MAXOPBLOCKS > LOGSIZE {
        return false;
      }
      Admitting(ops, n, most, id, Op(0, txn));
      outstanding := outstanding + 1;
      ops := ops[id := Op(0, txn)];
      return true;
    }

    /** log_write of a buffer the operation holds and has modified. The source panics
        exactly when no operation is open or the log has no block left, even if the block
        is already logged. An operation within its allowance never meets that panic if the log
        has a block for each entry reserved, or if no operation has ever used all of its own. */
    method LogWrite(b: nat, ghost id: nat) returns (panicked: bool)
      requires Valid() && cache.Valid()
      requires b < NBUF && cache.buf[b].locked && cache.buf[b].valid
      requires Home(cache.disk, Place(), cache.buf[b].blockno)
      requires ops != map[] ==> id in ops && (ops[id].used < MAXOPBLOCKS || cache.buf[b].blockno in block[..n])
      modifies `n, `block, `ops, `most, cache
      ensures Valid() && cache.Valid()
      ensures panicked <==> old(n) >= LOGSIZE || old(n) >= size - 1 || old(ops) == map[]
      ensures size > LOGSIZE && id in old(ops) && old(ops[id].used) < MAXOPBLOCKS ==> !panicked
      ensures size == LOGSIZE && old(ops) != map[] && old(most) < MAXOPBLOCKS ==> !panicked
      ensures cache.buf == old(cache.buf)[b := old(cache.buf[b]).(refcnt := cache.buf[b].refcnt)]
      ensures panicked ==> n == old(n) && block == old(block) && ops == old(ops) && cache.view == old(cache.view)
      ensures !panicked ==>
                var no := old(cache.buf[b].blockno);
                && no < |old(cache.view)| && cache.view == old(cache.view)[no := old(cache.buf[b].data)]
                && cache.dirty == old(cache.dirty) - {b}
                && id in ops && ops[id].txn == txn
                && if no in old(block[..n]) then n == old(n) && block == old(block) && ops == old(ops)
                   else n == old(n) + 1 && block[..n] == old(block[..n]) + [no] && ops == Charge(old(ops), id)
      ensures cache.disk == old(cache.disk) && cache.history == old(cache.history)
    {
      RoomLeft(ops, n, most, id);
      if n >= LOGSIZE || n >= size - 1 {
        return true;
      }
      if outstanding < 1 {
        return true;
      }
      Absorb(b, id);
      return false;
    }

    /** log_write after its tests. */
    method Absorb(b: nat, ghost id: nat)
      requires Valid() && cache.Valid() && !committing && id in ops
      requires b < NBUF && cache.buf[b].locked && cache.buf[b].valid && n < LOGSIZE && n < size - 1
      requires Home(cache.disk, Place(), cache.buf[b].blockno)
      requires ops[id].used < MAXOPBLOCKS || cache.buf[b].blockno in block[..n]
      modifies `n, `block, `ops, `most, cache
      ensures Valid() && cache.Valid()
      ensures cache.buf == old(cache.buf)[b := old(cache.buf[b]).(refcnt := cache.buf[b].refcnt)]
      ensures var no := old(cache.buf[b].blockno);
              && no < |old(cache.view)| && cache.view == old(cache.view)[no := old(cache.buf[b].data)]
              && cache.dirty == old(cache.dirty) - {b}
              && id in ops && ops[id].txn == txn
              && if no in old(block[..n]) then n == old(n) && block == old(block) && ops == old(ops)
                 else n == old(n) + 1 && block[..n] == old(block[..n]) + [no] && ops == Charge(old(ops), id)
      ensures cache.disk == old(cache.disk) && cache.history == old(cache.history)
    {
      var i := Slot(cache.buf[b].blockno);
      if i == n {
        Append(b, id);
      } else {
        assert cache.buf[b].blockno in block[..n] && block[i := cache.buf[b].blockno] == block;
        block := block[i := cache.buf[b].blockno];
      }
      cache.Publish(b);
    }

    /** The part of log_write that adds a block to the log: record it, pin it, count it. */
    method Append(b: nat, ghost id: nat)
      requires Valid() && !committing && id in ops && ops[id].used < MAXOPBLOCKS
      requires b < NBUF && cache.buf[b].locked && cache.buf[b].valid
      requires Home(cache.disk, Place(), cache.buf[b].blockno)
      requires n < LOGSIZE && n < size - 1 && cache.buf[b].blockno !in block[..n]
      modifies `n, `block, `ops, `most, cache`buf, cache`pins
      ensures Valid()
      ensures n == old(n) + 1 && block[..n] == old(block[..n]) + [old(cache.buf[b].blockno)]
      ensures ops == Charge(old(ops), id)
      ensures cache.buf == old(cache.buf)[b := cache.buf[b]]
      ensures cache.buf[b] == old(cache.buf[b]).(refcnt := old(cache.buf[b]).refcnt + 1)
      ensures old(cache.buf[b]).blockno in cache.pins
    {
      Spend(id);
      Enter(b);
    }

    ghost method Spend(id: nat)
      requires Admitted() && !committing && id in ops && ops[id].used < MAXOPBLOCKS
      modifies `ops, `most
      ensures ops == Charge(old(ops), id) && ops != map[] && Reserved(ops, n + 1, most)
      ensures outstanding == |ops| && forall x :: x in ops ==> ops[x].txn == txn
    {
      most := Charged(ops, n, most, id);
      ops := Charge(ops, id);
    }

    method Enter(b: nat)
      requires Collecting() && b < NBUF && cache.buf[b].locked && cache.buf[b].valid
      requires Home(cache.disk, Place(), cache.buf[b].blockno)
      requires n < LOGSIZE && n < size - 1 && cache.buf[b].blockno !in block[..n]
      modifies `n, `block, cache`buf, cache`pins
      ensures Collecting()
      ensures n == old(n) + 1 && block[..n] == old(block[..n]) + [old(cache.buf[b].blockno)]
      ensures cache.buf == old(cache.buf)[b := cache.buf[b]]
      ensures cache.buf[b] == old(cache.buf[b]).(refcnt := old(cache.buf[b]).refcnt + 1)
      ensures old(cache.buf[b]).blockno in cache.pins
    {
      ListedAppend(cache.disk, Place(), block, n, cache.pins.Keys, cache.buf[b].blockno);
      ghost var pins := cache.pins;
      block := block[n := cache.buf[b].blockno];
      cache.Bpin(b);
      assert cache.pins.Keys == pins.Keys + {cache.buf[b].blockno};
      n := n + 1;
    }

    /** The search loop of log_write: where the block is logged, or the first free slot. */
    method Slot(no: nat) returns (i: nat)
      requires n <= |block|
      ensures i <= n
      ensures i < n ==> block[i] == no
      ensures i == n ==> no !in block[..n]
    {
      i := 0;
      while i < n && block[i] != no
        invariant i <= n && no !in block[..i]
      {
        i := i + 1;
      }
    }

    /** end_op up to the decision to commit. */
    method Leave(ghost id: nat) returns (doCommit: bool)
      requires Valid() && id in ops
      modifies `outstanding, `committing, `ops
      ensures Valid()
      ensures ops == old(ops) - {id}
      ensures doCommit <==> outstanding == 0
      ensures doCommit ==> committing && Collecting()
    {
      UnusedSplit(ops, MAXOPBLOCKS, id);
      UnusedSplit(ops, MAXOPBLOCKS - 1, id);
      assert (ops - {id}).Keys == ops.Keys - {id};
      outstanding := outstanding - 1;
      ops := ops - {id};
      doCommit := outstanding == 0;
      if doCommit {
        assert |ops| == 0;
        assert ops == map[];
        committing := true;
      }
    }

    /** Nobody uses a buffer, and at least one is not among those that may be pinned. */
    ghost predicate Quiet(keep: set<nat>)
      reads cache
    {
      cache.Only({}) && cache.PinnedIn(keep) && |keep| < NBUF
    }

    /** The body of write_log's loop. */
    method LogBlock(tail: nat, ghost alone: bool, ghost keep: set<nat>) returns (ok: bool)
      requires cache.Valid() && cache.dirty == {} && tail < |block|
      requires start + tail + 1 < |cache.disk| && block[tail] < |cache.disk| && block[tail] != start + tail + 1
      modifies cache
      ensures cache.Valid() && cache.dirty == {} && cache.pins == old(cache.pins)
      ensures |old(cache.view)| == |old(cache.disk)|
      ensures ok ==> && cache.disk == old(cache.disk)[start + tail + 1 := old(cache.view)[block[tail]]]
                     && cache.view == old(cache.view)[start + tail + 1 := old(cache.view)[block[tail]]]
                     && cache.history == old(cache.history) + [cache.disk]
      ensures !ok ==> cache.disk == old(cache.disk) && cache.view == old(cache.view)
                      && cache.history == old(cache.history)
      ensures alone && old(Quiet(keep)) && block[tail] in old(cache.pins) ==> ok && cache.Only({})
      ensures !ok ==> cache.Exhausted()
    {
      var to, from;
      to, from, ok := cache.BreadPair(start + tail + 1, block[tail], alone, keep);
      if ok {
        cache.CopyOut(from, to, false, alone);
      }
    }

    /** write_log: one disk write per logged block, from the cache to the log. */
    method WriteLog(ghost alone: bool, ghost keep: set<nat>) returns (ok: bool, ghost w: nat)
      requires Collecting() && cache.dirty == {}
      modifies cache
      ensures cache.Valid() && cache.dirty == {} && cache.pins == old(cache.pins)
      ensures SameHome(old(cache.view), cache.view, Place())
      ensures w <= n && (ok ==> w == n)
      ensures cache.history == old(cache.history) + CopyTrace(old(cache.disk), old(cache.view), Place(), block[..n], w)
      ensures ok ==> cache.disk == Copied(old(cache.disk), old(cache.view), Place(), block[..n], n)
      ensures alone && old(Quiet(keep)) ==> ok && cache.Only({})
      ensures !ok ==> cache.Exhausted()
    {
      ghost var d, view, h := cache.disk, cache.view, cache.history;
      var tail := 0;
      while tail < n
        invariant Logging(d, view, tail) && cache.pins == old(cache.pins)
        invariant alone && old(Quiet(keep)) ==> cache.Only({})
        invariant cache.history == h + CopyTrace(d, view, Place(), block[..n], tail)
      {
        ok := LogNext(tail, d, view, alone, keep);
        if !ok {
          return false, tail;
        }
        tail := tail + 1;
      }
      return true, tail;
    }

    /** The state of write_log after `tail` turns, having started from disk d and block map view. */
    ghost predicate Logging(d: Disk, view: Disk, tail: nat)
      reads this, cache
    {
      && cache.Valid() && cache.dirty == {} && tail <= n <= |block| && |view| == |d|
      && Loggable(d, Place(), block[..n]) && cache.pins.Keys == Blocks(block[..n])
      && SameHome(view, cache.view, Place()) && cache.disk == Copied(d, view, Place(), block[..n], tail)
    }

    /** One turn of write_log takes the disk to its next state. */
    method LogNext(tail: nat, ghost d: Disk, ghost view: Disk, ghost alone: bool, ghost keep: set<nat>)
      returns (ok: bool)
      requires tail < n && Logging(d, view, tail)
      modifies cache
      ensures cache.Valid() && cache.dirty == {} && cache.pins == old(cache.pins)
      ensures SameHome(view, cache.view, Place())
      ensures ok ==> Logging(d, view, tail + 1) && cache.history == old(cache.history) + [cache.disk]
      ensures !ok ==> cache.history == old(cache.history)
      ensures alone && old(Quiet(keep)) ==> ok && cache.Only({})
      ensures !ok ==> cache.Exhausted()
    {
      ghost var blocks, l := block[..n], Place();
      assert Home(d, l, blocks[tail]) && blocks[tail] in cache.pins;
      ok := LogBlock(tail, alone, keep);
    }

    /** write_head: one disk write of the header block. */
    method WriteHead(ghost alone: bool, ghost keep: set<nat>) returns (ok: bool)
      requires cache.Valid() && cache.dirty == {} && start < |cache.disk| && start !in cache.pins
      requires |block| == LOGSIZE && n <= LOGSIZE
      modifies cache
      ensures cache.Valid() && cache.dirty == {} && cache.pins == old(cache.pins)
      ensures ok ==> && cache.disk == old(cache.disk)[start := Header(old(cache.disk)[start], block[..n])]
                     && |cache.view| == |cache.disk| && cache.view == old(cache.view)[start := cache.disk[start]]
                     && cache.history == old(cache.history) + [cache.disk]
      ensures !ok ==> cache.disk == old(cache.disk) && cache.history == old(cache.history)
      ensures alone && old(Quiet(keep)) ==> ok && cache.Only({})
      ensures !ok ==> cache.Exhausted()
    {
      var b;
      if Quiet(keep) {
        cache.OneFree({}, keep);
      }
      b, ok := cache.BreadInCommit(ROOTDEV, start, {}, alone);
      if ok {
        assert OnDisk(cache.disk, cache.view, start);
        PutHead(b, alone);
      }
    }

    method PutHead(b: nat, ghost alone: bool)
      requires cache.Valid() && cache.dirty == {} && b < NBUF && cache.buf[b].locked && cache.buf[b].valid
      requires start < |cache.disk| && Caches(cache.buf[b], ROOTDEV, start)
      requires |block| == LOGSIZE && n <= LOGSIZE
      modifies cache
      ensures cache.Valid() && cache.dirty == {} && cache.pins == old(cache.pins)
      ensures |old(cache.view)| == |old(cache.disk)|
      ensures cache.disk == old(cache.disk)[start := Header(old(cache.buf[b]).data, block[..n])]
      ensures cache.view == old(cache.view)[start := Header(old(cache.buf[b]).data, block[..n])]
      ensures cache.history == old(cache.history) + [cache.disk]
      ensures alone && old(cache.Only({b})) ==> cache.Only({})
    {
      ghost var was: Sector := cache.buf[b].data;
      var hb: Sector := cache.buf[b].data;
      hb := hb[0 := n];
      var i := 0;
      while i < n
        invariant i <= n && |hb| == WORDS
        invariant hb == [n as int] + block[..i] + was[1 + i..]
      {
        hb := hb[1 + i := block[i]];
        i := i + 1;
      }
      cache.Modify(b, hb);
      cache.Bwrite(b);
      cache.BrelseInCommit(b, {}, alone);
    }

    /** The body of install_trans's loop. */
    method InstallBlock(tail: nat, recovering: bool, ghost alone: bool, ghost keep: set<nat>) returns (ok: bool)
      requires cache.Valid() && cache.dirty == {} && tail < |block|
      requires start + tail + 1 < |cache.disk| && block[tail] < |cache.disk| && block[tail] != start + tail + 1
      requires start + tail + 1 !in cache.pins
      requires !recovering ==> block[tail] in cache.pins
      modifies cache
      ensures cache.Valid() && cache.dirty == {}
      ensures ok ==> && cache.disk == old(cache.disk)[block[tail] := old(cache.disk)[start + tail + 1]]
                     && cache.pins == (if recovering then old(cache.pins) else old(cache.pins) - {block[tail]})
                     && cache.history == old(cache.history) + [cache.disk]
      ensures !ok ==> cache.disk == old(cache.disk) && cache.history == old(cache.history)
      ensures alone && old(Quiet(keep)) && (recovering ==> keep == {}) ==> ok && cache.Only({})
      ensures !ok ==> cache.Exhausted()
    {
      var lbuf, dbuf;
      lbuf, dbuf, ok := cache.BreadPair(start + tail + 1, block[tail], alone, keep);
      if ok {
        assert OnDisk(cache.disk, cache.view, start + tail + 1);
        if !recovering {
          SameBuffer(cache.buf, dbuf, cache.pins[block[tail]], block[tail]);
        }
        cache.CopyOut(lbuf, dbuf, !recovering, alone);
      }
    }

    /** The state of install_trans after `tail` turns, having started from disk d. */
    ghost predicate Installing(d: Disk, tail: nat, recovering: bool)
      reads this, cache
    {
      && cache.Valid() && cache.dirty == {} && |block| == LOGSIZE && tail <= n <= LOGSIZE
      && Sane(d, Place()) && HeadN(d[start]) == n
      && (forall i :: 0 <= i < n ==> HeadBlock(d[start], i) == block[i] && Home(d, Place(), block[i]))
      && cache.disk == Installed(d, Place(), tail)
      && if recovering then cache.pins == map[]
         else (forall i, j :: 0 <= i < j < n ==> block[i] != block[j]) && cache.pins.Keys == Blocks(block[tail..n])
    }

    /** One turn of install_trans takes the disk to its next installed state. */
    method InstallNext(tail: nat, recovering: bool, ghost d: Disk, ghost alone: bool, ghost keep: set<nat>)
      returns (ok: bool)
      requires tail < n && Installing(d, tail, recovering)
      modifies cache
      ensures cache.Valid() && cache.dirty == {}
      ensures ok ==> Installing(d, tail + 1, recovering) && cache.history == old(cache.history) + [cache.disk]
      ensures !ok ==> cache.history == old(cache.history)
      ensures alone && old(Quiet(keep)) && (recovering ==> keep == {}) ==> ok && Quiet(keep)
      ensures !ok ==> cache.Exhausted()
    {
      ghost var l := Place();
      InstallStep(d, l, tail);
      if !recovering {
        NextBlock(d, l, block, tail, n);
      }
      ok := InstallBlock(tail, recovering, alone, keep);
    }

    /** install_trans: one disk write per logged block, from the log to its home. */
    method InstallTrans(recovering: bool, ghost alone: bool, ghost keep: set<nat>) returns (ok: bool, ghost w: nat)
      requires Installing(cache.disk, 0, recovering)
      modifies cache
      ensures cache.Valid() && cache.dirty == {}
      ensures w <= n && (ok ==> w == n)
      ensures cache.history == old(cache.history) + InstallTrace(old(cache.disk), Place(), w)
      ensures ok ==> cache.disk == Installed(old(cache.disk), Place(), n) && cache.pins == map[]
      ensures alone && old(Quiet(keep)) && (recovering ==> keep == {}) ==> ok && Quiet(keep)
      ensures !ok ==> cache.Exhausted()
    {
      ghost var d, h := cache.disk, cache.history;
      var tail := 0;
      while tail < n
        invariant Installing(d, tail, recovering)
        invariant alone && old(Quiet(keep)) && (recovering ==> keep == {}) ==> Quiet(keep)
        invariant cache.history == h + InstallTrace(d, Place(), tail)
      {
        ok := InstallNext(tail, recovering, d, alone, keep);
        if !ok {
          return false, tail;
        }
        tail := tail + 1;
      }
      return true, tail;
    }

    /** What commit and recover_from_log share: install, then clear the header. */
    method Replay(recovering: bool, ghost alone: bool, ghost keep: set<nat>) returns (ok: bool, ghost w: nat)
      requires Installing(cache.disk, 0, recovering)
      modifies `n, cache
      ensures cache.Valid() && cache.dirty == {}
      ensures cache.history == old(cache.history) + RecoverTrace(old(cache.disk), Place(), w)
      ensures w <= old(n) + 1
      ensures ok ==> w == old(n) + 1 && n == 0 && Collecting()
      ensures ok ==> cache.disk == Recovered(old(cache.disk), Place())
      ensures alone && old(Quiet(keep)) && (recovering ==> keep == {}) ==> ok && Quiet(keep)
      ensures !ok ==> cache.Exhausted()
    {
      ghost var d, l := cache.disk, Place();
      ok, w := InstallTrans(recovering, alone, keep);
      RecoverTraceStarts(d, l, w);
      if !ok {
        return;
      }
      InstalledKeepsLog(d, l, n);
      n := 0;
      ok := WriteHead(alone, keep);
      if !ok {
        return;
      }
      assert Header(d[start], block[..0]) == d[start][0 := 0];
      w := w + 1;
    }

    /** The first half of commit: fill the log, then write the header that commits. */
    method Record(ghost alone: bool, ghost keep: set<nat>) returns (ok: bool, ghost w: nat)
      requires Collecting() && cache.dirty == {}
      modifies cache
      ensures cache.Valid() && cache.dirty == {}
      ensures cache.history == old(cache.history)
                               + CommitTrace(old(cache.disk), old(cache.view), Place(), block[..n], w)
      ensures w <= n + 1
      ensures ok ==> w == n + 1 && cache.pins == old(cache.pins)
      ensures ok ==> cache.disk == Committed(old(cache.disk), old(cache.view), Place(), block[..n])
      ensures ok ==> Installing(cache.disk, 0, false)
      ensures alone && old(Quiet(keep)) ==> ok && cache.Only({})
      ensures !ok ==> cache.Exhausted()
    {
      ghost var d, view, l, blocks := cache.disk, cache.view, Place(), block[..n];
      ok, w := WriteLog(alone, keep);
      CommitTraceStarts(d, view, l, blocks, w);
      if !ok {
        return;
      }
      ok := WriteHead(alone, keep);
      if !ok {
        return;
      }
      assert block[0..n] == blocks;
      CommitTraceHeader(old(cache.history), d, view, l, blocks);
      w := w + 1;
    }

    /** commit: whatever happens, the disk passes through exactly the states Committing
        describes, one per write; a panic in the middle is a crash. If it completes, the
        home blocks on disk are those of the block map. */
    method Commit(ghost alone: bool) returns (ok: bool, ghost w: nat)
      requires Collecting() && cache.dirty == {}
      modifies `n, cache
      ensures cache.Valid() && cache.dirty == {}
      ensures cache.history == old(cache.history)
                               + CommitTrace(old(cache.disk), old(cache.view), Place(), old(block[..n]), w)
      ensures w <= 2 * old(n) + 2
      ensures ok ==> w == (if old(n) == 0 then 0 else 2 * old(n) + 2)
      ensures ok ==> n == 0 && Collecting()
      ensures ok ==> SameHome(old(cache.view), cache.disk, Place())
      ensures alone && old(cache.Only({}) && n < NBUF) ==> ok && cache.Only({})
      ensures !ok ==> cache.Exhausted()
    {
      PinsWithin();
      if n == 0 {
        CommitPublishes();
        return true, 0;
      }
      ghost var e := Recovered(Committed(cache.disk, cache.view, Place(), block[..n]), Place());
      assert SameHome(cache.view, e, Place()) by {
        CommitPublishes();
      }
      ok, w := RecordAndInstall(alone, cache.pins.Values);
    }

    method RecordAndInstall(ghost alone: bool, ghost keep: set<nat>) returns (ok: bool, ghost w: nat)
      requires Collecting() && cache.dirty == {}
      modifies `n, cache
      ensures cache.Valid() && cache.dirty == {}
      ensures cache.history == old(cache.history)
                               + CommitTrace(old(cache.disk), old(cache.view), Place(), old(block[..n]), w)
      ensures w <= 2 * old(n) + 2
      ensures ok ==> w == 2 * old(n) + 2 && n == 0 && Collecting()
      ensures ok ==> cache.disk
                     == Recovered(Committed(old(cache.disk), old(cache.view), Place(), old(block[..n])), Place())
      ensures alone && old(Quiet(keep)) ==> ok && cache.Only({})
      ensures !ok ==> cache.Exhausted()
    {
      ghost var d, view, l, blocks, h := cache.disk, cache.view, Place(), block[..n], cache.history;
      ok, w := Record(alone, keep);
      if !ok {
        return;
      }
      assert w == |blocks| + 1 && cache.disk == Committed(d, view, l, blocks);
      ghost var k;
      ok, k := Replay(false, alone, keep);
      CommitHistory(cache.history, h, d, view, l, blocks, k);
      w := |blocks| + 1 + k;
    }

    /** The pinned blocks take up no more buffers than the transaction has blocks. */
    lemma PinsWithin()
      requires Collecting()
      ensures cache.PinnedIn(cache.pins.Values) && |cache.pins.Values| <= n
    {
      ElementsSize(block[..n]);
      ValuesSize(cache.pins);
      assert |cache.pins| == |cache.pins.Keys|;
    }

    /** Outside the logged blocks the disk already is the block map, so applying the
        transaction makes it the block map everywhere. */
    lemma CommitPublishes()
      requires Collecting()
      ensures var e := Recovered(Committed(cache.disk, cache.view, Place(), block[..n]), Place());
              SameHome(cache.view, e, Place())
      ensures n == 0 ==> SameHome(cache.view, cache.disk, Place())
    {
      var d, view, l, blocks := cache.disk, cache.view, Place(), block[..n];
      RecoveredTransaction(d, view, l, blocks);
      forall no | Home(view, l, no) && no !in blocks ensures view[no] == d[no] {
        assert OnDisk(d, view, no);
      }
    }

    /** read_head. */
    method ReadHead(ghost alone: bool) returns (ok: bool)
      requires cache.Valid() && cache.dirty == {} && cache.pins == map[] && |block| == LOGSIZE
      requires Sane(cache.disk, Place())
      modifies `n, `block, cache
      ensures cache.Valid() && cache.dirty == {} && cache.pins == map[]
      ensures cache.disk == old(cache.disk) && cache.history == old(cache.history)
      ensures ok ==> Installing(cache.disk, 0, true)
      ensures alone && old(cache.Only({})) ==> ok && cache.Only({})
      ensures !ok ==> cache.Exhausted()
    {
      var b;
      if cache.Only({}) {
        cache.OneFree({}, {});
      }
      b, ok := cache.BreadInCommit(ROOTDEV, start, {}, alone);
      if !ok {
        return;
      }
      assert OnDisk(cache.disk, cache.view, start);
      var lh := cache.buf[b].data;
      n := lh[0];
      var i := 0;
      while i < n
        invariant i <= n == HeadN(lh) && |block| == LOGSIZE
        invariant forall j :: 0 <= j < i ==> HeadBlock(lh, j) == block[j]
        modifies `block
      {
        assert Home(cache.disk, Place(), HeadBlock(lh, i));
        block := block[i := lh[1 + i]];
        i := i + 1;
      }
      assert forall j :: 0 <= j < n ==> Home(cache.disk, Place(), HeadBlock(lh, j));
      cache.BrelseInCommit(b, {}, alone);
    }

    /** recover_from_log on a machine that has just booted: the disk passes through the
        states Recovering describes and ends recovered, with the log empty. */
    method RecoverFromLog(ghost alone: bool) returns (ok: bool, ghost w: nat)
      requires cache.Valid() && cache.dirty == {} && cache.pins == map[] && |block| == LOGSIZE
      requires Sane(cache.disk, Place())
      modifies `n, `block, cache
      ensures cache.Valid() && cache.dirty == {}
      ensures cache.history == old(cache.history) + RecoverTrace(old(cache.disk), Place(), w)
      ensures ok ==> w == HeadN(old(cache.disk)[start]) + 1
      ensures ok ==> cache.disk == Recovered(old(cache.disk), Place())
      ensures ok ==> n == 0 && Collecting()
      ensures alone && old(cache.Only({})) ==> ok && cache.Only({})
      ensures !ok ==> cache.Exhausted()
    {
      ok := ReadHead(alone);
      if !ok {
        return false, 0;
      }
      InstalledKeepsLog(cache.disk, Place(), n);
      ok, w := Replay(true, alone, {});
    }

    /** end_op: leave, and if this was the last operation commit and start a new transaction.
        Only bget's panic for want of buffers can stop the commit. */
    method EndOp(ghost id: nat, ghost alone: bool) returns (ok: bool, ghost w: nat)
      requires Valid() && id in ops && (ops.Keys == {id} ==> cache.dirty == {})
      modifies `n, `outstanding, `committing, `ops, `txn, cache
      ensures ok ==> Valid() && ops == old(ops) - {id}
      ensures ok ==> txn == old(txn) + (if old(ops).Keys == {id} then 1 else 0)
      ensures !ok ==> old(ops).Keys == {id} && cache.Exhausted()
      ensures old(ops).Keys != {id} ==> unchanged(cache) && n == old(n) && block == old(block)
      ensures old(ops).Keys == {id} ==>
                && cache.history
                   == old(cache.history) + CommitTrace(old(cache.disk), old(cache.view), Place(), old(block[..n]), w)
                && (ok ==> n == 0 && SameHome(old(cache.view), cache.disk, Place())
                           && w == if old(n) == 0 then 0 else 2 * old(n) + 2)
      ensures alone && old(cache.Only({}) && n < NBUF) ==> ok && cache.Only({})
    {
      var doCommit := Leave(id);
      if !doCommit {
        assert old(ops).Keys != {id};
        return true, 0;
      }
      assert old(ops).Keys == {id} by {
        assert |ops| == 0;
        assert ops.Keys == old(ops).Keys - {id};
      }
      ok, w := Commit(alone);
      if ok {
        committing := false;
        txn := txn + 1;
      }
    }
  }

  /** Operations 0, 1 and 2 have added k entries, ten each in turn. */
  ghost predicate Shared(ops: map<nat, Op>, k: nat) {
    && 0 in ops && 1 in ops && 2 in ops
    && ops[0].used == (if k < MAXOPBLOCKS then k else MAXOPBLOCKS)
    && ops[1].used == (if k < MAXOPBLOCKS then 0 else if k < 2 * MAXOPBLOCKS then k - MAXOPBLOCKS else MAXOPBLOCKS)
    && ops[2].used == (if k < 2 * MAXOPBLOCKS then 0 else k - 2 * MAXOPBLOCKS)
  }

  /** Whose turn it is. */
  function Turn(k: nat): nat {
    if k < MAXOPBLOCKS then 0 else if k < 2 * MAXOPBLOCKS then 1 else 2
  }

  /** `held` are the buffers in use, k of them, for blocks below `no`. */
  ghost predicate Holding(buf: seq<Buf>, held: set<nat>, k: nat, no: nat) {
    && |buf| == NBUF && |held| == k
    && forall i :: 0 <= i < NBUF ==>
      if i in held then buf[i].blockno < no && buf[i].refcnt > 0 else buf[i].refcnt == 0
  }

  predicate Below(s: seq<nat>, no: nat) {
    forall i :: 0 <= i < |s| ==> s[i] < no
  }

  lemma BelowNext(s: seq<nat>, no: nat)
    requires Below(s, no)
    ensures no !in s && Below(s + [no], no + 1)
  {
  }

  /** Three operations are open on the log mkfs makes and have logged k blocks. */
  ghost predicate Filling(log: Log, k: nat)
    reads log, log.cache
  {
    && log.Valid() && log.cache.Valid() && !log.committing && log.n == k && log.size == LOGSIZE && log.start == 2
    && |log.cache.disk| == 2 + 2 * LOGSIZE && log.cache.dirty == {}
    && Shared(log.ops, k)
    && k <= |log.block| && Below(log.block[..k], 2 + LOGSIZE + k)
  }

  /** bread of one more block, which nobody has a buffer for. */
  method ReadNext(cache: Cache, no: nat, k: nat, ghost held: set<nat>) returns (b: nat)
    requires cache.Valid() && no < |cache.disk| && cache.dirty == {} && k < NBUF && Holding(cache.buf, held, k, no)
    modifies cache
    ensures cache.Valid() && b < NBUF && b !in held && cache.buf == old(cache.buf)[b := cache.buf[b]]
    ensures cache.buf[b].locked && cache.buf[b].valid && cache.buf[b].blockno == no
    ensures cache.disk == old(cache.disk) && cache.view == old(cache.view) && cache.pins == old(cache.pins)
    ensures cache.dirty == {} && cache.history == old(cache.history)
  {
    var ok;
    OneLeft(held, NBUF);
    b, ok := cache.Ref(ROOTDEV, no);
    assert Good(cache.buf[b], b, cache.waiting[b], cache.view, cache.pins, cache.dirty);
    cache.Acquire(b);
    cache.Fill(b);
  }

  lemma SharedNext(ops: map<nat, Op>, k: nat)
    requires k < LOGSIZE && Shared(ops, k)
    ensures Turn(k) in ops && ops[Turn(k)].used < MAXOPBLOCKS && Shared(Charge(ops, Turn(k)), k + 1)
  {
  }

  lemma HoldingNext(buf: seq<Buf>, buf': seq<Buf>, held: set<nat>, k: nat, no: nat, b: nat)
    requires Holding(buf, held, k, no) && b < NBUF == |buf'| && b !in held && buf' == buf[b := buf'[b]]
    requires buf'[b].blockno == no && buf'[b].refcnt > 0
    ensures Holding(buf', held + {b}, k + 1, no + 1)
  {
  }

  method LogNext(log: Log, k: nat, ghost held: set<nat>) returns (b: nat, panicked: bool)
    requires Filling(log, k) && Holding(log.cache.buf, held, k, 2 + LOGSIZE + k) && k < LOGSIZE
    modifies log, log.cache
    ensures panicked <==> k == LOGSIZE - 1
    ensures !panicked ==> Filling(log, k + 1) && Holding(log.cache.buf, held + {b}, k + 1, 2 + LOGSIZE + k + 1)
    ensures panicked ==> log.n == k && log.ops == old(log.ops) && log.Valid() && log.size == LOGSIZE
  {
    ghost var buf := log.cache.buf;
    b := ReadNext(log.cache, 2 + LOGSIZE + k, k, held);
    panicked := LogRead(log, b, k);
    assert log.cache.buf == buf[b := log.cache.buf[b]];
    HoldingNext(buf, log.cache.buf, held, k, 2 + LOGSIZE + k, b);
  }

  method LogRead(log: Log, b: nat, k: nat) returns (panicked: bool)
    requires Filling(log, k) && k < LOGSIZE && b < NBUF && log.cache.buf[b].locked && log.cache.buf[b].valid
    requires log.cache.buf[b].blockno == 2 + LOGSIZE + k
    modifies log, log.cache
    ensures panicked <==> k == LOGSIZE - 1
    ensures !panicked ==> Filling(log, k + 1)
    ensures panicked ==> log.n == k && log.ops == old(log.ops) && log.Valid() && log.size == LOGSIZE
    ensures |log.cache.buf| == NBUF && log.cache.buf == old(log.cache.buf)[b := log.cache.buf[b]]
    ensures log.cache.buf[b].blockno == 2 + LOGSIZE + k && log.cache.buf[b].refcnt > 0
  {
    SharedNext(log.ops, k);
    BelowNext(log.block[..k], 2 + LOGSIZE + k);
    panicked := log.LogWrite(b, Turn(k));
    assert Good(log.cache.buf[b], b, log.cache.waiting[b], log.cache.view, log.cache.pins, log.cache.dirty);
  }

  /** The reservation does not rule out the panic in log_write. On the log mkfs makes, three
      operations that begin_op lets in together, and that log no more than their ten blocks
      each, meet it at the thirtieth block. */
  method ReservationAllowsPanic() returns (log: Log, panicked: bool)
    ensures log.Valid() && log.size == LOGSIZE && log.n == LOGSIZE - 1
    ensures 2 in log.ops && log.ops[2].used == MAXOPBLOCKS - 1
    ensures panicked
  {
    log := ThreeOperations();
    panicked := false;
    var k, b := 0, 0;
    ghost var held: set<nat> := {};
    while !panicked
      invariant k < LOGSIZE
      invariant !panicked ==> Filling(log, k) && Holding(log.cache.buf, held, k, 2 + LOGSIZE + k)
      invariant panicked ==> k == LOGSIZE - 1 == log.n && log.Valid() && log.size == LOGSIZE
      invariant panicked ==> Shared(log.ops, k)
      decreases !panicked, LOGSIZE - k
    {
      b, panicked := LogNext(log, k, held);
      held := held + {b};
      if !panicked {
        k := k + 1;
      }
    }
  }

  method EmptyLog() returns (log: Log)
    ensures fresh(log) && fresh(log.cache) && log.Valid() && log.Collecting()
    ensures !log.committing && log.n == 0 && log.ops == map[]
    ensures log.size == LOGSIZE && log.start == 2 && |log.cache.disk| == 2 + 2 * LOGSIZE && log.cache.dirty == {}
    ensures Holding(log.cache.buf, {}, 0, 2 + LOGSIZE) && log.outstanding == 0
  {
    var cache := new Cache(seq(2 + 2 * LOGSIZE, _ => seq(WORDS, _ => 0)));
    log := new Log(cache, 2, LOGSIZE);
    assert log.block[..0] == [];
  }

  method ThreeOperations() returns (log: Log)
    ensures Filling(log, 0) && Holding(log.cache.buf, {}, 0, 2 + LOGSIZE) && fresh(log) && fresh(log.cache)
  {
    log := EmptyLog();
    var admitted := log.BeginOp(0);
    admitted := log.BeginOp(1);
    admitted := log.BeginOp(2);
  }
}
