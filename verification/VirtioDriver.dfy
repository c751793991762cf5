/** The functions of virtio_disk.c, each proved to take the step of the queue it stands for. */
module VirtioDriver {
  import opened Collections
  import opened VirtioQueue
  import opened VirtioSafety

  /** The links lead through the positions in p and stop, over distinct descriptors in use. */
  ghost predicate Path(free: seq<bool>, desc: seq<Desc>, p: seq<nat>)
    requires |free| == |desc| == NUM
  {
    && |p| > 0 && NoRepeats(p) && (forall i :: 0 <= i < |p| ==> p[i] < NUM && !free[p[i]])
    && (forall i :: 0 <= i < |p| - 1 ==> desc[p[i]] == Desc(p[i + 1], true))
    && !desc[p[|p| - 1]].chained
  }

  /** What the device leaves alone, and that it only adds to what it has completed. */
  ghost predicate DeviceRan(s: State, s': State) {
    && s'.free == s.free && s'.desc == s.desc && s'.avail == s.avail && s'.availIdx == s.availIdx
    && s'.seenIdx == s.seenIdx && s'.info == s.info && s'.busy == s.busy && s'.lock == s.lock
    && s'.reqs.Keys == s.reqs.Keys && s.done <= s'.done
  }

  /** Every step of the device, and so any number of them, keeps to that. */
  lemma DeviceRespects(s: State, step: Step)
    requires Inv(s) && Enabled(s, step) && (step.Take? || step.Answer? || step.BumpUsed?)
    ensures Inv(Next(s, step)) && DeviceRan(s, Next(s, step))
  {
    StepKeepsInv(s, step);
  }

  lemma DeviceRanTrans(s: State, s1: State, s2: State)
    requires DeviceRan(s, s1) && DeviceRan(s1, s2)
    ensures DeviceRan(s, s2)
  {
  }

  /** The buffers of the requests with these heads. */
  ghost predicate Taken(s: State, heads: seq<nat>, given: seq<nat>) {
    |heads| == |given| && forall k :: 0 <= k < |heads| ==> heads[k] < |s.info| && given[k] == s.info[heads[k]]
  }

  /** First come the buffers of the requests that were completed already, in that order. */
  ghost predicate InOrder(s: State, given: seq<nat>) {
    |s.done| <= |given| && Taken(s, s.done, given[..|s.done|])
  }

  class Disk {
    var free: seq<bool>
    var desc: seq<Desc>
    var avail: seq<nat>
    var availIdx: nat
    var used: seq<nat>
    var usedIdx: nat
    var seenIdx: nat          // disk.used_idx
    var info: seq<nat>
    var status: seq<bool>
    ghost var queue: State    // the whole queue, the device's side included

    ghost predicate Valid()
      reads this
    {
      && Inv(queue)
      && queue.free == free && queue.desc == desc && queue.avail == avail && queue.availIdx == availIdx
      && queue.used == used && queue.usedIdx == usedIdx && queue.seenIdx == seenIdx && queue.info == info
      && queue.status == status
    }

    constructor ()
      ensures Valid() && queue == Initial()
    {
      free, desc := seq(NUM, i => true), seq(NUM, i => Desc(0, false));
      avail, availIdx, used, usedIdx, seenIdx := seq(NUM, i => 0), 0, seq(NUM, i => 0), 0, 0;
      info, status, queue := seq(NUM, i => 0), seq(NUM, i => false), Initial();
      InitialInv();
    }

    /** alloc_desc: the lowest free descriptor, or -1 if there is none. */
    method AllocDesc() returns (d: int)
      requires |free| == NUM
      modifies this`free
      ensures |free| == NUM && -1 <= d < NUM
      ensures d == -1 ==> free == old(free) && forall i :: 0 <= i < NUM ==> !free[i]
      ensures d >= 0 ==> old(free)[d] && (forall i :: 0 <= i < d ==> !old(free)[i]) && free == old(free)[d := false]
    {
      var i := 0;
      while i < NUM
        invariant i <= NUM && free == old(free) && forall j :: 0 <= j < i ==> !free[j]
      {
        if free[i] {
          free := free[i := false];
          return i;
        }
        i := i + 1;
      }
      d := -1;
    }

    /** free_desc; the two panics are its preconditions. */
    method FreeDesc(i: nat)
      requires |free| == |desc| == NUM && i < NUM && !free[i]
      modifies this`free, this`desc
      ensures free == old(free)[i := true] && desc == old(desc)[i := Desc(0, false)]
    {
      desc := desc[i := Desc(0, false)];
      free := free[i := true];
    }

    /** alloc3_desc: three free descriptors; or none, with everything as it was, when fewer than
        three are free. */
    method Alloc3Desc() returns (ok: bool, idx: seq<nat>)
      requires |free| == |desc| == NUM && forall d :: 0 <= d < NUM && free[d] ==> desc[d] == Desc(0, false)
      modifies this`free, this`desc
      ensures desc == old(desc)
      ensures ok ==> |idx| == 3 && NoRepeats(idx) && forall k :: 0 <= k < 3 ==> idx[k] < NUM && old(free)[idx[k]]
      ensures ok ==> free == old(free)[idx[0] := false][idx[1] := false][idx[2] := false]
      ensures !ok ==> free == old(free)
      ensures !ok ==> forall a, b, c :: 0 <= a < b < c < NUM ==> !(free[a] && free[b] && free[c])
    {
      ok, idx := true, [];
      while |idx| < 3
        invariant ok && |idx| <= 3 && desc == old(desc) && |free| == NUM && NoRepeats(idx)
        invariant forall k :: 0 <= k < |idx| ==> idx[k] < NUM && old(free)[idx[k]] && !free[idx[k]]
        invariant forall d :: 0 <= d < NUM && d !in idx ==> free[d] == old(free)[d]
        decreases 3 - |idx|
      {
        var d := AllocDesc();
        if d < 0 {
          assert forall a :: 0 <= a < NUM && old(free)[a] ==> a in idx;
          PutBack(idx, old(free));
          return false, idx;
        }
        idx := idx + [d];
      }
    }

    /** The inner loop of alloc3_desc. */
    method PutBack(idx: seq<nat>, ghost was: seq<bool>)
      requires |free| == |desc| == |was| == NUM && NoRepeats(idx)
      requires forall k :: 0 <= k < |idx| ==>
               idx[k] < NUM && was[idx[k]] && !free[idx[k]] && desc[idx[k]] == Desc(0, false)
      requires forall d :: 0 <= d < NUM && d !in idx ==> free[d] == was[d]
      modifies this`free, this`desc
      ensures free == was && desc == old(desc)
    {
      var j := 0;
      while j < |idx|
        invariant j <= |idx| && |free| == |desc| == NUM && desc == old(desc)
        invariant forall k :: 0 <= k < j ==> free[idx[k]]
        invariant forall k :: j <= k < |idx| ==> !free[idx[k]]
        invariant forall d :: 0 <= d < NUM && d !in idx ==> free[d] == was[d]
      {
        FreeDesc(idx[j]);
        j := j + 1;
      }
    }

    /** free_chain: following the links from i frees the descriptors on the path and no others. */
    method FreeChain(i: nat, ghost p: seq<nat>)
      requires |free| == |desc| == NUM && Path(free, desc, p) && i == p[0]
      modifies this`free, this`desc
      ensures |free| == |desc| == NUM
      ensures forall d :: 0 <= d < NUM ==> free[d] == (old(free)[d] || d in p)
      ensures forall d :: 0 <= d < NUM ==> desc[d] == if d in p then Desc(0, false) else old(desc)[d]
    {
      var d := i;
      ghost var n := 0;
      while true
        invariant |free| == |desc| == NUM && 0 <= n < |p| && d == p[n]
        invariant forall e :: 0 <= e < NUM ==> free[e] == (old(free)[e] || e in p[..n])
        invariant forall e :: 0 <= e < NUM ==> desc[e] == if e in p[..n] then Desc(0, false) else old(desc)[e]
        decreases |p| - n
      {
        assert d !in p[..n] && desc[d] == old(desc)[p[n]];
        assert n < |p| - 1 ==> desc[d] == Desc(p[n + 1], true);
        var chained, next := desc[d].chained, desc[d].next;
        FreeDesc(d);
        assert p[..n + 1] == p[..n] + [d];
        if !chained {
          assert n == |p| - 1 && p[..n + 1] == p;
          return;
        }
        d, n := next, n + 1;
      }
    }

    /** virtio_disk_rw up to the avail ring: a request for buffer b with three free descriptors;
        or nothing, when fewer than three are free and the caller has to sleep. */
    method Submit(b: nat) returns (ok: bool)
      requires Valid() && queue.lock.Open? && b > 0 && forall k :: k in queue.reqs ==> queue.reqs[k].buf != b
      modifies this
      ensures Valid()
      ensures !ok ==> queue == old(queue) && forall x, y, z :: 0 <= x < y < z < NUM ==> !(free[x] && free[y] && free[z])
      ensures ok ==> exists h, m, t :: CanSubmit(old(queue), b, h, m, t) && queue == DoSubmit(old(queue), b, h, m, t)
    {
      forall d | 0 <= d < NUM && free[d] ensures desc[d] == Desc(0, false) {
        assert Whose(queue, d);
      }
      var idx;
      ok, idx := Alloc3Desc();
      if !ok {
        return;
      }
      var h, m, t := idx[0], idx[1], idx[2];
      assert CanSubmit(queue, b, h, m, t);
      desc := desc[h := Desc(m, true)];
      desc := desc[m := Desc(t, true)];
      status := status[h := false];
      desc := desc[t := Desc(0, false)];
      info := info[h := b];
      SubmitKeeps(queue, b, h, m, t);
      queue := DoSubmit(queue, b, h, m, t);
    }

    /** The head goes into the avail ring. */
    method WriteRing(head: nat)
      requires Valid() && queue.lock == Submitting(head) && CanWriteRing(queue)
      modifies this
      ensures Valid() && queue == DoWriteRing(old(queue))
    {
      WriteRingKeeps(queue);
      avail := avail[availIdx % NUM := head];
      queue := DoWriteRing(queue);
    }

    /** The avail index moves on and the submitter sleeps. */
    method BumpAvail()
      requires Valid() && CanBumpAvail(queue)
      modifies this
      ensures Valid() && queue == DoBumpAvail(old(queue))
    {
      BumpAvailKeeps(queue);
      availIdx := (availIdx + 1) % WRAP;
      queue := DoBumpAvail(queue);
    }

    /** One turn of virtio_disk_intr's loop. Its panic is out of reach: the status is written. */
    method TakeUsed() returns (b: nat)
      requires Valid() && queue.lock.Interrupt? && seenIdx != usedIdx
      modifies this
      ensures CanTakeUsed(old(queue)) && Valid() && queue == DoTakeUsed(old(queue))
      ensures b in old(queue).busy && queue.busy == old(queue).busy - {b}
    {
      UsedEntry(queue);
      var id := used[seenIdx % NUM];
      assert status[id];
      b := info[id];
      TakeUsedKeeps(queue);
      seenIdx := (seenIdx + 1) % WRAP;
      queue := DoTakeUsed(queue);
    }

    /** The device works on while the driver is between two reads of its memory. Callers know no
        more of what it did than DeviceRan, which every step of the device keeps. */
    method AwaitDevice()
      requires Valid()
      modifies this`used, this`usedIdx, this`status, this`queue
      ensures Valid() && DeviceRan(old(queue), queue)
    {
    }

    /** virtio_disk_intr, with the device completing requests meanwhile: the buffers of all
        requests completed before it, and of those it finds on the way, are given back, each
        once and in order; it ends. */
    method Intr() returns (given: seq<nat>)
      requires Valid() && queue.lock.Open?
      modifies this
      ensures Valid() && queue.lock.Open? && queue.done == [] && queue.reqs.Keys == old(queue).reqs.Keys
      ensures forall k :: 0 <= k < |given| ==> given[k] in old(queue).busy && given[k] !in queue.busy
      ensures NoRepeats(given) && InOrder(old(queue), given)
    {
      LockKeeps(queue);
      queue := DoEnterIntr(queue);
      given := [];
      ghost var heads: seq<nat> := [];
      AwaitDevice();
      while seenIdx != usedIdx
        invariant Valid() && queue.lock.Interrupt? && info == old(info)
        invariant queue.busy <= old(queue).busy && queue.reqs.Keys == old(queue).reqs.Keys
        invariant forall k :: 0 <= k < |given| ==> given[k] in old(queue).busy && given[k] !in queue.busy
        invariant NoRepeats(given) && Taken(old(queue), heads, given) && old(queue).done <= heads + queue.done
        decreases |queue.busy|
      {
        UsedEntry(queue);
        heads := heads + [queue.done[0]];
        var b := TakeUsed();
        given := given + [b];
        AwaitDevice();
      }
      SeenAll(queue);
      LockKeeps(queue);
      queue := DoLeaveIntr(queue);
    }

    /** The end of virtio_disk_rw for the request with head h. */
    method Finish(h: nat)
      requires Valid() && CanFinish(queue, h)
      modifies this
      ensures Valid() && queue == DoFinish(old(queue), h)
    {
      assert Chain(queue, h);
      ghost var r := queue.reqs[h];
      forall d | d == h || d == r.mid || d == r.tail ensures !free[d] {
        assert Whose(queue, d);
      }
      FinishKeeps(queue, h);
      info := info[h := 0];
      FreeChain(h, [h, r.mid, r.tail]);
      queue := DoFinish(queue, h);
      assert free == queue.free && desc == queue.desc;
    }
  }

  lemma SeenAll(s: State)
    requires Inv(s) && s.seenIdx == s.usedIdx
    ensures s.done == []
  {
    forall k | 0 <= k < |s.done| ensures s.done[k] < NUM {
      assert DoneAt(s, k);
    }
    Pigeonhole(s.done, NUM);
  }
}
