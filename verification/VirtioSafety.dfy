/** What every step of the driver and of the device keeps. */
module VirtioSafety {
  import opened Collections
  import opened VirtioQueue

  predicate Finished(ph: Phase) {
    ph == Answered || ph == Done || ph == Released
  }

  /** An outstanding request and everything that speaks of it. */
  predicate Chain(s: State, h: nat)
    requires Wf(s)
  {
    h in s.reqs ==>
      var r := s.reqs[h];
      && h < NUM && r.mid < NUM && r.tail < NUM && h != r.mid && r.mid != r.tail && h != r.tail && r.head == h
      && s.who[h] == h && s.who[r.mid] == h && s.who[r.tail] == h
      && s.desc[h] == Desc(r.mid, true) && s.desc[r.mid] == Desc(r.tail, true) && s.desc[r.tail] == Desc(0, false)
      && r.buf > 0 && s.info[h] == r.buf && r.id < s.nextId
      && (r.buf in s.busy <==> r.phase != Released)
      && (s.status[h] <==> Finished(r.phase))
      && (r.id in s.completed <==> Finished(r.phase)) && (r.id in s.released <==> r.phase == Released)
      && (r.phase == Filled || r.phase == Ringed <==> s.lock == Submitting(h))
      && (r.phase == Ringed ==> s.avail[s.availIdx % NUM] == h)
      && (r.phase == Posted <==> h in s.posted)
      && (r.phase == Answered ==> s.used[s.usedIdx % NUM] == h)
      && (r.phase == Done <==> h in s.done)
  }

  /** A descriptor is free exactly when it belongs to no request, and otherwise is one of the
      three of its request. */
  predicate Whose(s: State, d: nat)
    requires Wf(s)
  {
    d < NUM ==>
      && s.who[d] <= NUM && (s.free[d] <==> s.who[d] == NUM) && (s.free[d] ==> s.desc[d] == Desc(0, false))
      && (s.who[d] < NUM ==>
          s.who[d] in s.reqs && var r := s.reqs[s.who[d]]; d == s.who[d] || d == r.mid || d == r.tail)
  }

  predicate Apart(s: State, h: nat, k: nat) {
    h in s.reqs && k in s.reqs && h != k ==>
      && s.reqs[h].buf != s.reqs[k].buf && s.reqs[h].id != s.reqs[k].id
      && !(s.reqs[h].phase == Answered && s.reqs[k].phase == Answered)
  }

  /** Position k of the entries the device has not taken yet. */
  predicate PostedAt(s: State, k: nat)
    requires Wf(s)
  {
    k < |s.posted| ==> s.posted[k] in s.reqs && s.posted[k] < NUM && s.avail[(s.taken + k) % NUM] == s.posted[k]
  }

  predicate DoneAt(s: State, k: nat)
    requires Wf(s)
  {
    k < |s.done| ==> s.done[k] in s.reqs && s.done[k] < NUM && s.used[(s.seenIdx + k) % NUM] == s.done[k]
  }

  ghost predicate Rings(s: State)
    requires Wf(s)
  {
    && s.availIdx == (s.taken + |s.posted|) % WRAP && s.usedIdx == (s.seenIdx + |s.done|) % WRAP
    && NoRepeats(s.posted) && NoRepeats(s.done)
    && (forall k: nat {:trigger PostedAt(s, k)} :: PostedAt(s, k))
    && (forall k: nat {:trigger DoneAt(s, k)} :: DoneAt(s, k))
  }

  ghost predicate Requests(s: State)
    requires Wf(s)
  {
    && (forall h: nat {:trigger Chain(s, h)} :: Chain(s, h))
    && (forall d: nat {:trigger Whose(s, d)} :: Whose(s, d))
    && (forall h: nat, k: nat {:trigger Apart(s, h, k)} :: Apart(s, h, k))
    && (s.lock.Submitting? ==> s.lock.head in s.reqs)
    && s.released <= s.completed && (forall n :: n in s.completed ==> n < s.nextId)
  }

  ghost predicate Inv(s: State) {
    Wf(s) && Rings(s) && Requests(s)
  }

  lemma InitialInv()
    ensures Inv(Initial())
  {
  }

  /** Distinct numbers below n are at most n many. */
  lemma {:induction false} Pigeonhole(l: seq<nat>, n: nat)
    requires NoRepeats(l) && forall i :: 0 <= i < |l| ==> l[i] < n
    ensures |l| <= n
  {
    assert |l| > 0 ==> l[0] < n;
    if n > 0 {
      if i :| 0 <= i < |l| && l[i] == n - 1 {
        Pigeonhole(l[..i] + l[i + 1..], n - 1);
      } else {
        Pigeonhole(l, n - 1);
      }
    }
  }

  /** The index wraps at a multiple of the ring size, so ring positions carry on. */
  lemma WrapPosition(i: nat, k: nat)
    ensures (i % WRAP + k) % NUM == (i + k) % NUM
  {
    assert i == WRAP * (i / WRAP) + i % WRAP;
    assert i + k == NUM * (8192 * (i / WRAP)) + (i % WRAP + k);
  }

  lemma PositionsDiffer(i: nat, j: nat, k: nat)
    requires j < k < j + NUM
    ensures (i + j) % NUM != (i + k) % NUM
  {
    assert i + j == NUM * ((i + j) / NUM) + (i + j) % NUM;
    assert i + k == NUM * ((i + k) / NUM) + (i + k) % NUM;
  }

  lemma NotQueued(s: State, h: nat)
    requires Inv(s) && h !in s.reqs
    ensures h !in s.posted && h !in s.done
  {
    forall k | 0 <= k < |s.posted| ensures s.posted[k] != h {
      assert PostedAt(s, k);
    }
    forall k | 0 <= k < |s.done| ensures s.done[k] != h {
      assert DoneAt(s, k);
    }
  }

  lemma SubmitChain(s: State, b: nat, h: nat, m: nat, t: nat, k: nat)
    requires Wf(s) && CanSubmit(s, b, h, m, t) && h !in s.reqs && h !in s.posted && h !in s.done
    requires Chain(s, k) && Whose(s, h) && Whose(s, m) && Whose(s, t) && s.released <= s.completed
    requires s.nextId !in s.completed
    ensures Chain(DoSubmit(s, b, h, m, t), k)
  {
  }

  lemma SubmitKeeps(s: State, b: nat, h: nat, m: nat, t: nat)
    requires Inv(s) && CanSubmit(s, b, h, m, t)
    ensures Inv(DoSubmit(s, b, h, m, t))
  {
    var s' := DoSubmit(s, b, h, m, t);
    assert Whose(s, h) && Whose(s, m) && Whose(s, t) && Chain(s, h);
    NotQueued(s, h);
    forall k: nat ensures Chain(s', k) {
      assert Chain(s, k);
      SubmitChain(s, b, h, m, t, k);
    }
    forall d: nat ensures Whose(s', d) {
      assert Whose(s, d);
    }
    forall k: nat, l: nat ensures Apart(s', k, l) {
      assert Apart(s, k, l) && Chain(s, k) && Chain(s, l);
    }
    forall k: nat ensures PostedAt(s', k) && DoneAt(s', k) {
      assert PostedAt(s, k) && DoneAt(s, k);
    }
  }

  lemma PostedRoom(s: State, h: nat)
    requires Wf(s) && Rings(s) && h < NUM && h !in s.posted
    ensures |s.posted| < NUM
  {
    var l := s.posted + [h];
    forall i | 0 <= i < |s.posted| ensures l[i] < NUM && l[i] != h {
      assert PostedAt(s, i);
    }
    Pigeonhole(l, NUM);
  }

  lemma DoneRoom(s: State, h: nat)
    requires Wf(s) && Rings(s) && h < NUM && h !in s.done
    ensures |s.done| < NUM
  {
    var l := s.done + [h];
    forall i | 0 <= i < |s.done| ensures l[i] < NUM && l[i] != h {
      assert DoneAt(s, i);
    }
    Pigeonhole(l, NUM);
  }

  lemma WriteRingChain(s: State, h: nat, k: nat)
    requires Wf(s) && CanWriteRing(s) && h == s.lock.head && Chain(s, h) && Chain(s, k)
    ensures Chain(DoWriteRing(s), k)
  {
  }

  /** The slot the driver writes is none of those the device has still to read. */
  lemma WriteRingKeeps(s: State)
    requires Inv(s) && CanWriteRing(s)
    ensures Inv(DoWriteRing(s))
  {
    var s', h := DoWriteRing(s), s.lock.head;
    assert Chain(s, h);
    PostedRoom(s, h);
    forall k: nat ensures Chain(s', k) {
      assert Chain(s, k);
      WriteRingChain(s, h, k);
    }
    forall d: nat ensures Whose(s', d) {
      assert Whose(s, d);
    }
    forall k: nat, l: nat ensures Apart(s', k, l) {
      assert Apart(s, k, l);
    }
    forall k: nat ensures PostedAt(s', k) {
      assert PostedAt(s, k);
      if k < |s.posted| {
        WrapPosition(s.taken + |s.posted|, 0);
        PositionsDiffer(s.taken, k, |s.posted|);
      }
    }
    forall k: nat ensures DoneAt(s', k) {
      assert DoneAt(s, k);
    }
  }

  lemma BumpAvailChain(s: State, h: nat, k: nat)
    requires Wf(s) && CanBumpAvail(s) && h == s.lock.head && Chain(s, h) && Chain(s, k)
    ensures Chain(DoBumpAvail(s), k)
  {
  }

  lemma BumpAvailKeeps(s: State)
    requires Inv(s) && CanBumpAvail(s)
    ensures Inv(DoBumpAvail(s))
  {
    var s', h := DoBumpAvail(s), s.lock.head;
    assert Chain(s, h);
    forall k: nat ensures Chain(s', k) {
      assert Chain(s, k);
      BumpAvailChain(s, h, k);
    }
    forall d: nat ensures Whose(s', d) {
      assert Whose(s, d);
    }
    forall k: nat, l: nat ensures Apart(s', k, l) {
      assert Apart(s, k, l);
    }
    WrapPosition(s.taken + |s.posted|, 0);
    forall k: nat ensures PostedAt(s', k) && DoneAt(s', k) {
      assert PostedAt(s, k) && DoneAt(s, k);
    }
    NextIndex(s.taken + |s.posted|);
  }

  lemma NextIndex(n: nat)
    ensures (n % WRAP + 1) % WRAP == (n + 1) % WRAP
  {
  }

  lemma LockKeeps(s: State)
    requires Inv(s) && !s.lock.Submitting?
    ensures Inv(s.(lock := Open)) && Inv(s.(lock := Interrupt))
  {
    forall lk | lk == Open || lk == Interrupt ensures Inv(s.(lock := lk)) {
      var s' := s.(lock := lk);
      forall k: nat ensures Chain(s', k) && Whose(s', k) && PostedAt(s', k) && DoneAt(s', k) {
        assert Chain(s, k) && Whose(s, k) && PostedAt(s, k) && DoneAt(s, k);
      }
      forall k: nat, l: nat ensures Apart(s', k, l) {
        assert Apart(s, k, l);
      }
    }
  }

  /** What the interrupt handler reads is a request that the device has finished and whose
      buffer has not been given back. */
  lemma UsedEntry(s: State)
    requires Inv(s) && s.seenIdx != s.usedIdx
    ensures var h := s.used[s.seenIdx % NUM];
            s.done != [] && h == s.done[0] && h < NUM && h in s.reqs && s.reqs[h].phase == Done && s.status[h]
            && s.reqs[h].id in s.completed && s.reqs[h].id !in s.released && s.info[h] in s.busy
  {
    assert DoneAt(s, 0);
    assert Chain(s, s.done[0]);
  }

  lemma TakeUsedChain(s: State, h: nat, k: nat)
    requires Wf(s) && CanTakeUsed(s) && h == s.used[s.seenIdx % NUM] && s.done != [] && h == s.done[0]
    requires NoRepeats(s.done)
    requires h in s.reqs && s.reqs[h].phase == Done && Chain(s, k) && Chain(s, h) && Apart(s, h, k)
    ensures Chain(DoTakeUsed(s), k)
  {
    assert s.done == [h] + Tail(s.done);
    assert h !in Tail(s.done);
  }

  lemma TakeUsedRings(s: State)
    requires Inv(s) && CanTakeUsed(s) && s.done != []
    ensures Wf(DoTakeUsed(s)) && Rings(DoTakeUsed(s))
  {
    var s' := DoTakeUsed(s);
    forall k: nat ensures PostedAt(s', k) && DoneAt(s', k) {
      assert PostedAt(s, k) && DoneAt(s, k + 1);
      WrapPosition(s.seenIdx + 1, k);
    }
    SeenIndex(s.seenIdx, |s.done|);
  }

  lemma TakeUsedKeeps(s: State)
    requires Inv(s) && CanTakeUsed(s)
    ensures Inv(DoTakeUsed(s))
  {
    var s', h := DoTakeUsed(s), s.used[s.seenIdx % NUM];
    UsedEntry(s);
    TakeUsedRings(s);
    forall k: nat ensures Chain(s', k) {
      assert Chain(s, k) && Apart(s, h, k) && Chain(s, h);
      TakeUsedChain(s, h, k);
    }
    forall d: nat ensures Whose(s', d) {
      assert Whose(s, d);
    }
    forall k: nat, l: nat ensures Apart(s', k, l) {
      assert Apart(s, k, l);
    }
  }

  lemma SeenIndex(i: nat, n: nat)
    requires n > 0
    ensures ((i + 1) % WRAP + (n - 1)) % WRAP == (i + n) % WRAP
  {
    var q := (i + 1) / WRAP;
    assert i + 1 == WRAP * q + (i + 1) % WRAP;
    assert i + n == WRAP * q + ((i + 1) % WRAP + (n - 1));
  }

  lemma FinishChain(s: State, h: nat, k: nat)
    requires Wf(s) && CanFinish(s, h) && Chain(s, k) && Chain(s, h) && s.who[h] == h
    ensures Chain(DoFinish(s, h), k)
  {
  }

  /** Only a request whose buffer was given back is freed, and only its own descriptors. */
  lemma FinishKeeps(s: State, h: nat)
    requires Inv(s) && CanFinish(s, h)
    ensures Inv(DoFinish(s, h))
  {
    var s' := DoFinish(s, h);
    assert Chain(s, h);
    forall k: nat ensures Chain(s', k) {
      assert Chain(s, k);
      FinishChain(s, h, k);
    }
    forall d: nat ensures Whose(s', d) {
      assert Whose(s, d);
    }
    forall k: nat, l: nat ensures Apart(s', k, l) {
      assert Apart(s, k, l);
    }
    forall k: nat ensures PostedAt(s', k) && DoneAt(s', k) {
      assert PostedAt(s, k) && DoneAt(s, k);
    }
  }

  /** What the device takes is a posted request. */
  lemma AvailEntry(s: State)
    requires Inv(s) && CanTake(s)
    ensures var h := s.avail[s.taken % NUM];
            s.posted != [] && h == s.posted[0] && h < NUM && h in s.reqs && s.reqs[h].phase == Posted
  {
    assert PostedAt(s, 0);
    assert Chain(s, s.posted[0]);
  }

  lemma TakeChain(s: State, h: nat, k: nat)
    requires Wf(s) && CanTake(s) && h == s.avail[s.taken % NUM] && s.posted != [] && h == s.posted[0]
    requires NoRepeats(s.posted)
    requires h in s.reqs && s.reqs[h].phase == Posted && Chain(s, k) && Chain(s, h)
    ensures Chain(DoTake(s), k)
  {
    assert s.posted == [h] + Tail(s.posted);
    assert h !in Tail(s.posted);
  }

  lemma TakeRings(s: State)
    requires Inv(s) && CanTake(s) && s.posted != []
    ensures Wf(DoTake(s)) && Rings(DoTake(s))
  {
    var s' := DoTake(s);
    forall k: nat ensures PostedAt(s', k) && DoneAt(s', k) {
      assert PostedAt(s, k + 1) && DoneAt(s, k);
      WrapPosition(s.taken + 1, k);
    }
    SeenIndex(s.taken, |s.posted|);
  }

  lemma TakeKeeps(s: State)
    requires Inv(s) && CanTake(s)
    ensures Inv(DoTake(s))
  {
    var s', h := DoTake(s), s.avail[s.taken % NUM];
    AvailEntry(s);
    TakeRings(s);
    forall k: nat ensures Chain(s', k) {
      assert Chain(s, k) && Chain(s, h);
      TakeChain(s, h, k);
    }
    forall d: nat ensures Whose(s', d) {
      assert Whose(s, d);
    }
    forall k: nat, l: nat ensures Apart(s', k, l) {
      assert Apart(s, k, l);
    }
  }

  lemma AnswerChain(s: State, h: nat, k: nat)
    requires Wf(s) && CanAnswer(s, h) && Chain(s, h) && Chain(s, k) && Apart(s, h, k)
    ensures Chain(DoAnswer(s, h), k)
  {
  }

  /** The slot the device writes is none of those the driver has still to read. */
  lemma AnswerKeeps(s: State, h: nat)
    requires Inv(s) && CanAnswer(s, h)
    ensures Inv(DoAnswer(s, h))
  {
    var s' := DoAnswer(s, h);
    assert Chain(s, h);
    DoneRoom(s, h);
    forall k: nat ensures Chain(s', k) {
      assert Chain(s, k) && Apart(s, h, k);
      AnswerChain(s, h, k);
    }
    forall d: nat ensures Whose(s', d) {
      assert Whose(s, d);
    }
    forall k: nat, l: nat ensures Apart(s', k, l) {
      assert Apart(s, k, l);
    }
    forall k: nat ensures DoneAt(s', k) {
      assert DoneAt(s, k);
      if k < |s.done| {
        WrapPosition(s.seenIdx + |s.done|, 0);
        PositionsDiffer(s.seenIdx, k, |s.done|);
      }
    }
    forall k: nat ensures PostedAt(s', k) {
      assert PostedAt(s, k);
    }
  }

  lemma BumpUsedChain(s: State, h: nat, k: nat)
    requires Wf(s) && CanBumpUsed(s, h) && Chain(s, h) && Chain(s, k) && Apart(s, h, k)
    ensures Chain(DoBumpUsed(s, h), k)
  {
  }

  lemma BumpUsedKeeps(s: State, h: nat)
    requires Inv(s) && CanBumpUsed(s, h)
    ensures Inv(DoBumpUsed(s, h))
  {
    var s' := DoBumpUsed(s, h);
    assert Chain(s, h);
    forall k: nat ensures Chain(s', k) {
      assert Chain(s, k) && Apart(s, h, k);
      BumpUsedChain(s, h, k);
    }
    forall d: nat ensures Whose(s', d) {
      assert Whose(s, d);
    }
    forall k: nat, l: nat ensures Apart(s', k, l) {
      assert Apart(s, k, l);
    }
    WrapPosition(s.seenIdx + |s.done|, 0);
    forall k: nat ensures PostedAt(s', k) && DoneAt(s', k) {
      assert PostedAt(s, k) && DoneAt(s, k);
    }
    NextIndex(s.seenIdx + |s.done|);
  }

  /** Every step of the driver or the device keeps the invariant. */
  lemma StepKeepsInv(s: State, step: Step)
    requires Inv(s) && Enabled(s, step)
    ensures Inv(Next(s, step))
  {
    match step
    case Submit(b, h, m, t) => SubmitKeeps(s, b, h, m, t);
    case WriteRing => WriteRingKeeps(s);
    case BumpAvail => BumpAvailKeeps(s);
    case EnterIntr => LockKeeps(s);
    case TakeUsed => TakeUsedKeeps(s);
    case LeaveIntr => LockKeeps(s);
    case Finish(h) => FinishKeeps(s, h);
    case Take => TakeKeeps(s);
    case Answer(h) => AnswerKeeps(s, h);
    case BumpUsed(h) => BumpUsedKeeps(s, h);
  }
}
