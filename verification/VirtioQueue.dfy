/** The driver and the device of virtio_disk.c as two actors over a split virtqueue (sections
    2.6 and 5.2 of VIRTIO version 1.1). A step is one action the other actor can see. */
module VirtioQueue {
  const NUM: nat := 8
  const WRAP: nat := 0x1_0000     // the ring indices are 16 bits wide

  /** How far a request has got. */
  datatype Phase =
    | Filled         // its descriptors are set up
    | Ringed         // its head is in the avail ring, not yet counted
    | Posted         // the device may take it
    | Active         // the device is working on it
    | Answered       // its head is in the used ring, not yet counted
    | Done           // the driver may see that it is finished
    | Released       // the interrupt handler has given the buffer back

  /** An outstanding request: its number in the order of submission, its buffer and its three descriptors. */
  datatype Request = Request(id: nat, buf: nat, head: nat, mid: nat, tail: nat, phase: Phase)

  /** The parts of a descriptor the driver follows. */
  datatype Desc = Desc(next: nat, chained: bool)

  /** Who holds vdisk_lock, as far as it matters: the submitter of a request not yet posted,
      or the interrupt handler. */
  datatype Lock = Open | Submitting(head: nat) | Interrupt

  /** `who[d]` is the head of the request that descriptor d belongs to, NUM for none; with
      `reqs`, the queues and the two sets it is kept for the proofs. The rest is the driver's
      and the device's state; `taken` is how far the device has read the avail ring. */
  datatype State = State(
    free: seq<bool>, desc: seq<Desc>, avail: seq<nat>, availIdx: nat, used: seq<nat>, usedIdx: nat, seenIdx: nat,
    info: seq<nat>, status: seq<bool>, busy: set<nat>, lock: Lock, taken: nat,
    who: seq<nat>, reqs: map<nat, Request>, posted: seq<nat>, done: seq<nat>, nextId: nat, completed: set<nat>,
    released: set<nat>)

  predicate Wf(s: State) {
    && |s.free| == |s.desc| == |s.avail| == |s.used| == |s.info| == |s.status| == |s.who| == NUM
    && s.availIdx < WRAP && s.usedIdx < WRAP && s.seenIdx < WRAP && s.taken < WRAP
  }

  /** Bookkeeping: the request with head h moves on. */
  function WithPhase(s: State, h: nat, ph: Phase): State {
    if h in s.reqs then s.(reqs := s.reqs[h := s.reqs[h].(phase := ph)]) else s
  }

  function Tail(l: seq<nat>): seq<nat> {
    if l == [] then [] else l[1..]
  }

  function IdOf(s: State, h: nat): set<nat> {
    if h in s.reqs then {s.reqs[h].id} else {}
  }

  datatype Step =
    // by the driver
    | Submit(b: nat, h: nat, m: nat, t: nat) | WriteRing | BumpAvail | EnterIntr | TakeUsed | LeaveIntr
    | Finish(h: nat)
    // by the device
    | Take | Answer(h: nat) | BumpUsed(h: nat)

  /** virtio_disk_rw up to the avail ring, with the descriptors alloc3_desc found. The caller
      holds the buffer's sleep lock, so the buffer is in no other request. */
  predicate CanSubmit(s: State, b: nat, h: nat, m: nat, t: nat)
    requires Wf(s)
  {
    && s.lock.Open? && h < NUM && m < NUM && t < NUM && h != m && m != t && h != t && s.free[h] && s.free[m]
    && s.free[t]
    && b > 0 && forall k :: k in s.reqs ==> s.reqs[k].buf != b
  }

  function DoSubmit(s: State, b: nat, h: nat, m: nat, t: nat): State
    requires Wf(s) && CanSubmit(s, b, h, m, t)
  {
    s.(free := s.free[h := false][m := false][t := false],
       desc := s.desc[h := Desc(m, true)][m := Desc(t, true)][t := Desc(0, false)],
       status := s.status[h := false], info := s.info[h := b], busy := s.busy + {b}, lock := Submitting(h),
       who := s.who[h := h][m := h][t := h], reqs := s.reqs[h := Request(s.nextId, b, h, m, t, Filled)],
       nextId := s.nextId + 1)
  }

  predicate CanWriteRing(s: State)
    requires Wf(s)
  {
    s.lock.Submitting? && s.lock.head in s.reqs && s.reqs[s.lock.head].phase == Filled
  }

  function DoWriteRing(s: State): State
    requires Wf(s) && CanWriteRing(s)
  {
    WithPhase(s, s.lock.head, Ringed).(avail := s.avail[s.availIdx % NUM := s.lock.head])
  }

  predicate CanBumpAvail(s: State)
    requires Wf(s)
  {
    s.lock.Submitting? && s.lock.head in s.reqs && s.reqs[s.lock.head].phase == Ringed
  }

  /** The index moves on; the submitter then sleeps and so gives up the lock. */
  function DoBumpAvail(s: State): State
    requires Wf(s) && CanBumpAvail(s)
  {
    WithPhase(s, s.lock.head, Posted).(availIdx := (s.availIdx + 1) % WRAP, lock := Open,
                                      posted := s.posted + [s.lock.head])
  }

  predicate CanEnterIntr(s: State)
    requires Wf(s)
  {
    s.lock.Open?
  }

  function DoEnterIntr(s: State): State
    requires Wf(s) && CanEnterIntr(s)
  {
    s.(lock := Interrupt)
  }

  predicate CanTakeUsed(s: State)
    requires Wf(s)
  {
    s.lock.Interrupt? && s.seenIdx != s.usedIdx && s.used[s.seenIdx % NUM] < NUM
  }

  /** One turn of the interrupt handler's loop: the buffer of used[seenIdx % NUM] is given back. */
  function DoTakeUsed(s: State): State
    requires Wf(s) && CanTakeUsed(s)
  {
    var h := s.used[s.seenIdx % NUM];
    WithPhase(s, h, Released).(
      busy := s.busy - {s.info[h]}, seenIdx := (s.seenIdx + 1) % WRAP, done := Tail(s.done),
      released := s.released + IdOf(s, h))
  }

  predicate CanLeaveIntr(s: State)
    requires Wf(s)
  {
    s.lock.Interrupt? && s.seenIdx == s.usedIdx
  }

  function DoLeaveIntr(s: State): State
    requires Wf(s) && CanLeaveIntr(s)
  {
    s.(lock := Open)
  }

  /** The end of virtio_disk_rw, once b->disk is 0: the chain from h is freed. */
  predicate CanFinish(s: State, h: nat)
    requires Wf(s)
  {
    s.lock.Open? && h in s.reqs && s.reqs[h].buf !in s.busy && h < NUM && s.reqs[h].mid < NUM && s.reqs[h].tail < NUM
  }

  function DoFinish(s: State, h: nat): State
    requires Wf(s) && CanFinish(s, h)
  {
    var r := s.reqs[h];
    s.(free := s.free[h := true][r.mid := true][r.tail := true],
       desc := s.desc[h := Desc(0, false)][r.mid := Desc(0, false)][r.tail := Desc(0, false)],
       info := s.info[h := 0], who := s.who[h := NUM][r.mid := NUM][r.tail := NUM], reqs := s.reqs - {h})
  }

  predicate CanTake(s: State)
    requires Wf(s)
  {
    s.taken != s.availIdx
  }

  /** The device takes the next entry of the avail ring. */
  function DoTake(s: State): State
    requires Wf(s) && CanTake(s)
  {
    var h := s.avail[s.taken % NUM];
    WithPhase(s, h, Active).(taken := (s.taken + 1) % WRAP, posted := Tail(s.posted))
  }

  /** The device finishes a request, in any order, and puts it in the used ring; one at a time. */
  predicate CanAnswer(s: State, h: nat)
    requires Wf(s)
  {
    h in s.reqs && h < NUM && s.reqs[h].phase == Active && forall k :: k in s.reqs ==> s.reqs[k].phase != Answered
  }

  function DoAnswer(s: State, h: nat): State
    requires Wf(s) && CanAnswer(s, h)
  {
    WithPhase(s, h, Answered).(status := s.status[h := true], used := s.used[s.usedIdx % NUM := h],
                               completed := s.completed + IdOf(s, h))
  }

  predicate CanBumpUsed(s: State, h: nat)
    requires Wf(s)
  {
    h in s.reqs && s.reqs[h].phase == Answered
  }

  function DoBumpUsed(s: State, h: nat): State
    requires Wf(s) && CanBumpUsed(s, h)
  {
    WithPhase(s, h, Done).(usedIdx := (s.usedIdx + 1) % WRAP, done := s.done + [h])
  }

  predicate Enabled(s: State, step: Step)
    requires Wf(s)
  {
    match step
    case Submit(b, h, m, t) => CanSubmit(s, b, h, m, t)
    case WriteRing => CanWriteRing(s)
    case BumpAvail => CanBumpAvail(s)
    case EnterIntr => CanEnterIntr(s)
    case TakeUsed => CanTakeUsed(s)
    case LeaveIntr => CanLeaveIntr(s)
    case Finish(h) => CanFinish(s, h)
    case Take => CanTake(s)
    case Answer(h) => CanAnswer(s, h)
    case BumpUsed(h) => CanBumpUsed(s, h)
  }

  function Next(s: State, step: Step): State
    requires Wf(s) && Enabled(s, step)
  {
    match step
    case Submit(b, h, m, t) => DoSubmit(s, b, h, m, t)
    case WriteRing => DoWriteRing(s)
    case BumpAvail => DoBumpAvail(s)
    case EnterIntr => DoEnterIntr(s)
    case TakeUsed => DoTakeUsed(s)
    case LeaveIntr => DoLeaveIntr(s)
    case Finish(h) => DoFinish(s, h)
    case Take => DoTake(s)
    case Answer(h) => DoAnswer(s, h)
    case BumpUsed(h) => DoBumpUsed(s, h)
  }

  function Initial(): State {
    State(seq(NUM, i => true), seq(NUM, i => Desc(0, false)), seq(NUM, i => 0), 0, seq(NUM, i => 0), 0, 0,
          seq(NUM, i => 0), seq(NUM, i => false), {}, Open, 0, seq(NUM, i => NUM), map[], [], [], 0, {}, {})
  }
}
