/** Whole runs of driver and device. */
module VirtioRuns {
  import opened Collections
  import opened VirtioQueue
  import opened VirtioSafety

  predicate Legal(s: State, steps: seq<Step>)
    decreases |steps|
  {
    steps == [] || (Wf(s) && Enabled(s, steps[0]) && Legal(Next(s, steps[0]), steps[1..]))
  }

  function After(s: State, steps: seq<Step>): State
    requires Legal(s, steps)
    decreases |steps|
  {
    if steps == [] then s else After(Next(s, steps[0]), steps[1..])
  }

  /** The requests whose buffers the interrupt handler gives back, in order. */
  function Releases(s: State, steps: seq<Step>): seq<nat>
    requires Legal(s, steps)
    decreases |steps|
  {
    if steps == [] then [] else Returned(s, steps[0]) + Releases(Next(s, steps[0]), steps[1..])
  }

  function Returned(s: State, step: Step): seq<nat>
    requires Wf(s)
  {
    if step.TakeUsed? && s.used[s.seenIdx % NUM] in s.reqs then [s.reqs[s.used[s.seenIdx % NUM]].id] else []
  }

  /** Descriptor d belongs to the request with head h. */
  predicate PartOf(s: State, d: nat, h: nat) {
    h in s.reqs && (d == h || d == s.reqs[h].mid || d == s.reqs[h].tail)
  }

  /** Each descriptor is free, or in exactly one outstanding request; and following the links
      from a request's head visits its three descriptors and stops. */
  ghost predicate Split(s: State)
    requires Wf(s)
  {
    && (forall d :: 0 <= d < NUM && s.free[d] ==> forall h: nat :: !PartOf(s, d, h))
    && (forall d :: 0 <= d < NUM && !s.free[d] ==> exists h: nat :: PartOf(s, d, h))
    && (forall d: nat, h: nat, k: nat :: PartOf(s, d, h) && PartOf(s, d, k) ==> h == k)
    && (forall h: nat :: h in s.reqs ==>
          && h < NUM && s.desc[h].chained && s.desc[h].next == s.reqs[h].mid < NUM
          && s.desc[s.reqs[h].mid].chained && s.desc[s.reqs[h].mid].next == s.reqs[h].tail < NUM
          && !s.desc[s.reqs[h].tail].chained)
  }

  lemma InvMeansSplit(s: State)
    requires Inv(s)
    ensures Split(s)
  {
    forall d: nat, h: nat | d < NUM && PartOf(s, d, h) ensures !s.free[d] {
      assert Chain(s, h) && Whose(s, d);
    }
    forall d | 0 <= d < NUM && !s.free[d] ensures PartOf(s, d, s.who[d]) {
      assert Whose(s, d);
    }
    forall d: nat, h: nat, k: nat | PartOf(s, d, h) && PartOf(s, d, k) ensures h == k {
      assert Chain(s, h) && Chain(s, k);
    }
    forall h: nat | h in s.reqs ensures Chain(s, h) {
    }
  }

  lemma {:induction false} RunKeepsInv(s: State, steps: seq<Step>)
    requires Inv(s) && Legal(s, steps)
    ensures Inv(After(s, steps))
    decreases |steps|
  {
    if steps != [] {
      StepKeepsInv(s, steps[0]);
      RunKeepsInv(Next(s, steps[0]), steps[1..]);
    }
  }

  /** In every reachable state the descriptors are split among free ones and requests, an entry
      the driver is about to read names a request the device has completed, with its status
      written, and one the device is about to read names a posted request. */
  lemma EveryRun(steps: seq<Step>)
    requires Legal(Initial(), steps)
    ensures var s := After(Initial(), steps);
            && Wf(s) && Split(s)
            && (s.seenIdx != s.usedIdx ==>
                  var h := s.used[s.seenIdx % NUM];
                  h < NUM && h in s.reqs && s.status[h] && s.reqs[h].id in s.completed && s.reqs[h].id !in s.released)
            && (s.taken != s.availIdx ==>
                  var h := s.avail[s.taken % NUM]; h in s.reqs && s.reqs[h].phase == Posted)
  {
    InitialInv();
    RunKeepsInv(Initial(), steps);
    var s := After(Initial(), steps);
    InvMeansSplit(s);
    if s.seenIdx != s.usedIdx {
      UsedEntry(s);
    }
    if s.taken != s.availIdx {
      AvailEntry(s);
    }
  }

  lemma StepReleases(s: State, step: Step)
    requires Inv(s) && Enabled(s, step)
    ensures var l := Returned(s, step);
            if l == [] then Next(s, step).released == s.released
            else |l| == 1 && l[0] !in s.released && Next(s, step).released == s.released + {l[0]}
  {
    if step.TakeUsed? {
      UsedEntry(s);
    }
  }

  lemma {:induction false} ReleasesFresh(s: State, steps: seq<Step>)
    requires Inv(s) && Legal(s, steps)
    ensures NoRepeats(Releases(s, steps)) && s.released <= After(s, steps).released
    ensures forall n :: n in Releases(s, steps) ==> n !in s.released && n in After(s, steps).released
    decreases |steps|
  {
    if steps != [] {
      var s', l, rest := Next(s, steps[0]), Returned(s, steps[0]), Releases(Next(s, steps[0]), steps[1..]);
      StepKeepsInv(s, steps[0]);
      StepReleases(s, steps[0]);
      ReleasesFresh(s', steps[1..]);
      assert Releases(s, steps) == l + rest;
      forall n | n in l + rest ensures n !in s.released && n in After(s, steps).released {
        assert n in l || n in rest;
      }
      if l != [] {
        assert l[0] !in rest;
      }
    }
  }

  /** No buffer is given back twice for one request, nor before the device has completed it. */
  lemma ReleasedOnce(steps: seq<Step>)
    requires Legal(Initial(), steps)
    ensures NoRepeats(Releases(Initial(), steps))
    ensures forall n :: n in Releases(Initial(), steps) ==> n in After(Initial(), steps).completed
  {
    InitialInv();
    ReleasesFresh(Initial(), steps);
    RunKeepsInv(Initial(), steps);
  }

  /** The end of virtio_disk_rw is reached only by a request whose buffer was given back. */
  lemma FinishMeansReleased(s: State, h: nat)
    requires Inv(s) && CanFinish(s, h)
    ensures s.reqs[h].phase == Released && s.reqs[h].id in s.completed
  {
    assert Chain(s, h);
  }
}
