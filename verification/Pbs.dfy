/** The priority scheduler of proc.c: the choice it makes over one snapshot of the table. */
module Pbs {
  import opened Params

  const DEFAULT_PRIORITY: int := 50

  type Word = x: int | 0 <= x < WORD

  /** The fields of a process that the selection reads. */
  datatype Row = Row(runnable: bool, rtime: Word, stime: Word, wtime: Word, base: Word, scheduled: Word, ctime: Word)

  /** Unsigned division as RISC-V performs it: by zero it gives all ones. */
  function Divu(a: Word, b: Word): Word {
    if b == 0 then WORD - 1 else a / b
  }

  /** An unsigned word read as a signed one. */
  function Signed(x: Word): int {
    if x < WORD / 2 then x else x - WORD
  }

  /** What both indices divide by. */
  function Total(r: Row): Word {
    (r.rtime + r.stime + r.wtime + 1) % WORD
  }

  /** A word times the default priority, as a signed number, but not below 0. */
  function Index(x: Word): (i: int)
    ensures 0 <= i < WORD / 2
  {
    var val := Signed(x * DEFAULT_PRIORITY % WORD);
    if val > 0 then val else 0
  }

  /** The recent behaviour index, in 32-bit arithmetic with the operators as the scheduler
      groups them: only wtime is divided. */
  function Rbi(r: Row): (i: int)
    ensures 0 <= i < WORD / 2
  {
    if (r.rtime + r.stime) % WORD == 0 then 25
    else Index((3 * r.rtime - r.stime - Divu(r.wtime, Total(r))) % WORD)
  }

  /** The dynamic priority: the sum wraps before it is compared with 100. */
  function Priority(r: Row): (dp: int)
    ensures 0 <= dp <= 100
  {
    var sum := (r.base + Rbi(r)) % WORD;
    if sum < 100 then sum else 100
  }

  /** Row i is preferred to row j: a lower priority value, then scheduled more often, then
      created earlier, then first in the table. */
  predicate Before(t: seq<Row>, i: nat, j: nat)
    requires i < |t| && j < |t|
  {
    var a, b := t[i], t[j];
    if Priority(a) != Priority(b) then Priority(a) < Priority(b)
    else if a.scheduled != b.scheduled then a.scheduled > b.scheduled
    else if a.ctime != b.ctime then a.ctime < b.ctime
    else i < j
  }

  /** Among any two rows exactly one is preferred. */
  lemma BeforeTotal(t: seq<Row>, i: nat, j: nat)
    requires i < |t| && j < |t| && i != j
    ensures Before(t, i, j) <==> !Before(t, j, i)
  {
  }

  lemma BeforeTrans(t: seq<Row>, i: nat, j: nat, k: nat)
    requires i < |t| && j < |t| && k < |t| && Before(t, i, j) && Before(t, j, k)
    ensures Before(t, i, k)
  {
  }

  /** Row i is runnable and preferred to every other runnable row below n. */
  ghost predicate Best(t: seq<Row>, n: nat, i: nat)
    requires n <= |t|
  {
    i < n && t[i].runnable && forall j :: 0 <= j < n && j != i && t[j].runnable ==> Before(t, i, j)
  }

  /** There is at most one such row. */
  lemma BestUnique(t: seq<Row>, n: nat, i: nat, j: nat)
    requires n <= |t| && Best(t, n, i) && Best(t, n, j)
    ensures i == j
  {
    if i != j {
      BeforeTotal(t, i, j);
    }
  }

  /** The selection loop of scheduler: the preferred runnable process, or none exactly when
      nothing is runnable. */
  method Select(t: seq<Row>) returns (best: int)
    ensures -1 <= best < |t|
    ensures best == -1 <==> forall j :: 0 <= j < |t| ==> !t[j].runnable
    ensures best >= 0 ==> Best(t, |t|, best)
  {
    var least := 101;
    best := -1;
    var p := 0;
    while p < |t|
      invariant p <= |t| && -1 <= best < p
      invariant best == -1 ==> forall j :: 0 <= j < p ==> !t[j].runnable
      invariant best >= 0 ==> Best(t, p, best) && least == Priority(t[best])
    {
      if t[p].runnable {
        var dp, was := Priority(t[p]), best;
        if best == -1 {
          least, best := dp, p;
        } else if dp < least {
          least, best := dp, p;
        } else if dp == least {
          if t[best].scheduled < t[p].scheduled {
            best := p;
          } else if t[best].scheduled == t[p].scheduled {
            if t[best].ctime > t[p].ctime {
              best := p;
            }
          }
        }
        Kept(t, p, was, best);
      }
      p := p + 1;
    }
  }

  lemma Kept(t: seq<Row>, p: nat, was: int, best: int)
    requires p < |t| && t[p].runnable && -1 <= was < p
    requires was == -1 ==> best == p && forall j :: 0 <= j < p ==> !t[j].runnable
    requires was >= 0 ==> Best(t, p, was) && best == if Before(t, was, p) then was else p
    ensures 0 <= best <= p && Best(t, p + 1, best)
  {
    if was >= 0 && best == p {
      BeforeTotal(t, was, p);
      forall j | 0 <= j < p && t[j].runnable ensures Before(t, p, j) {
        if j != was {
          BeforeTrans(t, p, was, j);
        }
      }
    }
  }

  /** The index as set_priority groups it: the whole difference is divided. */
  function RbiSetPriority(r: Row): int {
    if (r.rtime + r.stime) % WORD == 0 then 25
    else Index(Divu((3 * r.rtime - r.stime - r.wtime) % WORD, Total(r)))
  }

  lemma DivuSmall(a: Word, b: Word)
    requires a < b
    ensures Divu(a, b) == 0
  {
    QuotientBelow(a, b, 1);
  }

  lemma QuotientBelow(n: nat, d: nat, k: nat)
    requires n < k * d
    ensures d > 0 && n / d < k
  {
    var q := n / d;
    assert n == d * q + n % d;
    assert q >= k ==> d * q >= d * k;
  }

  /** The scheduler's quotient is 0 unless the sum of the times wraps: waiting plays no part. */
  lemma WaitingIgnored(r: Row)
    requires r.rtime + r.stime + r.wtime + 1 < WORD
    ensures Rbi(r) == Rbi(r.(wtime := 0)) && Priority(r) == Priority(r.(wtime := 0))
  {
    var r0 := r.(wtime := 0);
    DivuSmall(r.wtime, Total(r));
    DivuSmall(0, Total(r0));
  }

  /** The table as it would be if nobody had waited. */
  function Unwaited(t: seq<Row>): (u: seq<Row>)
    ensures |u| == |t| && forall i :: 0 <= i < |t| ==> u[i] == t[i].(wtime := 0)
  {
    seq(|t|, i requires 0 <= i < |t| => t[i].(wtime := 0))
  }

  /** So which process is chosen never depends on how long any of them has waited. */
  lemma ChoiceIgnoresWaiting(t: seq<Row>, i: nat)
    requires forall j :: 0 <= j < |t| ==> t[j].rtime + t[j].stime + t[j].wtime + 1 < WORD
    ensures Best(t, |t|, i) <==> Best(Unwaited(t), |t|, i)
  {
    var u := Unwaited(t);
    forall j, k | 0 <= j < |t| && 0 <= k < |t| ensures Before(t, j, k) <==> Before(u, j, k) {
      WaitingIgnored(t[j]);
      WaitingIgnored(t[k]);
    }
  }

  /** Times for which no product and no sum reaches the sign bit. */
  predicate Modest(r: Row) {
    50 * (3 * r.rtime + r.stime + r.wtime) < WORD / 2
  }

  function AtLeastZero(x: int): nat {
    if x > 0 then x else 0
  }

  /** Reading the product back as a signed word undoes the wrap. */
  lemma IndexValue(x: int)
    requires 0 <= WORD / 2 + 50 * x < WORD
    ensures Index(x % WORD) == AtLeastZero(50 * x)
  {
    if x < 0 {
      assert x % WORD == x + WORD;
      assert (x + WORD) * 50 == 50 * x + WORD + 49 * WORD;
      assert ((x + WORD) * 50) % WORD == 50 * x + WORD;
    } else {
      assert (x * 50) % WORD == 50 * x;
    }
  }

  /** What the scheduler's index then is. */
  lemma RbiValue(r: Row)
    requires Modest(r)
    ensures Rbi(r) == if r.rtime + r.stime == 0 then 25 else AtLeastZero(50 * (3 * r.rtime - r.stime))
  {
    TimesFit(r);
    DivuSmall(r.wtime, Total(r));
    IndexValue(3 * r.rtime - r.stime);
  }

  lemma TimesFit(r: Row)
    requires Modest(r)
    ensures Total(r) == r.rtime + r.stime + r.wtime + 1 && (r.rtime + r.stime) % WORD == r.rtime + r.stime
    ensures 0 <= WORD / 2 + 50 * (3 * r.rtime - r.stime) < WORD
  {
  }

  /** And the priority: the base and the index, up to 100. */
  lemma PriorityValue(r: Row)
    requires Modest(r) && r.base < WORD / 2
    ensures var rbi := if r.rtime + r.stime == 0 then 25 else AtLeastZero(50 * (3 * r.rtime - r.stime));
            Priority(r) == if r.base + rbi < 100 then r.base + rbi else 100
  {
    RbiValue(r);
    NoWrap(r.base, Rbi(r));
  }

  lemma NoWrap(a: nat, b: nat)
    requires a < WORD / 2 && b < WORD / 2
    ensures (a + b) % WORD == a + b
  {
  }

  /** Whatever the base, the priority is 100 exactly once three times the running time is 2 ticks
      or more above the sleeping time: set_priority then has no effect on the choice. */
  lemma BaseIgnored(r: Row)
    requires Modest(r)
    ensures (forall b: Word :: b < WORD / 2 ==> Priority(r.(base := b)) == 100) <==> 3 * r.rtime - r.stime >= 2
  {
    PriorityValue(r.(base := 0));
    forall b: Word | b < WORD / 2 && 3 * r.rtime - r.stime >= 2 ensures Priority(r.(base := b)) == 100 {
      PriorityValue(r.(base := b));
    }
  }

  /** A quotient below 3. */
  function Steps(n: int, d: int): nat {
    if n < d then 0 else if n < 2 * d then 1 else 2
  }

  lemma QuotientSteps(n: nat, d: nat)
    requires n < 3 * d
    ensures d > 0 && n / d == Steps(n, d)
  {
    QuotientBelow(n, d, 3);
    var q := n / d;
    assert n == d * q + n % d;
    assert q == 0 || q == 1 || q == 2;
  }

  lemma QuotientIndex(n: Word, d: Word)
    requires n < 3 * d
    ensures Index(Divu(n, d)) == 50 * Steps(n, d)
  {
    QuotientSteps(n, d);
    assert Divu(n, d) == Steps(n, d);
  }

  /** What set_priority's index is while the difference is not negative. */
  lemma RbiSetPriorityValue(r: Row)
    requires Modest(r) && r.stime + r.wtime <= 3 * r.rtime
    ensures RbiSetPriority(r)
            == if r.rtime + r.stime == 0 then 25
               else 50 * Steps(3 * r.rtime - r.stime - r.wtime, r.rtime + r.stime + r.wtime + 1)
  {
    var n, d := 3 * r.rtime - r.stime - r.wtime, r.rtime + r.stime + r.wtime + 1;
    assert Total(r) == d && n % WORD == n && (r.rtime + r.stime) % WORD == r.rtime + r.stime;
    QuotientIndex(n, d);
  }

  /** Where neither grouping wraps, the scheduler and set_priority see the same index exactly
      when the process has not run or slept, or has slept three times as long as it ran. */
  lemma GroupingsAgree(r: Row)
    requires Modest(r) && r.stime + r.wtime <= 3 * r.rtime
    ensures Rbi(r) == RbiSetPriority(r) <==> r.rtime + r.stime == 0 || r.stime == 3 * r.rtime
  {
    RbiValue(r);
    RbiSetPriorityValue(r);
  }

  /** They differ already for a process that ran for one tick and waited for one: the scheduler
      sees 150, set_priority 0. */
  lemma GroupingsDiffer()
    ensures var r := Row(true, 1, 0, 1, DEFAULT_PRIORITY, 0, 0); Rbi(r) == 150 && RbiSetPriority(r) == 0
  {
    var r := Row(true, 1, 0, 1, DEFAULT_PRIORITY, 0, 0);
    RbiValue(r);
    RbiSetPriorityValue(r);
  }
}
