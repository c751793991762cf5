/** The on-disk redo log, on disk values: what recovery does with a disk, which states the
    disk passes through during commit and recovery, and what a crash at any of them leaves
    behind once recovery has completed. */
module LogSpec {
  import opened Params
  import opened Sectors

  /** Where the log lives: a header block at `start`, then `size - 1` log blocks. */
  datatype Layout = Layout(start: nat, size: nat)

  predicate InLog(l: Layout, no: int) {
    l.start <= no < l.start + l.size
  }

  function HeadN(s: Sector): int {
    s[0]
  }

  function HeadBlock(s: Sector, i: nat): int
    requires i < LOGSIZE
  {
    s[1 + i]
  }

  /** A home block the header may name. */
  predicate Home(d: Disk, l: Layout, no: int) {
    0 <= no < |d| && !InLog(l, no)
  }

  /** The log fits the disk and its header names home blocks only. */
  ghost predicate Sane(d: Disk, l: Layout) {
    && 0 < l.size && l.start + l.size <= |d|
    && 0 <= HeadN(d[l.start]) < l.size && HeadN(d[l.start]) <= LOGSIZE
    && forall i :: 0 <= i < HeadN(d[l.start]) ==> Home(d, l, HeadBlock(d[l.start], i))
  }

  ghost predicate SameHome(d: Disk, e: Disk, l: Layout) {
    |d| == |e| && forall no :: Home(d, l, no) ==> d[no] == e[no]
  }

  ghost predicate SameLog(d: Disk, e: Disk, l: Layout) {
    |d| == |e| && forall no :: 0 <= no < |d| && InLog(l, no) ==> d[no] == e[no]
  }

  /** The disk after the first k writes of install_trans. */
  ghost function Installed(d: Disk, l: Layout, k: nat): (e: Disk)
    requires Sane(d, l) && k <= HeadN(d[l.start])
    ensures |e| == |d|
  {
    if k == 0 then d
    else Installed(d, l, k - 1)[HeadBlock(d[l.start], k - 1) := d[l.start + k]]
  }

  /** Installing home blocks leaves the log alone. */
  lemma {:induction false} InstalledKeepsLog(d: Disk, l: Layout, k: nat)
    requires Sane(d, l) && k <= HeadN(d[l.start])
    ensures SameLog(d, Installed(d, l, k), l)
    ensures Installed(d, l, k)[l.start] == d[l.start]
    ensures Sane(Installed(d, l, k), l)
  {
    if k > 0 {
      InstalledKeepsLog(d, l, k - 1);
    }
  }

  lemma InstallStep(d: Disk, l: Layout, k: nat)
    requires Sane(d, l) && k < HeadN(d[l.start])
    ensures Home(d, l, HeadBlock(d[l.start], k))
    ensures var e := Installed(d, l, k);
            Installed(d, l, k + 1) == e[HeadBlock(d[l.start], k) := e[l.start + k + 1]]
  {
    InstalledKeepsLog(d, l, k);
  }

  /** The disk states after each of the first k writes of install_trans. */
  ghost function InstallTrace(d: Disk, l: Layout, k: nat): (t: seq<Disk>)
    requires Sane(d, l) && k <= HeadN(d[l.start])
    ensures |t| == k
  {
    seq(k, i requires 0 <= i < k => Installed(d, l, i + 1))
  }

  ghost function Cleared(d: Disk, l: Layout): (e: Disk)
    requires l.start < |d|
    ensures |e| == |d|
  {
    d[l.start := d[l.start][0 := 0]]
  }

  /** The disk after recover_from_log. */
  ghost function Recovered(d: Disk, l: Layout): (e: Disk)
    requires Sane(d, l)
    ensures |e| == |d|
  {
    Cleared(Installed(d, l, HeadN(d[l.start])), l)
  }

  /** The disk after the first j writes of recover_from_log; the last write clears the header. */
  ghost function Recovering(d: Disk, l: Layout, j: nat): (e: Disk)
    requires Sane(d, l)
    ensures |e| == |d|
  {
    if j <= HeadN(d[l.start]) then Installed(d, l, j) else Recovered(d, l)
  }

  /** The disk states after each of the first j writes of recover_from_log. */
  ghost function RecoverTrace(d: Disk, l: Layout, j: nat): (t: seq<Disk>)
    requires Sane(d, l)
    ensures |t| == j
  {
    seq(j, i requires 0 <= i => Recovering(d, l, i + 1))
  }

  lemma RecoverTraceStarts(d: Disk, l: Layout, j: nat)
    requires Sane(d, l) && j <= HeadN(d[l.start])
    ensures RecoverTrace(d, l, j) == InstallTrace(d, l, j)
  {
  }

  /** The disk after recoveries that crashed after crashes[0], crashes[1], ... writes. */
  ghost function Crashed(d: Disk, l: Layout, crashes: seq<nat>): (e: Disk)
    requires Sane(d, l)
    ensures Sane(e, l)
    decreases |crashes|
  {
    if crashes == [] then d
    else
      InterruptedRecoverySame(d, l, crashes[0]);
      Crashed(Recovering(d, l, crashes[0]), l, crashes[1..])
  }

  /** Replaying the log depends only on the log and on blocks the log does not mention. */
  lemma {:induction false} InstalledAgree(d: Disk, e: Disk, l: Layout, k: nat, no: nat)
    requires Sane(d, l) && Sane(e, l) && SameLog(d, e, l)
    requires k <= HeadN(d[l.start]) && Home(d, l, no)
    requires d[no] == e[no] || exists i :: 0 <= i < k && HeadBlock(d[l.start], i) == no
    ensures HeadN(e[l.start]) == HeadN(d[l.start])
    ensures Installed(d, l, k)[no] == Installed(e, l, k)[no]
  {
    if k > 0 && HeadBlock(d[l.start], k - 1) != no {
      InstalledAgree(d, e, l, k - 1, no);
    }
  }

  lemma {:induction false} InstalledElsewhere(d: Disk, l: Layout, k: nat, no: nat)
    requires Sane(d, l) && k <= HeadN(d[l.start]) && Home(d, l, no)
    requires forall i :: 0 <= i < k ==> HeadBlock(d[l.start], i) != no
    ensures Installed(d, l, k)[no] == d[no]
  {
    if k > 0 {
      InstalledElsewhere(d, l, k - 1, no);
    }
  }

  /** One interrupted recovery leaves a sane log, and a later complete recovery ends with
      the same home blocks as an uninterrupted one. */
  lemma InterruptedRecoverySame(d: Disk, l: Layout, j: nat)
    requires Sane(d, l)
    ensures Sane(Recovering(d, l, j), l)
    ensures SameHome(Recovered(Recovering(d, l, j), l), Recovered(d, l), l)
  {
    var n := HeadN(d[l.start]);
    InstalledKeepsLog(d, l, n);
    if j <= n {
      var e := Installed(d, l, j);
      InstalledKeepsLog(d, l, j);
      forall no | Home(d, l, no) ensures Recovered(e, l)[no] == Recovered(d, l)[no] {
        if forall i :: 0 <= i < n ==> HeadBlock(d[l.start], i) != no {
          InstalledElsewhere(d, l, j, no);
        }
        InstalledAgree(d, e, l, n, no);
      }
    }
  }

  /** However often recovery is interrupted, and wherever, completing it once gives the
      same home blocks as never having crashed in recovery at all. */
  lemma {:induction false} RecoverySurvivesCrashes(d: Disk, l: Layout, crashes: seq<nat>)
    requires Sane(d, l)
    ensures SameHome(Recovered(Crashed(d, l, crashes), l), Recovered(d, l), l)
    decreases |crashes|
  {
    if crashes != [] {
      InterruptedRecoverySame(d, l, crashes[0]);
      RecoverySurvivesCrashes(Recovering(d, l, crashes[0]), l, crashes[1..]);
    }
  }

  /** A transaction the log can hold: its blocks are home blocks of the disk. */
  ghost predicate Loggable(d: Disk, l: Layout, blocks: seq<nat>) {
    && 0 < l.size && l.start + l.size <= |d|
    && |blocks| < l.size && |blocks| <= LOGSIZE
    && forall i :: 0 <= i < |blocks| ==> Home(d, l, blocks[i])
  }

  /** The disk after the first j writes of write_log. */
  ghost function Copied(d: Disk, view: Disk, l: Layout, blocks: seq<nat>, j: nat): (e: Disk)
    requires Loggable(d, l, blocks) && |view| == |d| && j <= |blocks|
    ensures |e| == |d|
  {
    if j == 0 then d
    else Copied(d, view, l, blocks, j - 1)[l.start + j := view[blocks[j - 1]]]
  }

  /** The disk states after each of the first j writes of write_log. */
  ghost function CopyTrace(d: Disk, view: Disk, l: Layout, blocks: seq<nat>, j: nat): (t: seq<Disk>)
    requires Loggable(d, l, blocks) && |view| == |d| && j <= |blocks|
    ensures |t| == j
  {
    seq(j, i requires 0 <= i < j => Copied(d, view, l, blocks, i + 1))
  }

  /** Filling log blocks leaves home blocks and the header alone. */
  lemma {:induction false} CopiedBlocks(d: Disk, view: Disk, l: Layout, blocks: seq<nat>, j: nat)
    requires Loggable(d, l, blocks) && |view| == |d| && j <= |blocks|
    ensures var e := Copied(d, view, l, blocks, j);
            && SameHome(d, e, l) && e[l.start] == d[l.start]
            && forall i :: 0 <= i < j ==> e[l.start + 1 + i] == view[blocks[i]]
  {
    if j > 0 {
      CopiedBlocks(d, view, l, blocks, j - 1);
    }
  }

  /** The header block write_head produces: entries past n keep what the block held. */
  function Header(s: Sector, blocks: seq<nat>): (h: Sector)
    requires |blocks| <= LOGSIZE
    ensures HeadN(h) == |blocks|
    ensures forall i :: 0 <= i < |blocks| ==> HeadBlock(h, i) == blocks[i]
  {
    [|blocks|] + blocks + s[1 + |blocks|..]
  }

  /** The disk right after the header write that commits the transaction. */
  ghost function Committed(d: Disk, view: Disk, l: Layout, blocks: seq<nat>): (e: Disk)
    requires Loggable(d, l, blocks) && |view| == |d|
    ensures Sane(e, l)
  {
    var e := Copied(d, view, l, blocks, |blocks|);
    CopiedBlocks(d, view, l, blocks, |blocks|);
    e[l.start := Header(e[l.start], blocks)]
  }

  /** The disk after the first j writes of commit: the log blocks, the header, the home
      blocks, the cleared header. */
  ghost function Committing(d: Disk, view: Disk, l: Layout, blocks: seq<nat>, j: nat): (e: Disk)
    requires Loggable(d, l, blocks) && |view| == |d|
  {
    if j <= |blocks| then Copied(d, view, l, blocks, j)
    else Recovering(Committed(d, view, l, blocks), l, j - |blocks| - 1)
  }

  /** The disk states after each of the first j writes of commit. */
  ghost function CommitTrace(d: Disk, view: Disk, l: Layout, blocks: seq<nat>, j: nat): (t: seq<Disk>)
    requires Loggable(d, l, blocks) && |view| == |d|
    ensures |t| == j
  {
    seq(j, i requires 0 <= i => Committing(d, view, l, blocks, i + 1))
  }

  lemma CommitTraceStarts(d: Disk, view: Disk, l: Layout, blocks: seq<nat>, j: nat)
    requires Loggable(d, l, blocks) && |view| == |d| && j <= |blocks|
    ensures CommitTrace(d, view, l, blocks, j) == CopyTrace(d, view, l, blocks, j)
  {
  }

  /** The write that commits. */
  lemma CommitTraceHeader(h: seq<Disk>, d: Disk, view: Disk, l: Layout, blocks: seq<nat>)
    requires Loggable(d, l, blocks) && |view| == |d|
    ensures h + CommitTrace(d, view, l, blocks, |blocks|) + [Committed(d, view, l, blocks)]
            == h + CommitTrace(d, view, l, blocks, |blocks| + 1)
  {
    assert Committing(d, view, l, blocks, |blocks| + 1) == Committed(d, view, l, blocks);
  }

  lemma CommitTraceSplits(d: Disk, view: Disk, l: Layout, blocks: seq<nat>, k: nat)
    requires Loggable(d, l, blocks) && |view| == |d|
    ensures CommitTrace(d, view, l, blocks, |blocks| + 1 + k)
            == CommitTrace(d, view, l, blocks, |blocks| + 1) + RecoverTrace(Committed(d, view, l, blocks), l, k)
  {
    var n, c := |blocks|, Committed(d, view, l, blocks);
    var whole, rest := CommitTrace(d, view, l, blocks, n + 1 + k), RecoverTrace(c, l, k);
    forall i | 0 <= i < k ensures whole[n + 1 + i] == rest[i] {
      assert Committing(d, view, l, blocks, n + 1 + i + 1) == Recovering(c, l, i + 1);
    }
  }

  lemma CommitHistory(hist: seq<Disk>, h: seq<Disk>, d: Disk, view: Disk, l: Layout, blocks: seq<nat>, k: nat)
    requires Loggable(d, l, blocks) && |view| == |d|
    requires hist == h + CommitTrace(d, view, l, blocks, |blocks| + 1)
                     + RecoverTrace(Committed(d, view, l, blocks), l, k)
    ensures hist == h + CommitTrace(d, view, l, blocks, |blocks| + 1 + k)
  {
    CommitTraceSplits(d, view, l, blocks, k);
    HistoryJoin(h, CommitTrace(d, view, l, blocks, |blocks| + 1), RecoverTrace(Committed(d, view, l, blocks), l, k));
  }

  lemma HistoryJoin(h: seq<Disk>, a: seq<Disk>, b: seq<Disk>)
    ensures h + a + b == h + (a + b)
  {
  }

  /** The disk with the transaction's blocks replaced, all at once. */
  ghost predicate Applied(d: Disk, view: Disk, blocks: seq<nat>, e: Disk, l: Layout) {
    && |e| == |d| == |view|
    && forall no :: Home(d, l, no) ==> e[no] == if no in blocks then view[no] else d[no]
  }

  /** The log on disk c holds view's contents of `blocks`. */
  ghost predicate Holds(c: Disk, view: Disk, l: Layout, blocks: seq<nat>) {
    && Sane(c, l) && |view| == |c| && HeadN(c[l.start]) == |blocks|
    && forall i :: 0 <= i < |blocks| ==>
      && HeadBlock(c[l.start], i) == blocks[i] && blocks[i] < |view|
      && c[l.start + 1 + i] == view[blocks[i]]
  }

  lemma {:induction false} InstalledTransaction(c: Disk, view: Disk, l: Layout, blocks: seq<nat>, k: nat, no: nat)
    requires Holds(c, view, l, blocks) && k <= |blocks| && Home(c, l, no)
    ensures Installed(c, l, k)[no] == if no in blocks[..k] then view[no] else c[no]
  {
    if k > 0 {
      InstalledTransaction(c, view, l, blocks, k - 1, no);
      assert blocks[..k] == blocks[..k - 1] + [blocks[k - 1]];
      assert c[l.start + 1 + (k - 1)] == view[blocks[k - 1]];
    }
  }

  lemma RecoveredTransaction(d: Disk, view: Disk, l: Layout, blocks: seq<nat>)
    requires Loggable(d, l, blocks) && |view| == |d|
    ensures Applied(d, view, blocks, Recovered(Committed(d, view, l, blocks), l), l)
  {
    var c := Committed(d, view, l, blocks);
    CopiedBlocks(d, view, l, blocks, |blocks|);
    assert Holds(c, view, l, blocks);
    forall no | Home(d, l, no) ensures Recovered(c, l)[no] == if no in blocks then view[no] else d[no] {
      InstalledTransaction(c, view, l, blocks, |blocks|, no);
      assert blocks[..|blocks|] == blocks;
    }
  }

  /** Every state the disk passes through during commit is one recovery can handle, and
      recovery takes it to the old home blocks before the header write, to the new ones after. */
  lemma CommittingRecovers(d: Disk, view: Disk, l: Layout, blocks: seq<nat>, j: nat)
    requires Loggable(d, l, blocks) && |view| == |d| && HeadN(d[l.start]) == 0
    ensures Sane(Committing(d, view, l, blocks, j), l)
    ensures j <= |blocks| ==> SameHome(Recovered(Committing(d, view, l, blocks, j), l), d, l)
    ensures j > |blocks| ==> Applied(d, view, blocks, Recovered(Committing(d, view, l, blocks, j), l), l)
  {
    if j <= |blocks| {
      CopiedBlocks(d, view, l, blocks, j);
    } else {
      InterruptedRecoverySame(Committed(d, view, l, blocks), l, j - |blocks| - 1);
      RecoveredTransaction(d, view, l, blocks);
    }
  }

  /** Crash atomicity: crash commit after any j of its writes, crash recovery any number of
      times at any points, then let recovery complete. The home blocks are the old ones if
      the header write had not happened, and the transaction's if it had. */
  lemma CrashAtomicity(d: Disk, view: Disk, l: Layout, blocks: seq<nat>, j: nat, crashes: seq<nat>)
    requires Loggable(d, l, blocks) && |view| == |d| && HeadN(d[l.start]) == 0
    ensures Sane(Committing(d, view, l, blocks, j), l)
    ensures var e := Recovered(Crashed(Committing(d, view, l, blocks, j), l, crashes), l);
            if j <= |blocks| then SameHome(e, d, l) else Applied(d, view, blocks, e, l)
  {
    CommittingRecovers(d, view, l, blocks, j);
    RecoverySurvivesCrashes(Committing(d, view, l, blocks, j), l, crashes);
  }

  /** The same, read off the history of disk states that commit leaves behind. */
  lemma EveryCrashPoint(d: Disk, view: Disk, l: Layout, blocks: seq<nat>, w: nat, i: nat, crashes: seq<nat>)
    requires Loggable(d, l, blocks) && |view| == |d| && HeadN(d[l.start]) == 0 && i < w
    ensures Sane(CommitTrace(d, view, l, blocks, w)[i], l)
    ensures var e := Recovered(Crashed(CommitTrace(d, view, l, blocks, w)[i], l, crashes), l);
            if i < |blocks| then SameHome(e, d, l) else Applied(d, view, blocks, e, l)
  {
    CrashAtomicity(d, view, l, blocks, i + 1, crashes);
  }

  /** A transaction and what befalls it: commit crashes after j of its writes (or completes, if j
      covers them all), then recovery crashes after crashes[0], crashes[1], ... writes, and then
      recovery completes. */
  datatype Txn = Txn(view: Disk, blocks: seq<nat>, j: nat, crashes: seq<nat>)

  /** Its header write reached the disk. */
  predicate Landed(t: Txn) {
    t.j > |t.blocks|
  }

  ghost predicate Fits(d: Disk, l: Layout, t: Txn) {
    Loggable(d, l, t.blocks) && |t.view| == |d|
  }

  ghost predicate AllFit(d: Disk, l: Layout, ts: seq<Txn>) {
    forall i :: 0 <= i < |ts| ==> Fits(d, l, ts[i])
  }

  lemma AllFitNext(d: Disk, e: Disk, l: Layout, ts: seq<Txn>)
    requires AllFit(d, l, ts) && |e| == |d| && ts != []
    ensures Fits(d, l, ts[0]) && AllFit(e, l, ts[1..])
  {
    forall i | 0 <= i < |ts[1..]| ensures Fits(e, l, ts[1..][i]) {
      var next := i + 1;
      assert Fits(d, l, ts[next]);
    }
  }

  /** The disk after one transaction. */
  ghost function Ran(d: Disk, l: Layout, t: Txn): (e: Disk)
    requires Fits(d, l, t) && HeadN(d[l.start]) == 0
    ensures |e| == |d| && HeadN(e[l.start]) == 0
  {
    CrashAtomicity(d, t.view, l, t.blocks, t.j, t.crashes);
    Recovered(Crashed(Committing(d, t.view, l, t.blocks, t.j), l, t.crashes), l)
  }

  /** The disk after a run of transactions, with crashes in any of them. */
  ghost function RanAll(d: Disk, l: Layout, ts: seq<Txn>): (e: Disk)
    requires l.start < |d| && HeadN(d[l.start]) == 0 && AllFit(d, l, ts)
    ensures |e| == |d|
    decreases |ts|
  {
    if ts == [] then d
    else
      var e := Ran(d, l, ts[0]);
      AllFitNext(d, e, l, ts);
      RanAll(e, l, ts[1..])
  }

  /** A plain store after a transaction: its blocks replaced at once. */
  ghost function Replaced(d: Disk, t: Txn): (e: Disk)
    requires |t.view| == |d|
    ensures |e| == |d|
  {
    seq(|d|, no requires 0 <= no < |d| => if no in t.blocks then t.view[no] else d[no])
  }

  /** A plain store after those transactions of a run that landed, in order. */
  ghost function Stored(d: Disk, ts: seq<Txn>): (e: Disk)
    requires forall i :: 0 <= i < |ts| ==> |ts[i].view| == |d|
    ensures |e| == |d|
    decreases |ts|
  {
    if ts == [] then d else Stored(if Landed(ts[0]) then Replaced(d, ts[0]) else d, ts[1..])
  }

  lemma RanOne(d: Disk, e: Disk, l: Layout, t: Txn)
    requires Fits(d, l, t) && HeadN(d[l.start]) == 0 && SameHome(d, e, l)
    ensures SameHome(Ran(d, l, t), if Landed(t) then Replaced(e, t) else e, l)
  {
    CrashAtomicity(d, t.view, l, t.blocks, t.j, t.crashes);
  }

  /** Atomicity and durability of whole runs: whatever crashes happen in between, the home blocks
      are those of a plain store that saw exactly the landed transactions, in order. */
  lemma {:induction false} EveryRunAtomic(d: Disk, e: Disk, l: Layout, ts: seq<Txn>)
    requires l.start < |d| && HeadN(d[l.start]) == 0 && SameHome(d, e, l)
    requires AllFit(d, l, ts)
    ensures SameHome(RanAll(d, l, ts), Stored(e, ts), l)
    decreases |ts|
  {
    if ts != [] {
      AllFitNext(d, Ran(d, l, ts[0]), l, ts);
      RanOne(d, e, l, ts[0]);
      EveryRunAtomic(Ran(d, l, ts[0]), if Landed(ts[0]) then Replaced(e, ts[0]) else e, l, ts[1..]);
    }
  }
}
