/** Reference-count safety: every step of every thread keeps the invariant. */
module CowSafety {
  import opened Collections
  import opened CowMachine

  ghost function One(h: Holding, p: nat): nat {
    if h.ppn == p && !h.Raw? then 1 else 0
  }

  lemma CountsPut(own: map<Owner, Holding>, o: Owner, h: Holding, p: nat)
    requires o !in own
    ensures |Counts(own[o := h], p)| == |Counts(own, p)| + One(h, p)
  {
    var own' := own[o := h];
    if One(h, p) == 1 {
      assert Counts(own', p) == Counts(own, p) + {o};
    } else {
      assert Counts(own', p) == Counts(own, p);
    }
  }

  lemma CountsTake(own: map<Owner, Holding>, o: Owner, p: nat)
    requires o in own
    ensures |Counts(own - {o}, p)| == |Counts(own, p)| - One(own[o], p)
  {
    assert (own - {o})[o := own[o]] == own;
    CountsPut(own - {o}, o, own[o], p);
  }

  /** Replacing one owner by another, or by itself holding differently. */
  lemma CountsMove(own: map<Owner, Holding>, a: Owner, b: Owner, h: Holding, p: nat)
    requires a in own && (b == a || b !in own)
    ensures |Counts((own - {a})[b := h], p)| == |Counts(own, p)| - One(own[a], p) + One(h, p)
  {
    CountsTake(own, a, p);
    CountsPut(own - {a}, b, h, p);
  }

  /** The accounting survives any change of owners that the counts follow. */
  lemma AccountedMove(s: State, s': State, a: Owner, b: Owner, h: Holding)
    requires Sized(s) && Sized(s') && |s'.cnt| == |s.cnt| && Accounted(s)
    requires a in s.own && (b == a || b !in s.own) && s'.own == (s.own - {a})[b := h]
    requires forall p :: 0 <= p < |s.cnt| ==>
               s'.cnt[p] - s'.leaked[p] == s.cnt[p] - s.leaked[p] - One(s.own[a], p) + One(h, p)
    ensures Accounted(s')
  {
    forall p | 0 <= p < |s.cnt| ensures s'.cnt[p] == |Counts(s'.own, p)| + s'.leaked[p] {
      CountsMove(s.own, a, b, h, p);
    }
  }

  lemma AccountedPut(s: State, s': State, o: Owner, h: Holding)
    requires Sized(s) && Sized(s') && |s'.cnt| == |s.cnt| && Accounted(s)
    requires o !in s.own && s'.own == s.own[o := h]
    requires forall p :: 0 <= p < |s.cnt| ==> s'.cnt[p] - s'.leaked[p] == s.cnt[p] - s.leaked[p] + One(h, p)
    ensures Accounted(s')
  {
    forall p | 0 <= p < |s.cnt| ensures s'.cnt[p] == |Counts(s'.own, p)| + s'.leaked[p] {
      CountsPut(s.own, o, h, p);
    }
  }

  lemma AccountedTake(s: State, s': State, o: Owner)
    requires Sized(s) && Sized(s') && |s'.cnt| == |s.cnt| && Accounted(s)
    requires o in s.own && s'.own == s.own - {o}
    requires forall p :: 0 <= p < |s.cnt| ==> s'.cnt[p] - s'.leaked[p] == s.cnt[p] - s.leaked[p] - One(s.own[o], p)
    ensures Accounted(s')
  {
    forall p | 0 <= p < |s.cnt| ensures s'.cnt[p] == |Counts(s'.own, p)| + s'.leaked[p] {
      CountsTake(s.own, o, p);
    }
  }

  /** A page whose count has come down to 1 has no other counted reference. */
  lemma LastReference(s: State, o: Owner)
    requires Inv(s) && o in s.own && !s.own[o].Raw? && s.cnt[s.own[o].ppn] <= 1
    ensures s.cnt[s.own[o].ppn] == 1 && s.leaked[s.own[o].ppn] == 0
    ensures Alone(s.own, o)
  {
    var p := s.own[o].ppn;
    assert o in Counts(s.own, p);
    forall o' | o' in s.own && s.own[o'].ppn == p ensures o' == o {
      if o' != o {
        assert Compatible(s.own, o, o');
        assert {o, o'} <= Counts(s.own, p);
        SubsetSize({o, o'}, Counts(s.own, p));
      }
    }
  }

  /** An owner that may write its page is alone. */
  lemma WriterAlone(own: map<Owner, Holding>, o: Owner)
    requires Exclusive(own) && o in own && !Sharable(own[o])
    ensures Alone(own, o)
  {
    forall o' | o' in own && own[o'].ppn == own[o].ppn ensures o' == o {
      assert Compatible(own, o, o');
    }
  }

  lemma ExclusiveMove(own: map<Owner, Holding>, a: Owner, b: Owner, h: Holding)
    requires Exclusive(own) && a in own && (b == a || b !in own) && h.ppn == own[a].ppn
    requires Sharable(h) || Alone(own, a)
    ensures Exclusive((own - {a})[b := h])
  {
    var own' := (own - {a})[b := h];
    forall o, o' | o in own' && o' in own' ensures Compatible(own', o, o') {
      var x, y := if o == b then a else o, if o' == b then a else o';
      assert Compatible(own, x, y);
    }
  }

  lemma ExclusivePut(own: map<Owner, Holding>, o: Owner, h: Holding)
    requires Exclusive(own) && o !in own
    requires forall x :: x in own && own[x].ppn == h.ppn ==> Sharable(own[x]) && Sharable(h)
    ensures Exclusive(own[o := h])
  {
    var own' := own[o := h];
    forall x, y | x in own' && y in own' ensures Compatible(own', x, y) {
      if x != o && y != o {
        assert Compatible(own, x, y);
      }
    }
  }

  lemma ExclusiveTake(own: map<Owner, Holding>, o: Owner)
    requires Exclusive(own)
    ensures Exclusive(own - {o})
  {
    var own' := own - {o};
    forall x, y | x in own' && y in own' ensures Compatible(own', x, y) {
      assert Compatible(own, x, y);
    }
  }

  /** No thread stakes its next step on o's page having a single owner. */
  ghost predicate Unstaked(s: State, o: Owner) {
    forall t :: t in s.sole ==> o != User(t, s.sole[t])
  }

  lemma ActsUnstaked(s: State, t: nat, pid: nat, v: nat)
    requires SoleKnown(s) && Acts(s, t, pid) && t !in s.sole
    ensures Unstaked(s, User(pid, v))
  {
  }

  /** Only page p's count may have changed. */
  ghost predicate CountsFollow(s: State, s': State, p: nat) {
    |s'.cnt| == |s.cnt| && forall q :: 0 <= q < |s.cnt| && q != p ==> s'.cnt[q] == s.cnt[q]
  }

  lemma SoleMove(s: State, s': State, a: Owner, b: Owner, h: Holding)
    requires SoleKnown(s) && a in s.own && (b == a || b !in s.own) && h.ppn == s.own[a].ppn
    requires s'.sole == s.sole && s'.actor == s.actor && s'.own == (s.own - {a})[b := h]
    requires Unstaked(s, a) && CountsFollow(s, s', h.ppn)
    ensures SoleKnown(s')
  {
    forall t | t in s'.sole ensures Alone(s'.own, User(t, s'.sole[t])) && CountIsOne(s', User(t, s'.sole[t])) {
      assert Alone(s.own, User(t, s.sole[t]));
    }
  }

  lemma SolePut(s: State, s': State, o: Owner, h: Holding)
    requires SoleKnown(s) && o !in s.own
    requires s'.sole == s.sole && s'.actor == s.actor && s'.own == s.own[o := h]
    requires forall t :: t in s.sole ==> User(t, s.sole[t]) in s.own ==> h.ppn != s.own[User(t, s.sole[t])].ppn
    requires CountsFollow(s, s', h.ppn)
    ensures SoleKnown(s')
  {
    forall t | t in s'.sole ensures Alone(s'.own, User(t, s'.sole[t])) && CountIsOne(s', User(t, s'.sole[t])) {
      assert Alone(s.own, User(t, s.sole[t]));
    }
  }

  lemma SoleTake(s: State, s': State, o: Owner)
    requires SoleKnown(s) && o in s.own && Unstaked(s, o) && CountsFollow(s, s', s.own[o].ppn)
    requires s'.sole == s.sole && s'.actor == s.actor && s'.own == s.own - {o}
    ensures SoleKnown(s')
  {
    forall t | t in s'.sole ensures Alone(s'.own, User(t, s'.sole[t])) && CountIsOne(s', User(t, s'.sole[t])) {
      assert Alone(s.own, User(t, s.sole[t]));
    }
  }

  lemma PopKeeps(s: State, t: nat, k: nat)
    requires Inv(s) && Enabled(s, Pop(t, k))
    ensures Inv(Next(s, Pop(t, k)))
  {
    var s' := Next(s, Pop(t, k));
    AccountedPut(s, s', InFlight(t, k), s'.own[InFlight(t, k)]);
    ExclusivePut(s.own, InFlight(t, k), s'.own[InFlight(t, k)]);
    SolePut(s, s', InFlight(t, k), s'.own[InFlight(t, k)]);
  }

  lemma SetCountKeeps(s: State, t: nat, k: nat)
    requires Inv(s) && Enabled(s, SetCount(t, k))
    ensures Inv(Next(s, SetCount(t, k)))
  {
    var s' := Next(s, SetCount(t, k));
    assert s'.own == (s.own - {InFlight(t, k)})[InFlight(t, k) := s'.own[InFlight(t, k)]];
    WriterAlone(s.own, InFlight(t, k));
    AccountedMove(s, s', InFlight(t, k), InFlight(t, k), s'.own[InFlight(t, k)]);
    ExclusiveMove(s.own, InFlight(t, k), InFlight(t, k), s'.own[InFlight(t, k)]);
    SoleMove(s, s', InFlight(t, k), InFlight(t, k), s'.own[InFlight(t, k)]);
  }

  lemma DropLastKeeps(s: State, t: nat, k: nat)
    requires Inv(s) && Enabled(s, Drop(t, k)) && s.cnt[s.own[InFlight(t, k)].ppn] <= 1
    ensures Inv(Next(s, Drop(t, k)))
  {
    var s' := Next(s, Drop(t, k));
    LastReference(s, InFlight(t, k));
    assert s'.own == (s.own - {InFlight(t, k)})[InFlight(t, k) := s'.own[InFlight(t, k)]];
    AccountedMove(s, s', InFlight(t, k), InFlight(t, k), s'.own[InFlight(t, k)]);
    ExclusiveMove(s.own, InFlight(t, k), InFlight(t, k), s'.own[InFlight(t, k)]);
    SoleMove(s, s', InFlight(t, k), InFlight(t, k), s'.own[InFlight(t, k)]);
  }

  lemma DropKeeps(s: State, t: nat, k: nat)
    requires Inv(s) && Enabled(s, Drop(t, k))
    ensures Inv(Next(s, Drop(t, k)))
  {
    var s' := Next(s, Drop(t, k));
    if s.cnt[s.own[InFlight(t, k)].ppn] <= 1 {
      DropLastKeeps(s, t, k);
    } else {
      AccountedTake(s, s', InFlight(t, k));
      ExclusiveTake(s.own, InFlight(t, k));
      SoleTake(s, s', InFlight(t, k));
    }
  }

  lemma PushKeeps(s: State, t: nat, k: nat)
    requires Inv(s) && Enabled(s, Push(t, k))
    ensures Inv(Next(s, Push(t, k)))
  {
    var s' := Next(s, Push(t, k));
    WriterAlone(s.own, InFlight(t, k));
    AccountedTake(s, s', InFlight(t, k));
    ExclusiveTake(s.own, InFlight(t, k));
    SoleTake(s, s', InFlight(t, k));
  }

  lemma FillKeeps(s: State, t: nat, k: nat, data: Page)
    requires Inv(s) && Enabled(s, Fill(t, k, data))
    ensures Inv(Next(s, Fill(t, k, data)))
  {
    var s' := Next(s, Fill(t, k, data));
    assert s'.own == s.own;
  }

  lemma MapNewKeeps(s: State, t: nat, k: nat, pid: nat, v: nat, w: bool, u: bool)
    requires Inv(s) && Enabled(s, MapNew(t, k, pid, v, w, u))
    ensures Inv(Next(s, MapNew(t, k, pid, v, w, u)))
  {
    var s' := Next(s, MapNew(t, k, pid, v, w, u));
    WriterAlone(s.own, InFlight(t, k));
    AccountedMove(s, s', InFlight(t, k), User(pid, v), s'.own[User(pid, v)]);
    ExclusiveMove(s.own, InFlight(t, k), User(pid, v), s'.own[User(pid, v)]);
    SoleMove(s, s', InFlight(t, k), User(pid, v), s'.own[User(pid, v)]);
  }

  function Rebit(s: State, o: Owner, h: Holding): State {
    s.(own := s.own[o := h])
  }

  /** Changing the bits of an entry changes no count, no list and no other reference. */
  lemma RebitBooks(s: State, pid: nat, v: nat, h: Holding)
    requires Inv(s) && User(pid, v) in s.own && h.Pte? && h.ppn == s.own[User(pid, v)].ppn
    ensures var s' := Rebit(s, User(pid, v), h);
            Sized(s') && Typed(s') && FreeListed(s') && Idle(s') && StaleKnown(s') && Accounted(s')
  {
    var o, s' := User(pid, v), Rebit(s, User(pid, v), h);
    assert s'.own == (s.own - {o})[o := h];
    AccountedMove(s, s', o, o, h);
  }

  lemma RebitExclusive(own: map<Owner, Holding>, o: Owner, h: Holding)
    requires Exclusive(own) && o in own && h.ppn == own[o].ppn && (Sharable(h) || Alone(own, o))
    ensures Exclusive(own[o := h])
  {
    assert own[o := h] == (own - {o})[o := h];
    ExclusiveMove(own, o, o, h);
  }

  /** Changing the bits of an entry that nobody's next step is staked on. */
  lemma RebitKeeps(s: State, t: nat, pid: nat, v: nat, h: Holding)
    requires Inv(s) && Acts(s, t, pid) && t !in s.sole && User(pid, v) in s.own && h.Pte?
    requires h.ppn == s.own[User(pid, v)].ppn && (Sharable(h) || !Sharable(s.own[User(pid, v)]))
    ensures Inv(Rebit(s, User(pid, v), h))
  {
    var o := User(pid, v);
    RebitBooks(s, pid, v, h);
    assert Exclusive(s.own[o := h]) by {
      if !Sharable(s.own[o]) {
        WriterAlone(s.own, o);
      }
      RebitExclusive(s.own, o, h);
    }
    assert SoleKnown(Rebit(s, o, h)) by {
      ActsUnstaked(s, t, pid, v);
      assert s.own[o := h] == (s.own - {o})[o := h];
      SoleMove(s, Rebit(s, o, h), o, o, h);
    }
  }

  lemma SetCowKeeps(s: State, t: nat, pid: nat, v: nat)
    requires Inv(s) && Enabled(s, SetCow(t, pid, v))
    ensures Inv(Next(s, SetCow(t, pid, v)))
  {
    RebitKeeps(s, t, pid, v, s.own[User(pid, v)].(cow := true));
  }

  lemma ClearWKeeps(s: State, t: nat, pid: nat, v: nat)
    requires Inv(s) && Enabled(s, ClearW(t, pid, v))
    ensures Inv(Next(s, ClearW(t, pid, v)))
  {
    RebitKeeps(s, t, pid, v, s.own[User(pid, v)].(w := false));
  }

  lemma DeclareKeeps(s: State, t: nat, k: nat, pid: nat, v: nat)
    requires Inv(s) && Enabled(s, Declare(t, k, pid, v))
    ensures Inv(Next(s, Declare(t, k, pid, v)))
  {
    var s' := Next(s, Declare(t, k, pid, v));
    ActsUnstaked(s, t, pid, v);
    forall o | o in s.own && s.own[o].ppn == s.own[User(pid, v)].ppn ensures Sharable(s.own[o]) {
      assert Compatible(s.own, o, User(pid, v));
    }
    AccountedPut(s, s', InFlight(t, k), s'.own[InFlight(t, k)]);
    ExclusivePut(s.own, InFlight(t, k), s'.own[InFlight(t, k)]);
    SolePut(s, s', InFlight(t, k), s'.own[InFlight(t, k)]);
  }

  lemma MapSharedKeeps(s: State, t: nat, k: nat, pid: nat, v: nat, child: nat)
    requires Inv(s) && Enabled(s, MapShared(t, k, pid, v, child))
    ensures Inv(Next(s, MapShared(t, k, pid, v, child)))
  {
    var s' := Next(s, MapShared(t, k, pid, v, child));
    AccountedMove(s, s', InFlight(t, k), User(child, v), s'.own[User(child, v)]);
    ExclusiveMove(s.own, InFlight(t, k), User(child, v), s'.own[User(child, v)]);
    SoleMove(s, s', InFlight(t, k), User(child, v), s'.own[User(child, v)]);
  }

  lemma LeakKeeps(s: State, t: nat, k: nat)
    requires Inv(s) && Enabled(s, Leak(t, k))
    ensures Inv(Next(s, Leak(t, k)))
  {
    var s' := Next(s, Leak(t, k));
    AccountedTake(s, s', InFlight(t, k));
    ExclusiveTake(s.own, InFlight(t, k));
    SoleTake(s, s', InFlight(t, k));
  }

  lemma DetachedKeeps(s: State, t: nat, k: nat, pid: nat, v: nat)
    requires Inv(s) && !Holds(s, t, k) && Acts(s, t, pid) && t !in s.sole && User(pid, v) in s.own
    ensures Inv(Detached(s, t, k, pid, v))
  {
    var s' := Detached(s, t, k, pid, v);
    ActsUnstaked(s, t, pid, v);
    AccountedMove(s, s', User(pid, v), InFlight(t, k), s'.own[InFlight(t, k)]);
    ExclusiveMove(s.own, User(pid, v), InFlight(t, k), s'.own[InFlight(t, k)]);
    SoleMove(s, s', User(pid, v), InFlight(t, k), s'.own[InFlight(t, k)]);
  }

  lemma UnmapKeeps(s: State, t: nat, k: nat, pid: nat, v: nat)
    requires Inv(s) && Enabled(s, Unmap(t, k, pid, v))
    ensures Inv(Next(s, Unmap(t, k, pid, v)))
  {
    DetachedKeeps(s, t, k, pid, v);
    var s' := Next(s, Unmap(t, k, pid, v));
    assert s'.own == Detached(s, t, k, pid, v).own;
  }

  lemma ClearKeeps(s: State, t: nat)
    requires Inv(s) && Enabled(s, Clear(t))
    ensures Inv(Next(s, Clear(t)))
  {
    var s' := Next(s, Clear(t));
    assert s'.own == s.own;
  }

  lemma TestKeeps(s: State, t: nat, v: nat)
    requires Inv(s) && Enabled(s, Test(t, v))
    ensures Inv(Next(s, Test(t, v)))
  {
    var s' := Next(s, Test(t, v));
    LastReference(s, User(t, v));
  }

  /** The sole owner of a page may change the bits of its entry. */
  lemma SoleRebitKeeps(s: State, t: nat, v: nat, h: Holding)
    requires Inv(s) && t in s.sole && s.sole[t] == v && User(t, v) in s.own
    requires h.Pte? && h.ppn == s.own[User(t, v)].ppn
    ensures Inv(Rebit(s, User(t, v), h))
  {
    var o, s' := User(t, v), Rebit(s, User(t, v), h);
    RebitBooks(s, t, v, h);
    RebitExclusive(s.own, o, h);
    forall u | u in s'.sole ensures Alone(s'.own, User(u, s'.sole[u])) && CountIsOne(s', User(u, s'.sole[u])) {
      assert Alone(s.own, User(u, s.sole[u])) && CountIsOne(s, User(u, s.sole[u]));
    }
  }

  lemma UnmarkKeeps(s: State, t: nat, v: nat)
    requires Inv(s) && Enabled(s, Unmark(t, v))
    ensures Inv(Next(s, Unmark(t, v)))
  {
    SoleRebitKeeps(s, t, v, s.own[User(t, v)].(cow := false));
  }

  lemma ClaimKeeps(s: State, t: nat, v: nat)
    requires Inv(s) && Enabled(s, Claim(t, v))
    ensures Inv(Next(s, Claim(t, v)))
  {
    var h := s.own[User(t, v)].(w := true);
    SoleRebitKeeps(s, t, v, h);
    var s' := Next(s, Claim(t, v));
    assert s'.own == Rebit(s, User(t, v), h).own;
  }

  /** Replacing the page under a PTE is giving the old page to one slot, then taking the
      new page from another. */
  lemma ReplaceSplits(s: State, t: nat, k: nat, k': nat, v: nat)
    requires Inv(s) && Enabled(s, Replace(t, k, k', v))
    ensures Inv(Detached(s, t, k', t, v))
    ensures Enabled(Detached(s, t, k', t, v), MapNew(t, k, t, v, true, s.own[User(t, v)].u))
    ensures Next(s, Replace(t, k, k', v))
            == Next(Detached(s, t, k', t, v), MapNew(t, k, t, v, true, s.own[User(t, v)].u))
  {
    DetachedKeeps(s, t, k', t, v);
    SwapOrder(s.own, User(t, v), InFlight(t, k'), Shared(s.own[User(t, v)].ppn), InFlight(t, k),
              Next(s, Replace(t, k, k', v)).own[User(t, v)]);
  }

  lemma SwapOrder(own: map<Owner, Holding>, a: Owner, b: Owner, h: Holding, c: Owner, g: Holding)
    requires a in own && b !in own && c in own && a != c
    ensures (own - {c})[a := g][b := h] == ((own - {a})[b := h] - {c})[a := g]
  {
  }

  lemma ReplaceKeeps(s: State, t: nat, k: nat, k': nat, v: nat)
    requires Inv(s) && Enabled(s, Replace(t, k, k', v))
    ensures Inv(Next(s, Replace(t, k, k', v)))
  {
    ReplaceSplits(s, t, k, k', v);
    MapNewKeeps(Detached(s, t, k', t, v), t, k, t, v, true, s.own[User(t, v)].u);
  }

  lemma WriteKeeps(s: State, t: nat, v: nat, off: nat, bytes: seq<int>)
    requires Inv(s) && Enabled(s, Write(t, v, off, bytes))
    ensures Inv(Next(s, Write(t, v, off, bytes)))
  {
    var s' := Next(s, Write(t, v, off, bytes));
    assert s'.own == s.own;
  }

  lemma SpawnKeeps(s: State, t: nat, pid: nat)
    requires Inv(s) && Enabled(s, Spawn(t, pid))
    ensures Inv(Next(s, Spawn(t, pid)))
  {
    var s' := Next(s, Spawn(t, pid));
    assert s'.own == s.own;
  }

  lemma HandoverKeeps(s: State, t: nat, pid: nat, heir: nat)
    requires Inv(s) && Enabled(s, Handover(t, pid, heir))
    ensures Inv(Next(s, Handover(t, pid, heir)))
  {
    var s' := Next(s, Handover(t, pid, heir));
    assert s'.own == s.own;
  }

  /** Whatever thread takes whatever step, the invariant survives. */
  lemma StepKeepsInv(s: State, st: Step)
    requires Inv(s) && Enabled(s, st)
    ensures Inv(Next(s, st))
  {
    match st
    case Pop(t, k) => PopKeeps(s, t, k);
    case SetCount(t, k) => SetCountKeeps(s, t, k);
    case Drop(t, k) => DropKeeps(s, t, k);
    case Push(t, k) => PushKeeps(s, t, k);
    case Fill(t, k, data) => FillKeeps(s, t, k, data);
    case MapNew(t, k, pid, v, w, u) => MapNewKeeps(s, t, k, pid, v, w, u);
    case SetCow(t, pid, v) => SetCowKeeps(s, t, pid, v);
    case ClearW(t, pid, v) => ClearWKeeps(s, t, pid, v);
    case Declare(t, k, pid, v) => DeclareKeeps(s, t, k, pid, v);
    case MapShared(t, k, pid, v, child) => MapSharedKeeps(s, t, k, pid, v, child);
    case Leak(t, k) => LeakKeeps(s, t, k);
    case Unmap(t, k, pid, v) => UnmapKeeps(s, t, k, pid, v);
    case Clear(t) => ClearKeeps(s, t);
    case Test(t, v) => TestKeeps(s, t, v);
    case Unmark(t, v) => UnmarkKeeps(s, t, v);
    case Claim(t, v) => ClaimKeeps(s, t, v);
    case Replace(t, k, k', v) => ReplaceKeeps(s, t, k, k', v);
    case Write(t, v, off, bytes) => WriteKeeps(s, t, v, off, bytes);
    case Spawn(t, pid) => SpawnKeeps(s, t, pid);
    case Handover(t, pid, heir) => HandoverKeeps(s, t, pid, heir);
  }

  lemma LeakedGrows(s: State, st: Step, p: nat)
    requires Inv(s) && Enabled(s, st) && p < |s.leaked|
    ensures |Next(s, st).leaked| == |s.leaked| && s.leaked[p] <= Next(s, st).leaked[p]
    ensures !st.Leak? ==> Next(s, st).leaked[p] == s.leaked[p]
  {
  }

  lemma SameSize(s: State, st: Step)
    requires Inv(s) && Enabled(s, st)
    ensures |Next(s, st).cnt| == |s.cnt|
  {
  }

  /** Steps that can be taken one after another from s. */
  ghost predicate Legal(s: State, steps: seq<Step>)
    requires Inv(s)
    decreases |steps|
  {
    steps == [] ||
    (Enabled(s, steps[0]) && (StepKeepsInv(s, steps[0]); Legal(Next(s, steps[0]), steps[1..])))
  }

  ghost function After(s: State, steps: seq<Step>): (r: State)
    requires Inv(s) && Legal(s, steps)
    ensures Inv(r)
    decreases |steps|
  {
    if steps == [] then s
    else
      StepKeepsInv(s, steps[0]);
      After(Next(s, steps[0]), steps[1..])
  }

  /** The state after the first step of a run, and the runs that begin with that step. */
  lemma Peel(s: State, a: seq<Step>) returns (r: State)
    requires Inv(s) && Legal(s, a) && a != []
    ensures Inv(r) && Legal(r, a[1..]) && After(s, a) == After(r, a[1..])
    ensures forall rest {:trigger Legal(r, rest)} :: Legal(r, rest) ==>
              Legal(s, [a[0]] + rest) && After(s, [a[0]] + rest) == After(r, rest)
  {
    StepKeepsInv(s, a[0]);
    r := Next(s, a[0]);
    forall rest | Legal(r, rest) ensures Legal(s, [a[0]] + rest) && After(s, [a[0]] + rest) == After(r, rest) {
      assert ([a[0]] + rest)[1..] == rest;
    }
  }

  /** The run takes s to r. */
  ghost predicate Reaches(s: State, steps: seq<Step>, r: State)
    requires Inv(s)
  {
    Legal(s, steps) && After(s, steps) == r
  }

  lemma MoveBracket(a: seq<Step>, b: seq<Step>)
    requires a != []
    ensures a + b == [a[0]] + (a[1..] + b)
  {
  }

  lemma {:induction false} ReachesJoin(s: State, a: seq<Step>, r: State, b: seq<Step>, r': State)
    requires Inv(s) && Inv(r) && Reaches(s, a, r) && Reaches(r, b, r')
    ensures Reaches(s, a + b, r')
    decreases |a|
  {
    if a == [] {
      assert a + b == b;
    } else {
      var q := Peel(s, a);
      ReachesJoin(q, a[1..], r, b, r');
      MoveBracket(a, b);
    }
  }

  lemma ReachesOne(s: State, st: Step)
    requires Inv(s) && Enabled(s, st)
    ensures Reaches(s, [st], Next(s, st))
  {
    StepKeepsInv(s, st);
    assert [st][1..] == [];
  }

  /** One more step at the end of a run. */
  lemma ReachesNext(s: State, a: seq<Step>, r: State, st: Step, r': State)
    requires Inv(s) && Reaches(s, a, r) && Inv(r) && Enabled(r, st) && r' == Next(r, st)
    ensures Reaches(s, a + [st], r')
  {
    ReachesOne(r, st);
    ReachesJoin(s, a, r, [st], r');
  }
}
