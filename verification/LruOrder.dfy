/** The LRU stamps against the history of last uses. */
module LruOrder {
  import opened Bytes
  import opened Sessions
  import opened SessionRuns

  /** Active stamps lie below the counter, say whether a session was ever used, and are ordered as its last uses. */
  ghost predicate Ordered(h: History) {
    && |h.last| == |h.t.slots| && h.t.lruCounter <= h.clock
    && (forall i :: 0 <= i < |h.last| && h.t.slots[i].fd >= 0 ==> Dated(h, i))
    && (forall i, j :: 0 <= i < |h.last| && 0 <= j < |h.last| && i != j && h.t.slots[i].fd >= 0 && h.t.slots[j].fd >= 0
                       ==> Agree(h, i, j))
  }

  ghost predicate Dated(h: History, i: nat)
    requires i < |h.last| == |h.t.slots|
  {
    && h.t.slots[i].lruCounter <= h.t.lruCounter && h.last[i] <= h.clock
    && (h.t.slots[i].lruCounter == 0 <==> h.last[i] == 0)
  }

  ghost predicate Agree(h: History, i: nat, j: nat)
    requires i < |h.last| == |h.t.slots| && j < |h.last|
  {
    var a, b := h.t.slots[i].lruCounter, h.t.slots[j].lruCounter;
    a != 0 && b != 0 ==> a != b && (a < b <==> h.last[i] < h.last[j])
  }

  /** Only the stamps of active slots, the counter and the history matter. */
  lemma OrderedFrame(h: History, h': History)
    requires Ordered(h)
    requires |h'.last| == |h'.t.slots| == |h.last| && h.clock <= h'.clock && h'.t.lruCounter == h.t.lruCounter
    requires forall i :: 0 <= i < |h.last| && h'.t.slots[i].fd >= 0 ==>
                           && h.t.slots[i].fd >= 0 && h'.t.slots[i].lruCounter == h.t.slots[i].lruCounter
                           && h'.last[i] == h.last[i]
    ensures Ordered(h')
  {
    forall i | 0 <= i < |h'.last| && h'.t.slots[i].fd >= 0 ensures Dated(h', i) {
      assert Dated(h, i);
    }
    forall i, j | 0 <= i < |h'.last| && 0 <= j < |h'.last| && i != j && h'.t.slots[i].fd >= 0 && h'.t.slots[j].fd >= 0
      ensures Agree(h', i, j)
    {
      assert Agree(h, i, j);
    }
  }

  /** Deleting a session keeps the order exactly when the counter does not reach zero under sessions already used. */
  lemma DeleteOrdered(h: History, i: nat)
    requires Ordered(h) && i < |h.last| && h.t.slots[i].fd >= 0
    ensures Ordered(h.(t := Delete(h.t, i))) <==>
            h.t.activeCount != 1
            || forall j :: 0 <= j < |h.last| && j != i && h.t.slots[j].fd >= 0 ==> h.t.slots[j].lruCounter == 0
  {
    var h' := h.(t := Delete(h.t, i));
    if h.t.activeCount != 1 {
      OrderedFrame(h, h');
    } else {
      forall j | 0 <= j < |h.last| && j != i && h.t.slots[j].fd >= 0
        ensures h'.t.slots[j] == h.t.slots[j] && Dated(h, j)
        ensures h.t.slots[j].lruCounter != 0 ==> !Dated(h', j)
      {
      }
    }
  }

  // ---------- When an event keeps the order ----------

  function Never(fd: int): bool {
    false
  }

  /** A sweep deletes an active session whose descriptor is not valid. */
  predicate Doomed(s: Slot, valid: int -> bool) {
    s.fd >= 0 && !valid(s.fd)
  }

  function CountDoomed(slots: seq<Slot>, i: nat, valid: int -> bool): nat
    requires i <= |slots|
    decreases |slots| - i
  {
    if i == |slots| then 0 else (if Doomed(slots[i], valid) then 1 else 0) + CountDoomed(slots, i + 1, valid)
  }

  /** The event places a session in a free slot. */
  predicate Places(h: History, e: Event) {
    e.Open? && Get(h.t, e.fd).None? && IsAvailable(h.t)
  }

  /** How often an event counts a session out. */
  function Deletions(h: History, e: Event): nat
    requires Enabled(h, e)
  {
    match e
    case Open(fd, ok) => if Places(h, e) && !ok then 1 else 0
    case Remove(i) => if h.t.slots[i].fd >= 0 then 1 else 0
    case RemoveInvalid(valid) => CountDoomed(h.t.slots, 0, valid)
    case RemoveAll => CountDoomed(h.t.slots, 0, Never)
    case _ => 0
  }

  /** The event leaves the session in slot `j` alone, if there is one. */
  predicate Spares(h: History, e: Event, j: nat)
    requires j < |h.t.slots|
  {
    match e
    case Remove(i) => j != i
    case RemoveInvalid(valid) => !Doomed(h.t.slots[j], valid)
    case RemoveAll => false
    case _ => true
  }

  /** The counter does not come to zero while the event leaves a session that was already used. */
  ghost predicate Harmless(h: History, e: Event)
    requires Enabled(h, e)
  {
    1 <= h.t.activeCount <= Deletions(h, e) ==>
      forall j :: 0 <= j < |h.t.slots| && h.t.slots[j].fd >= 0 && Spares(h, e, j) ==> h.t.slots[j].lruCounter == 0
  }

  /** The counters after `d` sessions have been counted out. */
  ghost predicate CountedOut(t: Table, t': Table, d: nat) {
    && t'.activeCount == t.activeCount - d
    && t'.lruCounter == if 1 <= t.activeCount <= d then 0 else t.lruCounter
  }

  lemma CountedOutOnce(t: Table, t1: Table, t': Table, d1: nat, d: nat)
    requires CountedOut(t, t1, d1) && CountedOut(t1, t', d) && d1 <= 1
    ensures CountedOut(t, t', d1 + d)
  {
  }

  /** What a sweep over the slots from `i` on leaves. */
  lemma {:induction false} SweepMeans(t: Table, i: nat, c: Context, valid: int -> bool)
    requires i <= |t.slots| && c.task == DeleteInvalid
    ensures var t' := Enum(t, i, c, valid).0;
            && CountedOut(t, t', CountDoomed(t.slots, i, valid))
            && forall j :: 0 <= j < |t.slots| ==>
                 t'.slots[j] == if j >= i && Doomed(t.slots[j], valid) then Cleared(t.slots[j]) else t.slots[j]
    decreases |t.slots| - i
  {
    if i < |t.slots| {
      var t1 := Visit(t, i, c, valid).0;
      SweepMeans(t1, i + 1, c, valid);
      SameDoomed(t.slots, t1.slots, i + 1, valid);
      var d := CountDoomed(t.slots, i + 1, valid);
      CountedOutOnce(t, t1, Enum(t1, i + 1, c, valid).0, if Doomed(t.slots[i], valid) then 1 else 0, d);
    }
  }

  lemma {:induction false} SameDoomed(a: seq<Slot>, b: seq<Slot>, i: nat, valid: int -> bool)
    requires |a| == |b| && i <= |a| && forall j :: i <= j < |a| ==> a[j] == b[j]
    ensures CountDoomed(a, i, valid) == CountDoomed(b, i, valid)
    decreases |a| - i
  {
    if i < |a| {
      SameDoomed(a, b, i + 1, valid);
    }
  }

  /** Closing all is a sweep in which no descriptor is valid. */
  lemma {:induction false} CloseIsSweep(t: Table, i: nat)
    requires i <= |t.slots|
    ensures Enum(t, i, Blank(Close), Always).0 == Enum(t, i, Blank(DeleteInvalid), Never).0
    decreases |t.slots| - i
  {
    if i < |t.slots| {
      CloseIsSweep(Visit(t, i, Blank(Close), Always).0, i + 1);
    }
  }

  /** Sessions end, nothing else happens, and the counter stays or is reset. */
  ghost predicate OnlyEnds(h: History, h': History, e: Event) {
    && |h'.last| == |h'.t.slots| == |h.last| == |h.t.slots| && h'.clock == h.clock
    && forall i :: 0 <= i < |h.last| ==>
         (h'.t.slots[i].fd >= 0 <==> h.t.slots[i].fd >= 0 && Spares(h, e, i))
         && (h'.t.slots[i].fd >= 0 ==> h'.t.slots[i].lruCounter == h.t.slots[i].lruCounter && h'.last[i] == h.last[i])
  }

  lemma EndsOrdered(h: History, h': History, e: Event, d: nat)
    requires Ordered(h) && OnlyEnds(h, h', e) && CountedOut(h.t, h'.t, d)
    ensures Ordered(h') <==>
            (1 <= h.t.activeCount <= d ==>
               forall j :: 0 <= j < |h.t.slots| && h.t.slots[j].fd >= 0 && Spares(h, e, j) ==>
                             h.t.slots[j].lruCounter == 0)
  {
    if !(1 <= h.t.activeCount <= d) {
      OrderedFrame(h, h');
    } else if forall j :: 0 <= j < |h.t.slots| && h.t.slots[j].fd >= 0 && Spares(h, e, j) ==>
                            h.t.slots[j].lruCounter == 0
    {
      forall i | 0 <= i < |h'.last| && h'.t.slots[i].fd >= 0 ensures Dated(h', i) {
        assert Dated(h, i);
      }
    } else {
      var j :| 0 <= j < |h.t.slots| && h.t.slots[j].fd >= 0 && Spares(h, e, j) && h.t.slots[j].lruCounter != 0;
      assert h'.t.slots[j].fd >= 0 && !Dated(h', j);
    }
  }

  lemma OpenOrdered(h: History, fd: int)
    requires Ordered(h)
    ensures Ordered(Opened(h, fd, true))
  {
    var h' := Opened(h, fd, true);
    if Get(h.t, fd).None? && IsAvailable(h.t) {
      var k := GetFreeSession(h.t).value;
      forall i | 0 <= i < |h'.last| && h'.t.slots[i].fd >= 0 ensures Dated(h', i) {
        assert i == k || Dated(h, i);
      }
      forall i, j | 0 <= i < |h'.last| && 0 <= j < |h'.last| && i != j && h'.t.slots[i].fd >= 0 && h'.t.slots[j].fd >= 0
        ensures Agree(h', i, j)
      {
        assert i == k || j == k || Agree(h, i, j);
      }
    }
  }

  lemma TouchAt(h: History, h': History, k: nat)
    requires Ordered(h) && h.clock < UINT64_MAX && k < |h.last|
    requires h' == h.(t := Touch(h.t, k), last := h.last[k := h.clock + 1], clock := h.clock + 1)
    ensures Ordered(h')
  {
    forall i | 0 <= i < |h'.last| && h'.t.slots[i].fd >= 0 ensures Dated(h', i) {
      assert i == k || Dated(h, i);
    }
    forall i, j | 0 <= i < |h'.last| && 0 <= j < |h'.last| && i != j && h'.t.slots[i].fd >= 0 && h'.t.slots[j].fd >= 0
      ensures Agree(h', i, j)
    {
      if i == k {
        assert Dated(h, j);
      } else if j == k {
        assert Dated(h, i);
      } else {
        assert Agree(h, i, j);
      }
    }
  }

  lemma TouchOrdered(h: History, fd: int)
    requires Ordered(h) && Touched(h, fd).clock <= UINT64_MAX
    ensures Ordered(Touched(h, fd))
  {
    var h' := Touched(h, fd);
    if Find(h.t, fd).Some? {
      TouchAt(h, h', Find(h.t, fd).value);
    } else {
      OrderedFrame(h, h');
    }
  }

  lemma UserOrdered(h: History, fd: int, ctx: Option<Ctx>, freeFn: FreeFn)
    requires Ordered(h)
    ensures Ordered(WithUser(h, fd, ctx, freeFn)) && Ordered(WithTransport(h, fd, ctx, freeFn))
  {
    OrderedFrame(h, WithUser(h, fd, ctx, freeFn));
    OrderedFrame(h, WithTransport(h, fd, ctx, freeFn));
  }

  lemma PurgeOrdered(h: History)
    requires Ordered(h)
    ensures Ordered(h.(t := CloseLru(h.t).0))
  {
    OrderedFrame(h, h.(t := CloseLru(h.t).0));
  }

  lemma FailedOpenEnds(h: History, fd: int)
    requires |h.last| == |h.t.slots| && Counted(h) && fd >= 0 && Places(h, Open(fd, false))
    ensures var h' := Opened(h, fd, false); OnlyEnds(h, h', Open(fd, false)) && CountedOut(h.t, h'.t, 1)
  {
    Availability(h);
  }

  /** An open that fails on a free slot keeps the order exactly when the counter does not come to zero, or no session
      was used yet. */
  lemma FailedOpenOrdered(h: History, fd: int)
    requires Inv(h) && Ordered(h) && fd >= 0 && Places(h, Open(fd, false))
    ensures Ordered(Opened(h, fd, false)) <==>
            h.t.activeCount != 1
            || forall j :: 0 <= j < |h.last| && h.t.slots[j].fd >= 0 ==> h.t.slots[j].lruCounter == 0
  {
    FailedOpenEnds(h, fd);
    EndsOrdered(h, Opened(h, fd, false), Open(fd, false), 1);
    assert forall j :: 0 <= j < |h.t.slots| ==> Spares(h, Open(fd, false), j);
  }

  lemma AllEnd(h: History, e: Event)
    requires Inv(h) && e.RemoveAll?
    ensures OnlyEnds(h, Step(h, e), e) && CountedOut(h.t, Step(h, e).t, Deletions(h, e))
  {
    CloseIsSweep(h.t, 0);
    SweepMeans(h.t, 0, Blank(DeleteInvalid), Never);
  }

  /** What an event that can delete sessions does to them. */
  lemma Ends(h: History, e: Event)
    requires Inv(h) && Enabled(h, e) && (e.Remove? || e.RemoveInvalid? || e.RemoveAll? || (e.Open? && !e.openOk))
    ensures OnlyEnds(h, Step(h, e), e) && CountedOut(h.t, Step(h, e).t, Deletions(h, e))
  {
    match e {
      case Open(fd, ok) =>
        if Places(h, e) {
          FailedOpenEnds(h, fd);
        }
        return;
      case Remove(i) => return;
      case RemoveInvalid(valid) => SweepMeans(h.t, 0, Blank(DeleteInvalid), valid); return;
      case RemoveAll => AllEnd(h, e); return;
    }
  }

  lemma OtherOrdered(h: History, e: Event)
    requires Inv(h) && Ordered(h) && Enabled(h, e) && Step(h, e).clock <= UINT64_MAX
    requires !e.Remove? && !e.RemoveInvalid? && !e.RemoveAll? && (e.Open? ==> e.openOk)
    ensures Ordered(Step(h, e))
  {
    match e {
      case Open(fd, ok) => OpenOrdered(h, fd); return;
      case Used(fd) => TouchOrdered(h, fd); return;
      case PurgeLru => PurgeOrdered(h); return;
      case SetUser(fd, ctx, freeFn) => UserOrdered(h, fd, ctx, freeFn); return;
      case SetTransport(fd, ctx, freeFn) => UserOrdered(h, fd, ctx, freeFn); return;
      case Request(c) => OrderedFrame(h, h.(t := h.t.(current := c))); return;
    }
  }

  /** An event keeps the order exactly when the counter does not come to zero under a session already used. */
  lemma StepOrdered(h: History, e: Event)
    requires Inv(h) && Ordered(h) && Enabled(h, e) && Step(h, e).clock <= UINT64_MAX
    ensures Ordered(Step(h, e)) <==> Harmless(h, e)
  {
    if e.Remove? || e.RemoveInvalid? || e.RemoveAll? || (e.Open? && !e.openOk) {
      Ends(h, e);
      EndsOrdered(h, Step(h, e), e, Deletions(h, e));
      return;
    }
    OtherOrdered(h, e);
    assert Deletions(h, e) == 0;
  }

  ghost predicate HarmlessRun(h: History, es: seq<Event>)
    requires CanRun(h, es)
    decreases |es|
  {
    es == [] || (Harmless(h, es[0]) && HarmlessRun(Step(h, es[0]), es[1..]))
  }

  /** Without failed opens the counter is exact, and no event can be harmful. */
  lemma NoFailuresHarmless(h: History, e: Event)
    requires Inv(h) && Enabled(h, e) && Step(h, e).failures == 0
    ensures Harmless(h, e)
  {
    var h' := Step(h, e);
    StepInv(h, e);
    if e.Remove? || e.RemoveInvalid? || e.RemoveAll? || (e.Open? && !e.openOk) {
      Ends(h, e);
      CountZero(h'.t.slots);
    }
  }

  lemma {:induction false} NoFailuresRun(h: History, es: seq<Event>)
    requires Inv(h) && CanRun(h, es) && Run(h, es).failures == 0
    ensures HarmlessRun(h, es)
    decreases |es|
  {
    if es != [] {
      RunGrows(Step(h, es[0]), es[1..]);
      NoFailuresHarmless(h, es[0]);
      StepInv(h, es[0]);
      NoFailuresRun(Step(h, es[0]), es[1..]);
    }
  }

  lemma {:induction false} RunGrows(h: History, es: seq<Event>)
    requires CanRun(h, es)
    ensures h.failures <= Run(h, es).failures && h.clock <= Run(h, es).clock
    decreases |es|
  {
    if es != [] {
      RunGrows(Step(h, es[0]), es[1..]);
    }
  }

  lemma {:induction false} RunOrdered(h: History, es: seq<Event>)
    requires Inv(h) && Ordered(h) && CanRun(h, es) && HarmlessRun(h, es) && Run(h, es).clock <= UINT64_MAX
    ensures Ordered(Run(h, es))
    decreases |es|
  {
    if es != [] {
      RunGrows(Step(h, es[0]), es[1..]);
      StepInv(h, es[0]);
      StepOrdered(h, es[0]);
      RunOrdered(Step(h, es[0]), es[1..]);
    }
  }

  // ---------- The choice ----------

  lemma {:induction false} ScanLru(t: Table, i: nat, c: Context)
    requires i <= |t.slots| && c.task == FindLowestLru && forall j :: i <= j < |t.slots| ==> t.slots[j].fd >= 0
    ensures var r := Enum(t, i, c, Always);
            && r.0 == t
            && (forall j :: i <= j < |t.slots| ==> r.1.lruCounter <= t.slots[j].lruCounter)
            && r.1.lruCounter <= c.lruCounter
            && (r.1.lruCounter == c.lruCounter ==> r.1.session == c.session)
            && (r.1.lruCounter < c.lruCounter ==>
                  r.1.session.Some? && i <= r.1.session.value < |t.slots|
                  && t.slots[r.1.session.value].lruCounter == r.1.lruCounter)
    decreases |t.slots| - i
  {
    if i < |t.slots| {
      ScanLru(t, i + 1, Visit(t, i, c, Always).1);
    }
  }

  /** The session marked by a purge, in terms of the history: one never used if there is one,
      else the one whose last use is oldest. */
  ghost predicate LeastRecent(h: History, i: nat) {
    i < |h.last| && forall j :: 0 <= j < |h.last| ==> h.last[i] <= h.last[j]
  }

  lemma FullTableChoice(h: History)
    requires Ordered(h) && |h.last| > 0 && h.clock < UINT64_MAX
    requires forall j :: 0 <= j < |h.last| ==> h.t.slots[j].fd >= 0
    ensures LowestLru(h.t).Some? && LeastRecent(h, LowestLru(h.t).value)
  {
    ScanLru(h.t, 0, Blank(FindLowestLru).(fd := -1, lruCounter := UINT64_MAX));
    assert Dated(h, 0);
    var i := LowestLru(h.t).value;
    forall j | 0 <= j < |h.last| ensures h.last[i] <= h.last[j] {
      assert Dated(h, i) && Dated(h, j);
      assert i == j || Agree(h, i, j);
    }
  }

  lemma StartOrdered(n: nat)
    ensures Ordered(Start(n)) && Start(n).failures == 0 && Start(n).clock == 0 && |Start(n).last| == n
  {
    StartMeans(n);
  }

  lemma Reached(n: nat, es: seq<Event>)
    requires CanRun(Start(n), es) && HarmlessRun(Start(n), es) && Run(Start(n), es).clock <= UINT64_MAX
    ensures Inv(Run(Start(n), es)) && Ordered(Run(Start(n), es))
    ensures |Run(Start(n), es).last| == n
  {
    StartInv(n);
    StartOrdered(n);
    RunInv(Start(n), es);
    RunGrows(Start(n), es);
    RunOrdered(Start(n), es);
  }

  /** LRU selection over every run of harmless events, so over every run without failed opens, with fewer than 2^64 - 1
      uses of sessions: with a full table a purge marks a least recently used session and nothing else. */
  lemma PurgeMarksLeastRecent(n: nat, es: seq<Event>, h: History)
    requires CanRun(Start(n), es) && HarmlessRun(Start(n), es) && h == Run(Start(n), es)
    requires h.clock < UINT64_MAX && n > 0 && !IsAvailable(h.t)
    ensures LowestLru(h.t).Some? && LeastRecent(h, LowestLru(h.t).value)
    ensures var i := LowestLru(h.t).value;
            CloseLru(h.t) == (h.t.(slots := h.t.slots[i := h.t.slots[i].(lruSocket := true)]), EspOk)
  {
    Reached(n, es);
    Availability(h);
    FullTableChoice(h);
  }

  // ---------- A run with a failed open ----------

  lemma OpenOn(h: History, fd: int, ok: bool, i: nat)
    requires Counted(h) && h.t.current.None? && i < |h.last| == |h.t.slots| && fd >= 0
    requires forall j :: 0 <= j < |h.last| ==> h.t.slots[j].fd != fd
    requires h.t.slots[i].fd < 0 && forall j :: 0 <= j < i ==> h.t.slots[j].fd >= 0
    ensures Get(h.t, fd).None? && GetFreeSession(h.t) == Some(i)
  {
    FindMeans(h.t, fd);
    Availability(h);
  }

  lemma FoundAt(t: Table, fd: int, i: nat)
    requires i < |t.slots| && t.slots[i].fd == fd && forall j :: 0 <= j < i ==> t.slots[j].fd != fd
    ensures Find(t, fd) == Some(i)
  {
    FindMeans(t, fd);
  }

  function Busy(fd: int, stamp: uint64): Slot {
    ZERO_SLOT.(fd := fd, lruCounter := stamp, handle := true)
  }

  function Two(a: Slot, b: Slot, count: int, lru: uint64): Table {
    Table([a, b], count, lru, None, [])
  }

  lemma StartTwo()
    ensures Start(2).t == Two(FREE_SLOT, FREE_SLOT, 0, 0) && Start(2).last == [0, 0]
  {
    StartMeans(2);
    assert Start(2).t.slots == [FREE_SLOT, FREE_SLOT];
  }

  lemma OpenFirst(h: History) returns (h': History)
    requires h.t == Two(FREE_SLOT, FREE_SLOT, 0, 0) && h.last == [0, 0] && h.failures == 0
    ensures h' == Step(h, Open(5, true))
    ensures h'.t == Two(Busy(5, 0), FREE_SLOT, 1, 0) && h'.last == [0, 0] && h'.clock == h.clock && h'.failures == 0
  {
    OpenOn(h, 5, true, 0);
    h' := Step(h, Open(5, true));
    assert h'.t.slots == [Busy(5, 0), FREE_SLOT];
  }

  lemma UseFirst(h: History, stamp: nat) returns (h': History)
    requires stamp < UINT64_MAX && h.t == Two(Busy(5, stamp), FREE_SLOT, 1, stamp) && |h.last| == 2
    ensures h' == Step(h, Used(5))
    ensures h'.t == Two(Busy(5, stamp + 1), FREE_SLOT, 1, stamp + 1) && h'.last == h.last[0 := h.clock + 1]
    ensures h'.clock == h.clock + 1 && h'.failures == h.failures
  {
    FoundAt(h.t, 5, 0);
    h' := Step(h, Used(5));
    assert h'.t.slots == [Busy(5, stamp + 1), FREE_SLOT];
  }

  lemma FirstHalf() returns (h: History)
    ensures CanRun(Start(2), [Open(5, true), Used(5), Used(5)]) && h == Run(Start(2), [Open(5, true), Used(5), Used(5)])
    ensures h.t == Two(Busy(5, 2), FREE_SLOT, 1, 2) && h.last == [2, 0] && h.clock == 2 && h.failures == 0
  {
    StartTwo();
    var h1 := OpenFirst(Start(2));
    var h2 := UseFirst(h1, 0);
    h := UseFirst(h2, 1);
    var es := [Open(5, true), Used(5), Used(5)];
    assert es[1..] == [Used(5), Used(5)] && es[1..][1..] == [Used(5)] && es[1..][1..][1..] == [];
  }

  lemma FailSecond(h: History) returns (h': History)
    requires h.t == Two(Busy(5, 2), FREE_SLOT, 1, 2) && h.last == [2, 0] && h.clock == 2 && h.failures == 0
    ensures h' == Step(h, Open(6, false)) && h'.failures == 1 && h'.last == [2, 0] && h'.clock == 2
    ensures h'.t == Two(Busy(5, 2), FREE_SLOT.(handle := true), 0, 0)
  {
    OpenOn(h, 6, false, 1);
    h' := Step(h, Open(6, false));
    assert h'.t.slots == [Busy(5, 2), FREE_SLOT.(handle := true)];
  }

  lemma OpenSecond(h: History) returns (h': History)
    requires h.t == Two(Busy(5, 2), FREE_SLOT.(handle := true), 0, 0)
    requires h.last == [2, 0] && h.clock == 2 && h.failures == 1
    ensures h' == Step(h, Open(7, true)) && h'.last == [2, 0] && h'.failures == 1 && h'.clock == 2
    ensures h'.t == Two(Busy(5, 2), Busy(7, 0), 1, 0)
  {
    OpenOn(h, 7, true, 1);
    h' := Step(h, Open(7, true));
    assert h'.t.slots == [Busy(5, 2), Busy(7, 0)];
  }

  lemma UseSecond(h: History) returns (h': History)
    requires h.t == Two(Busy(5, 2), Busy(7, 0), 1, 0) && h.last == [2, 0] && h.clock == 2 && h.failures == 1
    ensures h' == Step(h, Used(7)) && h'.last == [2, 3]
    ensures h'.t == Two(Busy(5, 2), Busy(7, 1), 1, 1)
  {
    FoundAt(h.t, 7, 1);
    h' := Step(h, Used(7));
    assert h'.t.slots == [Busy(5, 2), Busy(7, 1)];
  }

  lemma SecondHalf(h: History) returns (h': History)
    requires h.t == Two(Busy(5, 2), FREE_SLOT, 1, 2) && h.last == [2, 0] && h.clock == 2 && h.failures == 0
    ensures var es := [Open(6, false), Open(7, true), Used(7)]; CanRun(h, es) && h' == Run(h, es)
    ensures h'.t.slots == [Busy(5, 2), Busy(7, 1)] && h'.last == [2, 3]
  {
    var h1 := FailSecond(h);
    var h2 := OpenSecond(h1);
    h' := UseSecond(h2);
    var es := [Open(6, false), Open(7, true), Used(7)];
    assert es[1..] == [Open(7, true), Used(7)] && es[1..][1..] == [Used(7)] && es[1..][1..][1..] == [];
  }

  /** A failed open resets the counter under a session already used, and the next purge of the full table marks
      slot 1, used after slot 0. */
  lemma FailedOpenMisleadsPurge() returns (h: History, h': History)
    ensures CanRun(Start(2), [Open(5, true), Used(5), Used(5)]) && h == Run(Start(2), [Open(5, true), Used(5), Used(5)])
    ensures var es := [Open(6, false), Open(7, true), Used(7)]; CanRun(h, es) && h' == Run(h, es)
    ensures (forall i :: 0 <= i < |h'.t.slots| ==> h'.t.slots[i].fd >= 0)
    ensures LowestLru(h'.t) == Some(1) && !LeastRecent(h', 1)
  {
    h := FirstHalf();
    h' := SecondHalf(h);
    MarkedWrongly(h');
  }

  lemma MarkedWrongly(h: History)
    requires h.t.slots == [Busy(5, 2), Busy(7, 1)] && |h.last| == 2 && 0 < h.last[0] < h.last[1]
    ensures (forall i :: 0 <= i < |h.t.slots| ==> h.t.slots[i].fd >= 0)
    ensures LowestLru(h.t) == Some(1) && !LeastRecent(h, 1)
  {
    ScanLru(h.t, 0, Blank(FindLowestLru).(fd := -1, lruCounter := UINT64_MAX));
  }
}
