/** Every run of the socket table: accounting, lookup, ownership of contexts and the LRU order. */
module SessionRuns {
  import opened Bytes
  import opened Sessions

  datatype Event =
    | Open(fd: int, openOk: bool)
    | Remove(slot: nat)
    | RemoveInvalid(valid: int -> bool)
    | RemoveAll
    | Used(fd: int)
    | PurgeLru
    | SetUser(fd: int, ctx: Option<Ctx>, freeFn: FreeFn)
    | SetTransport(fd: int, ctx: Option<Ctx>, freeFn: FreeFn)
    | Request(current: Option<nat>)

  /** The table with its history: how many `open_fn` calls failed, every context handed in, and for each slot
      when its present session was last used (0: never); `clock` counts the uses. */
  datatype History = History(t: Table, failures: nat, supplied: multiset<Ctx>, last: seq<nat>, clock: nat)

  /** A descriptor comes from `accept`, a slot is a slot of the table, and a context is set outside the handler
      of the session it is set on. */
  predicate Enabled(h: History, e: Event) {
    match e
    case Open(fd, _) => fd >= 0
    case Remove(i) => i < |h.t.slots|
    case SetUser(fd, _, _) => fd >= 0 && (h.t.current.None? || Get(h.t, fd) != h.t.current)
    case SetTransport(fd, _, _) => fd >= 0
    case Request(c) => c.Some? ==> c.value < |h.t.slots|
    case _ => true
  }

  function Opened(h: History, fd: int, ok: bool): History
    requires |h.last| == |h.t.slots|
  {
    var t' := New(h.t, fd, ok).0;
    if Get(h.t, fd).Some? || !IsAvailable(h.t) then h.(t := t')
    else
      h.(t := t', failures := if ok then h.failures else h.failures + 1, last := h.last[GetFreeSession(h.t).value := 0])
  }

  function Touched(h: History, fd: int): History
    requires |h.last| == |h.t.slots|
  {
    match Find(h.t, fd)
    case None => h
    case Some(i) => h.(t := UpdateLru(h.t, fd).0, last := h.last[i := h.clock + 1], clock := h.clock + 1)
  }

  function WithUser(h: History, fd: int, ctx: Option<Ctx>, freeFn: FreeFn): History {
    match Get(h.t, fd)
    case None => h
    case Some(i) =>
      h.(t := SetCtx(h.t, fd, ctx, freeFn),
         supplied := if h.t.slots[i].ctx != ctx then h.supplied + multiset(FreeOne(ctx)) else h.supplied)
  }

  function WithTransport(h: History, fd: int, ctx: Option<Ctx>, freeFn: FreeFn): History {
    match Get(h.t, fd)
    case None => h
    case Some(i) =>
      h.(t := SetTransportCtx(h.t, fd, ctx, freeFn),
         supplied := if h.t.slots[i].transportCtx != ctx then h.supplied + multiset(FreeOne(ctx)) else h.supplied)
  }

  function Step(h: History, e: Event): History
    requires |h.last| == |h.t.slots| && Enabled(h, e)
  {
    match e
    case Open(fd, ok) => Opened(h, fd, ok)
    case Remove(i) => h.(t := Delete(h.t, i))
    case RemoveInvalid(valid) => h.(t := DeleteInvalidSessions(h.t, valid))
    case RemoveAll => h.(t := CloseAll(h.t))
    case Used(fd) => Touched(h, fd)
    case PurgeLru => h.(t := CloseLru(h.t).0)
    case SetUser(fd, ctx, freeFn) => WithUser(h, fd, ctx, freeFn)
    case SetTransport(fd, ctx, freeFn) => WithTransport(h, fd, ctx, freeFn)
    case Request(c) => h.(t := h.t.(current := c))
  }

  // ---------- Counting over slots ----------

  function CountActive(slots: seq<Slot>): nat {
    if slots == [] then 0 else (if slots[0].fd >= 0 then 1 else 0) + CountActive(slots[1..])
  }

  function Contexts(s: Slot): multiset<Ctx> {
    multiset(FreeOne(s.ctx) + FreeOne(s.transportCtx))
  }

  function Installed(slots: seq<Slot>): multiset<Ctx> {
    if slots == [] then multiset{} else Contexts(slots[0]) + Installed(slots[1..])
  }

  lemma {:induction false} CountUpdate(slots: seq<Slot>, i: nat, s: Slot)
    requires i < |slots|
    ensures CountActive(slots[i := s]) + (if slots[i].fd >= 0 then 1 else 0)
         == CountActive(slots) + (if s.fd >= 0 then 1 else 0)
  {
    if i > 0 {
      CountUpdate(slots[1..], i - 1, s);
      assert slots[i := s][1..] == slots[1..][i - 1 := s];
    } else {
      assert slots[i := s][1..] == slots[1..];
    }
  }

  lemma Shuffle(c: multiset<Ctx>, a: multiset<Ctx>, x: multiset<Ctx>, b: multiset<Ctx>, y: multiset<Ctx>)
    requires a + x == b + y
    ensures c + a + x == c + b + y
  {
    assert c + a + x == c + (a + x) == c + (b + y);
  }

  lemma Exchange(a: multiset<Ctx>, b: multiset<Ctx>, c: multiset<Ctx>)
    ensures a + b + c == c + b + a
  {
  }

  lemma {:induction false} InstalledUpdate(slots: seq<Slot>, i: nat, s: Slot)
    requires i < |slots|
    ensures Installed(slots[i := s]) + Contexts(slots[i]) == Installed(slots) + Contexts(s)
  {
    var x, y := Contexts(slots[i]), Contexts(s);
    if i > 0 {
      InstalledUpdate(slots[1..], i - 1, s);
      assert slots[i := s][1..] == slots[1..][i - 1 := s];
      Shuffle(Contexts(slots[0]), Installed(slots[1..][i - 1 := s]), x, Installed(slots[1..]), y);
    } else {
      assert slots[i := s][1..] == slots[1..];
      Exchange(y, Installed(slots[1..]), x);
    }
  }

  lemma {:induction false} CountBound(slots: seq<Slot>)
    ensures CountActive(slots) <= |slots|
    ensures CountActive(slots) == |slots| <==> forall i :: 0 <= i < |slots| ==> slots[i].fd >= 0
  {
    if slots != [] {
      CountBound(slots[1..]);
      assert forall i :: 1 <= i < |slots| ==> slots[i] == slots[1..][i - 1];
    }
  }

  lemma {:induction false} CountZero(slots: seq<Slot>)
    ensures CountActive(slots) == 0 <==> forall i :: 0 <= i < |slots| ==> slots[i].fd < 0
  {
    if slots != [] {
      CountZero(slots[1..]);
      assert forall i :: 1 <= i < |slots| ==> slots[i] == slots[1..][i - 1];
    }
  }

  // ---------- What the enumerations find ----------

  lemma {:induction false} ScanFree(t: Table, i: nat, c: Context)
    requires i <= |t.slots| && c.task == GetFree && c.session.None?
    ensures var r := Enum(t, i, c, Always);
            && r.0 == t
            && (r.1.session.None? ==> forall j :: i <= j < |t.slots| ==> t.slots[j].fd >= 0)
            && (r.1.session.Some? ==> t.slots[r.1.session.value].fd < 0
                                      && forall j :: i <= j < r.1.session.value ==> t.slots[j].fd >= 0)
    decreases |t.slots| - i
  {
    if i < |t.slots| && t.slots[i].fd >= 0 {
      ScanFree(t, i + 1, c);
    }
  }

  lemma {:induction false} ScanFd(t: Table, i: nat, c: Context)
    requires i <= |t.slots| && c.task == FindFd && c.session.None?
    ensures var r := Enum(t, i, c, Always);
            && r.0 == t
            && (r.1.session.None? ==> forall j :: i <= j < |t.slots| ==> t.slots[j].fd != c.fd)
            && (r.1.session.Some? ==> t.slots[r.1.session.value].fd == c.fd
                                      && forall j :: i <= j < r.1.session.value ==> t.slots[j].fd != c.fd)
    decreases |t.slots| - i
  {
    if i < |t.slots| && t.slots[i].fd != c.fd {
      ScanFd(t, i + 1, c);
    }
  }

  lemma FindMeans(t: Table, fd: int)
    ensures var r := Find(t, fd);
            && (r.None? ==> forall j :: 0 <= j < |t.slots| ==> t.slots[j].fd != fd)
            && (r.Some? ==> t.slots[r.value].fd == fd && forall j :: 0 <= j < r.value ==> t.slots[j].fd != fd)
  {
    ScanFd(t, 0, Blank(FindFd).(fd := fd));
  }

  // ---------- What every run keeps ----------

  /** Descriptors are -1 or unique, and a free slot holds no context. */
  ghost predicate Shape(t: Table) {
    && (forall i :: 0 <= i < |t.slots| ==> t.slots[i].fd >= -1)
    && (forall i, j :: 0 <= i < j < |t.slots| && t.slots[i].fd >= 0 ==> t.slots[i].fd != t.slots[j].fd)
    && (forall i :: 0 <= i < |t.slots| && t.slots[i].fd == -1 ==> t.slots[i].ctx.None? && t.slots[i].transportCtx.None?)
    && (t.current.Some? ==> t.current.value < |t.slots|)
  }

  /** The counter is short by the failed opens. */
  ghost predicate Counted(h: History) {
    h.t.activeCount + h.failures == CountActive(h.t.slots)
  }

  /** Every context handed in is in a slot or has been freed, as often as it was handed in. */
  ghost predicate Owned(h: History) {
    multiset(h.t.freed) + Installed(h.t.slots) == h.supplied
  }

  ghost predicate Inv(h: History) {
    |h.last| == |h.t.slots| && Shape(h.t) && Counted(h) && Owned(h)
  }

  lemma DeleteShape(t: Table, i: nat)
    requires Shape(t) && i < |t.slots|
    ensures Shape(Delete(t, i))
  {
  }

  lemma DeleteOwned(h: History, i: nat)
    requires Owned(h) && i < |h.t.slots|
    ensures Owned(h.(t := Delete(h.t, i)))
  {
    var s := h.t.slots[i];
    if s.fd >= 0 {
      InstalledUpdate(h.t.slots, i, Cleared(s));
      FreedBySlot(h.t.freed, s);
      var before, after := Installed(h.t.slots), Installed(h.t.slots[i := Cleared(s)]);
      assert multiset(h.t.freed) + Contexts(s) + after == multiset(h.t.freed) + (after + Contexts(s));
    }
  }

  lemma FreedBySlot(freed: seq<Ctx>, s: Slot)
    ensures multiset(freed + FreeOne(s.ctx) + FreeOne(s.transportCtx)) == multiset(freed) + Contexts(s)
    ensures Contexts(Cleared(s)) == multiset{}
  {
    assert freed + FreeOne(s.ctx) + FreeOne(s.transportCtx) == freed + (FreeOne(s.ctx) + FreeOne(s.transportCtx));
  }

  lemma DeleteInv(h: History, i: nat)
    requires Inv(h) && i < |h.t.slots|
    ensures Inv(h.(t := Delete(h.t, i)))
  {
    DeleteShape(h.t, i);
    DeleteOwned(h, i);
    CountUpdate(h.t.slots, i, Cleared(h.t.slots[i]));
  }

  lemma VisitDeleteInv(h: History, i: nat, c: Context, valid: int -> bool)
    requires Inv(h) && i < |h.t.slots| && (c.task == DeleteInvalid || c.task == Close)
    ensures Inv(h.(t := Visit(h.t, i, c, valid).0)) && Visit(h.t, i, c, valid).1 == c && Visit(h.t, i, c, valid).2
  {
    DeleteInv(h, i);
  }

  lemma {:induction false} EnumDeleteInv(h: History, i: nat, c: Context, valid: int -> bool)
    requires Inv(h) && i <= |h.t.slots| && (c.task == DeleteInvalid || c.task == Close)
    ensures Inv(h.(t := Enum(h.t, i, c, valid).0))
    decreases |h.t.slots| - i
  {
    if i < |h.t.slots| {
      VisitDeleteInv(h, i, c, valid);
      EnumDeleteInv(h.(t := Visit(h.t, i, c, valid).0), i + 1, c, valid);
    }
  }

  /** Availability, despite the drift of the counter. */
  lemma Availability(h: History)
    requires Counted(h)
    ensures IsAvailable(h.t) <==> exists i :: 0 <= i < |h.t.slots| && h.t.slots[i].fd < 0
    ensures IsAvailable(h.t) ==> h.t.slots[GetFreeSession(h.t).value].fd < 0
                                 && forall j :: 0 <= j < GetFreeSession(h.t).value ==> h.t.slots[j].fd >= 0
  {
    CountBound(h.t.slots);
    ScanFree(h.t, 0, Blank(GetFree));
  }

  /** The cached answer and the scan name the same slot, whatever request is being handled. */
  lemma CachedLookup(t: Table, fd: int)
    requires Shape(t) && fd >= 0
    ensures Get(t, fd) == Find(t, fd)
    ensures forall i :: 0 <= i < |t.slots| ==> (Get(t, fd) == Some(i) <==> t.slots[i].fd == fd)
  {
    FindMeans(t, fd);
  }

  function Occupied(t: Table, fd: int): Table
    requires IsAvailable(t)
  {
    t.(slots := t.slots[GetFreeSession(t).value := ZERO_SLOT.(fd := fd, handle := true)])
  }

  lemma OccupyShape(h: History, fd: int)
    requires Shape(h.t) && Counted(h) && fd >= 0 && Get(h.t, fd).None? && IsAvailable(h.t)
    ensures Shape(Occupied(h.t, fd))
  {
    CachedLookup(h.t, fd);
    Availability(h);
  }

  /** The cleared slot held no context, so none is lost. */
  lemma OccupyOwned(h: History, fd: int)
    requires Shape(h.t) && Counted(h) && Owned(h) && IsAvailable(h.t)
    ensures Owned(h.(t := Occupied(h.t, fd)))
    ensures CountActive(Occupied(h.t, fd).slots) == CountActive(h.t.slots) + if fd >= 0 then 1 else 0
  {
    Availability(h);
    var i := GetFreeSession(h.t).value;
    var s := ZERO_SLOT.(fd := fd, handle := true);
    CountUpdate(h.t.slots, i, s);
    InstalledUpdate(h.t.slots, i, s);
    assert h.t.slots[i].fd == -1;
    assert Contexts(s) == multiset{} && Contexts(h.t.slots[i]) == multiset{};
    Cancel(Installed(h.t.slots[i := s]), Installed(h.t.slots), multiset{});
  }

  lemma OpenFails(h: History, fd: int)
    requires Inv(h) && fd >= 0 && Get(h.t, fd).None? && IsAvailable(h.t)
    ensures var h' := h.(t := Delete(Occupied(h.t, fd), GetFreeSession(h.t).value), failures := h.failures + 1);
            Shape(h'.t) && Counted(h') && Owned(h')
  {
    OccupyShape(h, fd);
    OccupyOwned(h, fd);
    var h' := h.(t := Occupied(h.t, fd));
    var i := GetFreeSession(h.t).value;
    DeleteShape(h'.t, i);
    DeleteOwned(h', i);
    CountUpdate(h'.t.slots, i, Cleared(h'.t.slots[i]));
  }

  lemma OpenInv(h: History, fd: int, ok: bool)
    requires Inv(h) && fd >= 0
    ensures Inv(Opened(h, fd, ok))
  {
    if Get(h.t, fd).None? && IsAvailable(h.t) {
      OpenedMeans(h, fd, ok);
      if ok {
        OpenSucceeds(h, fd);
        return;
      } else {
        OpenFails(h, fd);
        return;
      }
    }
  }

  lemma OpenSucceeds(h: History, fd: int)
    requires Inv(h) && fd >= 0 && Get(h.t, fd).None? && IsAvailable(h.t)
    ensures var t := Occupied(h.t, fd);
            var h' := h.(t := t.(activeCount := t.activeCount + 1));
            Shape(h'.t) && Counted(h') && Owned(h')
  {
    OccupyShape(h, fd);
    OccupyOwned(h, fd);
  }

  lemma OpenedMeans(h: History, fd: int, ok: bool)
    requires |h.last| == |h.t.slots| && Get(h.t, fd).None? && IsAvailable(h.t)
    ensures var (t, i, h') := (Occupied(h.t, fd), GetFreeSession(h.t).value, Opened(h, fd, ok));
            && h' == h.(t := h'.t, failures := h'.failures, last := h'.last) && |h'.last| == |h'.t.slots|
            && (ok ==> h'.t == t.(activeCount := t.activeCount + 1) && h'.failures == h.failures)
            && (!ok ==> h'.t == Delete(t, i) && h'.failures == h.failures + 1)
  {
  }

  lemma SameSlots(t: Table, t': Table)
    requires Shape(t) && |t'.slots| == |t.slots| && t'.current == t.current
    requires forall i :: 0 <= i < |t.slots| ==> t'.slots[i].fd == t.slots[i].fd
    requires forall i :: 0 <= i < |t.slots| && t.slots[i].fd == -1 ==>
                           t'.slots[i].ctx == t.slots[i].ctx && t'.slots[i].transportCtx == t.slots[i].transportCtx
    ensures Shape(t')
  {
  }

  /** Changing nothing but the stamps and marks of one slot. */
  lemma StampShape(t: Table, i: nat, s: Slot)
    requires Shape(t) && i < |t.slots|
    requires s.fd == t.slots[i].fd && s.ctx == t.slots[i].ctx && s.transportCtx == t.slots[i].transportCtx
    ensures Shape(t.(slots := t.slots[i := s]))
  {
    SameSlots(t, t.(slots := t.slots[i := s]));
  }

  lemma StampInstalled(slots: seq<Slot>, i: nat, s: Slot)
    requires i < |slots|
    requires s.fd == slots[i].fd && s.ctx == slots[i].ctx && s.transportCtx == slots[i].transportCtx
    ensures Installed(slots[i := s]) == Installed(slots) && CountActive(slots[i := s]) == CountActive(slots)
  {
    CountUpdate(slots, i, s);
    InstalledUpdate(slots, i, s);
    Cancel(Installed(slots[i := s]), Installed(slots), Contexts(s));
  }

  lemma Cancel(a: multiset<Ctx>, b: multiset<Ctx>, c: multiset<Ctx>)
    requires a + c == b + c
    ensures a == b
  {
    forall x: Ctx ensures a[x] == b[x] {
      assert (a + c)[x] == (b + c)[x];
    }
  }

  /** One context of a slot gives way to another: the old one is freed, the new one is supplied. */
  lemma Replace(freed: multiset<Ctx>, installed: multiset<Ctx>, installed': multiset<Ctx>, supplied: multiset<Ctx>,
                old_: multiset<Ctx>, new_: multiset<Ctx>, other: multiset<Ctx>)
    requires freed + installed == supplied
    requires installed' + (old_ + other) == installed + (new_ + other)
    ensures freed + old_ + installed' == supplied + new_
  {
    forall x: Ctx ensures (freed + old_ + installed')[x] == (supplied + new_)[x] {
      assert (freed + installed)[x] == supplied[x];
      assert (installed' + (old_ + other))[x] == (installed + (new_ + other))[x];
    }
  }

  lemma SetContextOwned(h: History, i: nat, s: Slot, transport: bool)
    requires Owned(h) && i < |h.t.slots|
    requires if transport then s.ctx == h.t.slots[i].ctx else s.transportCtx == h.t.slots[i].transportCtx
    ensures var o := h.t.slots[i];
            var (was, now) := if transport then (o.transportCtx, s.transportCtx) else (o.ctx, s.ctx);
            multiset(h.t.freed + FreeOne(was)) + Installed(h.t.slots[i := s]) == h.supplied + multiset(FreeOne(now))
  {
    var o := h.t.slots[i];
    var (was, now, other) := if transport then (o.transportCtx, s.transportCtx, s.ctx)
                             else (o.ctx, s.ctx, s.transportCtx);
    InstalledUpdate(h.t.slots, i, s);
    var w, n, x := multiset(FreeOne(was)), multiset(FreeOne(now)), multiset(FreeOne(other));
    assert Contexts(o) == w + x && Contexts(s) == n + x;
    Replace(multiset(h.t.freed), Installed(h.t.slots), Installed(h.t.slots[i := s]), h.supplied, w, n, x);
  }

  lemma ContextShape(t: Table, i: nat, s: Slot)
    requires Shape(t) && i < |t.slots| && s.fd == t.slots[i].fd >= 0
    ensures Shape(t.(slots := t.slots[i := s]))
  {
    SameSlots(t, t.(slots := t.slots[i := s]));
  }

  lemma UserOwned(h: History, fd: int, ctx: Option<Ctx>, freeFn: FreeFn)
    requires Owned(h) && Get(h.t, fd).Some?
    ensures Owned(WithUser(h, fd, ctx, freeFn))
  {
    var i := Get(h.t, fd).value;
    var s := h.t.slots[i].(ctx := ctx, freeCtx := freeFn);
    if h.t.slots[i].ctx == ctx {
      StampInstalled(h.t.slots, i, s);
    } else {
      SetContextOwned(h, i, s, false);
    }
  }

  lemma UserInv(h: History, fd: int, ctx: Option<Ctx>, freeFn: FreeFn)
    requires Inv(h) && fd >= 0
    ensures Inv(WithUser(h, fd, ctx, freeFn))
  {
    CachedLookup(h.t, fd);
    if Get(h.t, fd).Some? {
      var i := Get(h.t, fd).value;
      var s := h.t.slots[i].(ctx := ctx, freeCtx := freeFn);
      UserOwned(h, fd, ctx, freeFn);
      CountUpdate(h.t.slots, i, s);
      ContextShape(h.t, i, s);
    }
  }

  lemma TransportOwned(h: History, fd: int, ctx: Option<Ctx>, freeFn: FreeFn)
    requires Owned(h) && Get(h.t, fd).Some?
    ensures Owned(WithTransport(h, fd, ctx, freeFn))
  {
    var i := Get(h.t, fd).value;
    var s := h.t.slots[i].(transportCtx := ctx, freeTransportCtx := freeFn);
    if h.t.slots[i].transportCtx == ctx {
      StampInstalled(h.t.slots, i, s);
    } else {
      SetContextOwned(h, i, s, true);
    }
  }

  lemma TransportInv(h: History, fd: int, ctx: Option<Ctx>, freeFn: FreeFn)
    requires Inv(h) && fd >= 0
    ensures Inv(WithTransport(h, fd, ctx, freeFn))
  {
    CachedLookup(h.t, fd);
    if Get(h.t, fd).Some? {
      var i := Get(h.t, fd).value;
      var s := h.t.slots[i].(transportCtx := ctx, freeTransportCtx := freeFn);
      TransportOwned(h, fd, ctx, freeFn);
      CountUpdate(h.t.slots, i, s);
      ContextShape(h.t, i, s);
    }
  }

  lemma TouchInv(h: History, fd: int)
    requires Inv(h)
    ensures Inv(Touched(h, fd))
  {
    if Find(h.t, fd).Some? {
      var i := Find(h.t, fd).value;
      var s := Touch(h.t, i).slots[i];
      StampShape(h.t, i, s);
      StampInstalled(h.t.slots, i, s);
    }
  }

  lemma PurgeInv(h: History)
    requires Inv(h)
    ensures Inv(h.(t := CloseLru(h.t).0))
  {
    if LowestLru(h.t).Some? {
      var i := LowestLru(h.t).value;
      var s := h.t.slots[i].(lruSocket := true);
      StampShape(h.t, i, s);
      StampInstalled(h.t.slots, i, s);
    }
  }

  lemma StepInv(h: History, e: Event)
    requires Inv(h) && Enabled(h, e)
    ensures Inv(Step(h, e))
  {
    match e
    case Open(fd, ok) => OpenInv(h, fd, ok);
    case Remove(i) => DeleteInv(h, i);
    case RemoveInvalid(valid) => EnumDeleteInv(h, 0, Blank(DeleteInvalid), valid);
    case RemoveAll => EnumDeleteInv(h, 0, Blank(Close), Always);
    case Used(fd) => TouchInv(h, fd);
    case PurgeLru => PurgeInv(h);
    case SetUser(fd, ctx, freeFn) => UserInv(h, fd, ctx, freeFn);
    case SetTransport(fd, ctx, freeFn) => TransportInv(h, fd, ctx, freeFn);
    case Request(c) =>
  }

  // ---------- Runs ----------

  ghost predicate CanRun(h: History, es: seq<Event>)
    decreases |es|
  {
    |h.last| == |h.t.slots| && (es == [] || (Enabled(h, es[0]) && CanRun(Step(h, es[0]), es[1..])))
  }

  function Run(h: History, es: seq<Event>): History
    requires CanRun(h, es)
    decreases |es|
  {
    if es == [] then h else Run(Step(h, es[0]), es[1..])
  }

  /** A server with `n` slots after `httpd_sess_init`. */
  function Start(n: nat): History {
    History(Initial(n), 0, multiset{}, seq(|Initial(n).slots|, _ => 0), 0)
  }

  lemma {:induction false} ScanInit(t: Table, i: nat, c: Context)
    requires i <= |t.slots| && c.task == Init
    ensures var r := Enum(t, i, c, Always).0;
            && r == t.(slots := r.slots)
            && (forall j :: 0 <= j < i ==> r.slots[j] == t.slots[j])
            && (forall j :: i <= j < |t.slots| ==> r.slots[j] == t.slots[j].(fd := -1, ctx := None))
    decreases |t.slots| - i
  {
    if i < |t.slots| {
      ScanInit(Visit(t, i, c, Always).0, i + 1, c);
    }
  }

  lemma {:induction false} NothingInstalled(slots: seq<Slot>)
    requires forall i :: 0 <= i < |slots| ==> slots[i].ctx.None? && slots[i].transportCtx.None?
    ensures Installed(slots) == multiset{}
  {
    if slots != [] {
      NothingInstalled(slots[1..]);
      assert Contexts(slots[0]) == multiset{};
    }
  }

  const FREE_SLOT := ZERO_SLOT.(fd := -1)

  lemma StartMeans(n: nat)
    ensures Start(n).t == Table(seq(n, _ => FREE_SLOT), 0, 0, None, []) && Start(n).last == seq(n, _ => 0)
  {
    var zeroed := Table(seq(n, _ => ZERO_SLOT), 0, 0, None, []);
    ScanInit(zeroed, 0, Blank(Init));
    assert Start(n).t.slots == seq(n, _ => FREE_SLOT);
  }

  lemma StartInv(n: nat)
    ensures Inv(Start(n)) && |Start(n).t.slots| == n
  {
    StartMeans(n);
    CountZero(Start(n).t.slots);
    NothingInstalled(Start(n).t.slots);
  }

  lemma {:induction false} RunInv(h: History, es: seq<Event>)
    requires Inv(h) && CanRun(h, es)
    ensures Inv(Run(h, es)) && |Run(h, es).t.slots| == |h.t.slots|
    decreases |es|
  {
    if es != [] {
      StepInv(h, es[0]);
      RunInv(Step(h, es[0]), es[1..]);
    }
  }

  /** Slot accounting over every run: the counter is the number of active slots less the failed opens,
      and yet the availability test is right. */
  lemma SlotAccounting(n: nat, es: seq<Event>)
    requires CanRun(Start(n), es)
    ensures var h := Run(Start(n), es);
            && h.t.activeCount + h.failures == CountActive(h.t.slots)
            && |h.t.slots| == n
            && (IsAvailable(h.t) <==> exists i :: 0 <= i < n && h.t.slots[i].fd < 0)
            && (forall i, j :: 0 <= i < j < n && h.t.slots[i].fd >= 0 ==> h.t.slots[i].fd != h.t.slots[j].fd)
  {
    StartInv(n);
    RunInv(Start(n), es);
    Availability(Run(Start(n), es));
  }

  /** In how many of its two places a slot holds a context, and in how many places of the table it is. */
  function Places(s: Slot, c: Ctx): nat {
    (if s.ctx == Some(c) then 1 else 0) + (if s.transportCtx == Some(c) then 1 else 0)
  }

  function AllPlaces(slots: seq<Slot>, c: Ctx): nat {
    if slots == [] then 0 else Places(slots[0], c) + AllPlaces(slots[1..], c)
  }

  lemma ContextsPlaces(s: Slot, c: Ctx)
    ensures Contexts(s)[c] == Places(s, c)
  {
    assert Contexts(s) == multiset(FreeOne(s.ctx)) + multiset(FreeOne(s.transportCtx));
  }

  lemma {:induction false} InstalledPlaces(slots: seq<Slot>, c: Ctx)
    ensures Installed(slots)[c] == AllPlaces(slots, c)
  {
    if slots != [] {
      ContextsPlaces(slots[0], c);
      InstalledPlaces(slots[1..], c);
    }
  }

  lemma {:induction false} PlaceZero(slots: seq<Slot>, c: Ctx)
    ensures AllPlaces(slots, c) == 0 <==> forall i :: 0 <= i < |slots| ==> Places(slots[i], c) == 0
  {
    if slots != [] {
      PlaceZero(slots[1..], c);
      assert forall i :: 1 <= i < |slots| ==> slots[i] == slots[1..][i - 1];
    }
  }

  lemma {:induction false} PlaceOne(slots: seq<Slot>, c: Ctx) returns (i: nat)
    requires AllPlaces(slots, c) == 1
    ensures i < |slots| && Places(slots[i], c) == 1
    ensures forall j :: 0 <= j < |slots| && j != i ==> Places(slots[j], c) == 0
  {
    if Places(slots[0], c) == 1 {
      i := 0;
      PlaceZero(slots[1..], c);
      assert forall j :: 1 <= j < |slots| ==> slots[j] == slots[1..][j - 1];
    } else {
      var k := PlaceOne(slots[1..], c);
      i := k + 1;
      assert forall j :: 1 <= j < |slots| ==> slots[j] == slots[1..][j - 1];
    }
  }

  /** In one place of one active slot and not freed, or freed once and in no slot. */
  ghost predicate InOnePlace(t: Table, c: Ctx) {
    if c in t.freed then
      multiset(t.freed)[c] == 1 && forall i :: 0 <= i < |t.slots| ==> Places(t.slots[i], c) == 0
    else
      exists i :: 0 <= i < |t.slots| && Places(t.slots[i], c) == 1 && t.slots[i].fd >= 0
                  && forall j :: 0 <= j < |t.slots| && j != i ==> Places(t.slots[j], c) == 0
  }

  lemma OwnedOnce(t: Table, c: Ctx)
    requires Shape(t) && multiset(t.freed)[c] + Installed(t.slots)[c] == 1
    ensures InOnePlace(t, c)
  {
    InstalledPlaces(t.slots, c);
    PlaceZero(t.slots, c);
    if c in t.freed {
      assert multiset(t.freed)[c] >= 1;
    } else {
      assert multiset(t.freed)[c] == 0;
      var i := PlaceOne(t.slots, c);
      assert Places(t.slots[i], c) == 1;
    }
  }

  /** Ownership of contexts over every run: a context handed in once is in exactly one place of exactly one
      active slot, or it has been freed, exactly once. */
  lemma ContextOwnership(n: nat, es: seq<Event>, c: Ctx)
    requires CanRun(Start(n), es) && Run(Start(n), es).supplied[c] == 1
    ensures InOnePlace(Run(Start(n), es).t, c)
  {
    StartInv(n);
    RunInv(Start(n), es);
    var h := Run(Start(n), es);
    assert (multiset(h.t.freed) + Installed(h.t.slots))[c] == 1;
    OwnedOnce(h.t, c);
  }

  /** A context set through descriptor -1 lands in a free slot, if there is one: exactly then is the rule broken
      that free slots hold no context. */
  lemma ContextOnNoDescriptor(t: Table, c: Ctx, freeFn: FreeFn)
    requires Shape(t) && t.current.None?
    ensures Shape(SetCtx(t, -1, Some(c), freeFn)) <==> forall i :: 0 <= i < |t.slots| ==> t.slots[i].fd != -1
  {
    FindMeans(t, -1);
    var r := Get(t, -1);
    if r.Some? {
      var t' := SetCtx(t, -1, Some(c), freeFn);
      assert t'.slots[r.value].fd == -1 && t'.slots[r.value].ctx.Some?;
    }
  }

  /** It happens in a table with no session at all. */
  lemma ContextInFreeSlot(n: nat, c: Ctx, freeFn: FreeFn)
    requires n > 0
    ensures !Shape(SetCtx(Start(n).t, -1, Some(c), freeFn))
  {
    StartMeans(n);
    StartInv(n);
    ContextOnNoDescriptor(Start(n).t, c, freeFn);
    assert Start(n).t.slots[0].fd == -1;
  }

  /** Deleting a session again does nothing. */
  lemma DeleteTwice(t: Table, i: nat)
    requires i < |t.slots|
    ensures Delete(Delete(t, i), i) == Delete(t, i)
  {
  }

  // ---------- The list of clients ----------

  /** The descriptors in use, in slot order. */
  function ActiveFds(slots: seq<Slot>): seq<int> {
    if slots == [] then []
    else if slots[|slots| - 1].fd != -1 then ActiveFds(slots[..|slots| - 1]) + [slots[|slots| - 1].fd]
    else ActiveFds(slots[..|slots| - 1])
  }

  lemma {:induction false} ActiveFdsMember(slots: seq<Slot>, fd: int)
    ensures fd in ActiveFds(slots) <==> fd != -1 && exists i :: 0 <= i < |slots| && slots[i].fd == fd
    decreases |slots|
  {
    if slots != [] {
      var init := slots[..|slots| - 1];
      ActiveFdsMember(init, fd);
      assert forall i :: 0 <= i < |init| ==> init[i] == slots[i];
    }
  }

  /** The list has each descriptor in use once. */
  lemma {:induction false} ActiveFdsOnce(slots: seq<Slot>)
    requires forall i, j :: 0 <= i < j < |slots| && slots[i].fd >= 0 ==> slots[i].fd != slots[j].fd
    requires forall i :: 0 <= i < |slots| ==> slots[i].fd >= -1
    ensures forall i, j :: 0 <= i < j < |ActiveFds(slots)| ==> ActiveFds(slots)[i] != ActiveFds(slots)[j]
    ensures |ActiveFds(slots)| == CountActive(slots)
    decreases |slots|
  {
    if slots != [] {
      var init, s := slots[..|slots| - 1], slots[|slots| - 1];
      ActiveFdsOnce(init);
      ActiveFdsMember(init, s.fd);
      CountSnoc(init, s);
      assert init + [s] == slots;
    }
  }

  lemma {:induction false} CountSnoc(slots: seq<Slot>, s: Slot)
    ensures CountActive(slots + [s]) == CountActive(slots) + if s.fd >= 0 then 1 else 0
  {
    if slots == [] {
      assert (slots + [s])[1..] == [];
    } else {
      CountSnoc(slots[1..], s);
      assert (slots + [s])[1..] == slots[1..] + [s];
    }
  }
}
