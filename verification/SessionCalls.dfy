/** What single calls on the socket table do, told slot by slot. */
module SessionCalls {
  import opened Bytes
  import opened Sessions
  import opened SessionRuns

  /** The slot that has this descriptor. */
  predicate At(t: Table, fd: int, i: nat) {
    i < |t.slots| && t.slots[i].fd == fd
  }

  predicate Known(t: Table, fd: int) {
    exists i :: 0 <= i < |t.slots| && t.slots[i].fd == fd
  }

  lemma GetAt(t: Table, fd: int, i: nat)
    requires Shape(t) && fd >= 0
    ensures At(t, fd, i) ==> Get(t, fd) == Some(i)
    ensures !Known(t, fd) ==> Get(t, fd) == None
  {
    CachedLookup(t, fd);
  }

  // ---------- Contexts ----------

  /** Setting a context installs it with its free function in the session of that descriptor and changes no other
      slot. A different context that was there is freed, and nothing else is. */
  lemma UserContextSet(t: Table, fd: int, ctx: Option<Ctx>, freeFn: FreeFn, i: nat)
    requires Shape(t) && fd >= 0 && At(t, fd, i)
    ensures var (t', s) := (SetCtx(t, fd, ctx, freeFn), t.slots[i]);
            && t'.slots == t.slots[i := s.(ctx := ctx, freeCtx := freeFn)]
            && t'.freed == (if s.ctx.Some? && s.ctx != ctx then t.freed + [s.ctx.value] else t.freed)
            && t'.activeCount == t.activeCount && t'.lruCounter == t.lruCounter && t'.current == t.current
  {
    GetAt(t, fd, i);
    assert t.freed + [] == t.freed;
  }

  /** The same for the transport context. */
  lemma TransportContextSet(t: Table, fd: int, ctx: Option<Ctx>, freeFn: FreeFn, i: nat)
    requires Shape(t) && fd >= 0 && At(t, fd, i)
    ensures var (t', s) := (SetTransportCtx(t, fd, ctx, freeFn), t.slots[i]);
            && t'.slots == t.slots[i := s.(transportCtx := ctx, freeTransportCtx := freeFn)]
            && t'.freed == (if s.transportCtx.Some? && s.transportCtx != ctx then t.freed + [s.transportCtx.value]
                            else t.freed)
            && t'.activeCount == t.activeCount && t'.lruCounter == t.lruCounter && t'.current == t.current
  {
    GetAt(t, fd, i);
    assert t.freed + [] == t.freed;
  }

  /** For a descriptor no session has, neither call does anything. */
  lemma NoContextSet(t: Table, fd: int, ctx: Option<Ctx>, freeFn: FreeFn)
    requires Shape(t) && fd >= 0 && !Known(t, fd)
    ensures SetCtx(t, fd, ctx, freeFn) == t && SetTransportCtx(t, fd, ctx, freeFn) == t
  {
    GetAt(t, fd, 0);
  }

  // ---------- New sessions ----------

  /** The first free slot. */
  predicate FirstFree(t: Table, i: nat) {
    i < |t.slots| && t.slots[i].fd < 0 && forall j :: 0 <= j < i ==> t.slots[j].fd >= 0
  }

  predicate Full(t: Table) {
    forall i :: 0 <= i < |t.slots| ==> t.slots[i].fd >= 0
  }

  lemma FreeAt(h: History, i: nat)
    requires Counted(h)
    ensures FirstFree(h.t, i) ==> GetFreeSession(h.t) == Some(i)
    ensures GetFreeSession(h.t).None? <==> Full(h.t)
  {
    Availability(h);
  }

  /** A new descriptor takes the first free slot: everything in it is cleared but the descriptor and the server's
      handle, and no other slot changes. */
  lemma NewSession(h: History, fd: int, i: nat)
    requires Shape(h.t) && Counted(h) && fd >= 0 && !Known(h.t, fd) && FirstFree(h.t, i)
    ensures New(h.t, fd, true) ==
            (h.t.(slots := h.t.slots[i := Slot(fd, None, None, None, None, 0, false, true)],
                  activeCount := h.t.activeCount + 1), EspOk, Some(i))
  {
    GetAt(h.t, fd, i);
    FreeAt(h, i);
  }

  /** If `open_fn` fails the slot is free again, nothing is freed, and the counter has gone down all the same. */
  lemma NewSessionFails(h: History, fd: int, i: nat)
    requires Shape(h.t) && Counted(h) && fd >= 0 && !Known(h.t, fd) && FirstFree(h.t, i)
    ensures var (t', e, s) := New(h.t, fd, false);
            && e == EspFail && s == None && t'.freed == h.t.freed && t'.activeCount == h.t.activeCount - 1
            && t'.slots == h.t.slots[i := Slot(-1, None, None, None, None, 0, false, true)]
  {
    GetAt(h.t, fd, i);
    FreeAt(h, i);
    assert h.t.freed + [] + [] == h.t.freed;
    var occupied := Slot(fd, None, None, None, None, 0, false, true);
    assert h.t.slots[i := occupied][i := Cleared(occupied)] == h.t.slots[i := Cleared(occupied)];
  }

  /** A descriptor that has a session, and a table without a free slot, change nothing. */
  lemma NoNewSession(h: History, fd: int, openOk: bool)
    requires Shape(h.t) && Counted(h) && fd >= 0 && (Known(h.t, fd) || Full(h.t))
    ensures New(h.t, fd, openOk) == (h.t, EspFail, None)
  {
    CachedLookup(h.t, fd);
    FreeAt(h, 0);
  }

  // ---------- Accepting ----------

  /** With purging on and no free slot nobody is accepted: the least recent session is marked, and that counts as
      success. */
  lemma AcceptPurges(h: History, accepted: int, openOk: bool)
    requires Counted(h) && Full(h.t)
    ensures var (t', e, s) := AcceptConn(h.t, true, accepted, openOk);
            && e == EspOk && s == None && |t'.slots| == |h.t.slots| && t' == h.t.(slots := t'.slots)
            && forall j :: 0 <= j < |h.t.slots| ==>
                 t'.slots[j] == if LowestLru(h.t) == Some(j) then h.t.slots[j].(lruSocket := true) else h.t.slots[j]
  {
    FreeAt(h, 0);
    var l := LowestLru(h.t);
    if l.Some? {
      assert AcceptConn(h.t, true, accepted, openOk).0.slots
          == h.t.slots[l.value := h.t.slots[l.value].(lruSocket := true)];
    }
  }

  /** In every other case `accept` is called: its failure changes nothing, and its descriptor gets a new session. */
  lemma AcceptOpens(h: History, lruPurge: bool, accepted: int, openOk: bool)
    requires Counted(h) && !(lruPurge && Full(h.t))
    ensures accepted < 0 ==> AcceptConn(h.t, lruPurge, accepted, openOk) == (h.t, EspFail, None)
    ensures accepted >= 0 ==> AcceptConn(h.t, lruPurge, accepted, openOk) == New(h.t, accepted, openOk)
  {
    FreeAt(h, 0);
  }

  /** The listening socket is watched unless the table is full and purging off; if it is not watched, or `select` does
      not report it, nothing happens. Otherwise a session comes back exactly if the accept made one. */
  lemma Watched(h: History, lruPurge: bool, pending: bool, accepted: int, openOk: bool)
    requires Counted(h)
    ensures !pending || (Full(h.t) && !lruPurge) ==>
              CheckAvail(h.t, lruPurge, pending, accepted, openOk) == (h.t, None)
    ensures pending && !(Full(h.t) && !lruPurge) ==>
              var (t', e, s) := AcceptConn(h.t, lruPurge, accepted, openOk);
              CheckAvail(h.t, lruPurge, pending, accepted, openOk) == (t', if e == EspOk then s else None)
  {
    FreeAt(h, 0);
  }

  // ---------- Stamps ----------

  /** A use stamps the session with the next value of the counter, modulo 2^64; an unknown descriptor is an error. */
  lemma UseStamps(t: Table, fd: int, i: nat)
    requires Shape(t) && fd >= 0
    ensures At(t, fd, i) ==>
              var stamp := (t.lruCounter + 1) % 0x1_0000_0000_0000_0000;
              var slots := t.slots[i := t.slots[i].(lruCounter := stamp)];
              UpdateLru(t, fd) == (t.(slots := slots, lruCounter := stamp), EspOk)
    ensures !Known(t, fd) ==> UpdateLru(t, fd) == (t, EspErrNotFound)
  {
    CachedLookup(t, fd);
  }

  /** `i` is the first slot with the lowest stamp among the first `n`. */
  predicate LowestOf(slots: seq<Slot>, n: nat, i: nat)
    requires n <= |slots|
  {
    i < n && forall j :: 0 <= j < n ==> slots[i].lruCounter <= slots[j].lruCounter
                                        && (j < i ==> slots[i].lruCounter < slots[j].lruCounter)
  }

  /** The scan so far. */
  ghost predicate ScanSoFar(slots: seq<Slot>, n: nat, c: Context)
    requires n <= |slots|
  {
    && c.task == FindLowestLru && c.lruCounter <= UINT64_MAX
    && (c.session.None? ==> c.lruCounter == UINT64_MAX && forall j :: 0 <= j < n ==> slots[j].lruCounter == UINT64_MAX)
    && (c.session.Some? ==> LowestOf(slots, n, c.session.value) && c.lruCounter == slots[c.session.value].lruCounter)
  }

  lemma {:induction false} ScanPrefix(t: Table, n: nat, c: Context, stop: nat)
    requires n <= stop <= |t.slots| && (forall j :: 0 <= j < stop ==> t.slots[j].fd != -1)
    requires stop < |t.slots| ==> t.slots[stop].fd == -1
    requires ScanSoFar(t.slots, n, c)
    ensures ScanSoFar(t.slots, stop, Enum(t, n, c, Always).1)
    decreases stop - n
  {
    if n < stop {
      var c' := Visit(t, n, c, Always).1;
      assert ScanSoFar(t.slots, n + 1, c');
      ScanPrefix(t, n + 1, c', stop);
    }
  }

  /** The choice of the purge in any table: the search ends at the first free slot, and the first of the lowest stamps
      before it wins. None is found only if there is no session there or every stamp is at its maximum. */
  lemma LowestBeforeFree(t: Table, stop: nat)
    requires stop <= |t.slots| && (forall j :: 0 <= j < stop ==> t.slots[j].fd != -1)
    requires stop < |t.slots| ==> t.slots[stop].fd == -1
    ensures LowestLru(t).Some? ==> LowestOf(t.slots, stop, LowestLru(t).value)
    ensures LowestLru(t).None? <==> forall j :: 0 <= j < stop ==> t.slots[j].lruCounter == UINT64_MAX
  {
    var c := Blank(FindLowestLru).(fd := -1, lruCounter := UINT64_MAX);
    ScanPrefix(t, 0, c, stop);
    StrictlyBelow(t, 0, c);
  }

  /** A session is only ever recorded with a stamp below the maximum. */
  lemma {:induction false} StrictlyBelow(t: Table, n: nat, c: Context)
    requires n <= |t.slots| && c.task == FindLowestLru && (c.session.Some? ==> c.lruCounter < UINT64_MAX)
    ensures var c' := Enum(t, n, c, Always).1; c'.session.Some? ==> c'.lruCounter < UINT64_MAX
    decreases |t.slots| - n
  {
    if n < |t.slots| && t.slots[n].fd != -1 {
      StrictlyBelow(t, n + 1, Visit(t, n, c, Always).1);
    }
  }

  // ---------- The other enumerations ----------

  /** Collecting the descriptors to watch: exactly those in use, and the highest of them. */
  lemma {:induction false} DescriptorsCollected(t: Table, i: nat, c: Context, fd: int)
    requires i <= |t.slots| && c.task == SetDescriptor
    ensures var (t', c') := Enum(t, i, c, Always);
            && t' == t
            && (fd in c'.fdset <==>
                fd in c.fdset || (fd != -1 && exists j :: i <= j < |t.slots| && t.slots[j].fd == fd))
            && c'.maxFd >= c.maxFd
            && (forall j :: i <= j < |t.slots| && t.slots[j].fd != -1 ==> t.slots[j].fd <= c'.maxFd)
            && (c'.maxFd == c.maxFd || exists j :: i <= j < |t.slots| && t.slots[j].fd == c'.maxFd)
    decreases |t.slots| - i
  {
    if i < |t.slots| {
      DescriptorsCollected(t, i + 1, Visit(t, i, c, Always).1, fd);
    }
  }

  /** The first session in use. */
  lemma {:induction false} FirstActive(t: Table, i: nat, c: Context)
    requires i <= |t.slots| && c.task == GetActive && c.session.None?
    ensures var (t', c') := Enum(t, i, c, Always);
            && t' == t
            && (c'.session.None? <==> forall j :: i <= j < |t.slots| ==> t.slots[j].fd == -1)
            && (c'.session.Some? ==> t.slots[c'.session.value].fd != -1
                                     && forall j :: i <= j < c'.session.value ==> t.slots[j].fd == -1)
    decreases |t.slots| - i
  {
    if i < |t.slots| && t.slots[i].fd == -1 {
      FirstActive(t, i + 1, c);
    }
  }

  // ---------- Deleting ----------

  /** A deleted session's slot keeps nothing but its mark, its stamp and the handle; both contexts are freed, the user's
      first; the counter goes down, and at zero the counter of uses starts again. No other slot changes. */
  lemma SessionDeleted(t: Table, i: nat)
    requires Shape(t) && i < |t.slots|
    ensures t.slots[i].fd < 0 ==> Delete(t, i) == t
    ensures t.slots[i].fd >= 0 ==>
              var (t', s) := (Delete(t, i), t.slots[i]);
              && t'.slots[i] == Slot(-1, None, if s.ctx.Some? then None else s.freeCtx,
                                     None, if s.transportCtx.Some? then None else s.freeTransportCtx,
                                     s.lruCounter, s.lruSocket, s.handle)
              && (forall j :: 0 <= j < |t.slots| && j != i ==> t'.slots[j] == t.slots[j])
              && t'.freed == t.freed + (if s.ctx.Some? then [s.ctx.value] else [])
                             + (if s.transportCtx.Some? then [s.transportCtx.value] else [])
              && t'.activeCount == t.activeCount - 1 && t'.current == t.current
              && t'.lruCounter == (if t.activeCount == 1 then 0 else t.lruCounter)
  {
  }
}
