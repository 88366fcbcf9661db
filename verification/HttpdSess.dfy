/** The server object: its socket table is an array of slots, updated in place. */
module HttpdSess {
  import opened Bytes
  import opened Sessions
  import SessionRuns

  class HttpdData {
    const sd: array<Slot>
    var activeCount: int
    var lruCounter: uint64
    var current: Option<nat>
    ghost var freed: seq<Ctx>

    ghost function View(): Table
      reads this, sd
    {
      Table(sd[..], activeCount, lruCounter, current, freed)
    }

    constructor (maxOpenSockets: nat)
      ensures View() == Initial(maxOpenSockets) && sd.Length == maxOpenSockets && fresh(sd)
    {
      sd := new Slot[maxOpenSockets](_ => ZERO_SLOT);
      activeCount, lruCounter, current, freed := 0, 0, None, [];
      new;
      assert View() == Table(seq(maxOpenSockets, _ => ZERO_SLOT), 0, 0, None, []);
      var _ := SessEnum(Blank(Init), Always);
    }

    /** Frees both contexts of a slot, each once. */
    method ClearCtx(i: nat)
      requires i < sd.Length
      modifies this`freed, sd
      ensures var s := old(sd[i]);
              && sd[..] == old(sd[..])[i := Cleared(s).(fd := s.fd)]
              && freed == old(freed) + FreeOne(s.ctx) + FreeOne(s.transportCtx)
    {
      if sd[i].ctx.None? && sd[i].transportCtx.None? {
        return;
      }
      if sd[i].ctx.Some? {
        freed := freed + [sd[i].ctx.value];
        sd[i] := sd[i].(ctx := None, freeCtx := None);
      }
      if sd[i].transportCtx.Some? {
        freed := freed + [sd[i].transportCtx.value];
        sd[i] := sd[i].(transportCtx := None, freeTransportCtx := None);
      }
    }

    method SessDelete(i: nat)
      requires i < sd.Length
      modifies this, sd
      ensures View() == Delete(old(View()), i)
    {
      if sd[i].fd < 0 {
        return;
      }
      ClearCtx(i);
      sd[i] := sd[i].(fd := -1);
      activeCount := activeCount - 1;
      if activeCount == 0 {
        lruCounter := 0;
      }
    }

    method EnumFunction(i: nat, c: Context, valid: int -> bool) returns (c': Context, more: bool)
      requires i < sd.Length
      modifies this, sd
      ensures (View(), c', more) == Visit(old(View()), i, c, valid)
    {
      c' := c;
      var found := false;
      match c.task {
        case Init =>
          sd[i] := sd[i].(fd := -1, ctx := None);
        case GetActive =>
          found := sd[i].fd != -1;
        case GetFree =>
          found := sd[i].fd < 0;
        case FindFd =>
          found := sd[i].fd == c.fd;
        case SetDescriptor =>
          if sd[i].fd != -1 {
            c' := c'.(fdset := c'.fdset + {sd[i].fd});
            if sd[i].fd > c'.maxFd {
              c' := c'.(maxFd := sd[i].fd);
            }
          }
        case DeleteInvalid =>
          if !valid(sd[i].fd) {
            SessDelete(i);
          }
        case FindLowestLru =>
          if sd[i].fd == -1 {
            return c, false;
          }
          if sd[i].lruCounter < c.lruCounter {
            c' := c.(lruCounter := sd[i].lruCounter, session := Some(i));
          }
        case Close =>
          if sd[i].fd != -1 {
            SessDelete(i);
          }
      }
      if found {
        return c'.(session := Some(i)), false;
      }
      return c', true;
    }

    method SessEnum(c: Context, valid: int -> bool) returns (c': Context)
      modifies this, sd
      ensures (View(), c') == Enum(old(View()), 0, c, valid)
    {
      c' := c;
      var i: nat := 0;
      while i < sd.Length
        invariant i <= sd.Length
        invariant Enum(View(), i, c', valid) == Enum(old(View()), 0, c, valid)
      {
        var more;
        c', more := EnumFunction(i, c', valid);
        if !more {
          return;
        }
        i := i + 1;
      }
    }

    method SessGetFree() returns (r: Option<nat>)
      modifies this, sd
      ensures r == GetFreeSession(old(View()))
      ensures View() == old(View())
    {
      if activeCount == sd.Length {
        return None;
      }
      SessionRuns.ScanFree(View(), 0, Blank(GetFree));
      var c := SessEnum(Blank(GetFree), Always);
      return c.session;
    }

    method FindSession(fd: int) returns (r: Option<nat>)
      modifies this, sd
      ensures r == Find(old(View()), fd)
      ensures View() == old(View())
    {
      SessionRuns.ScanFd(View(), 0, Blank(FindFd).(fd := fd));
      var c := SessEnum(Blank(FindFd).(fd := fd), Always);
      return c.session;
    }

    method SessGet(fd: int) returns (r: Option<nat>)
      modifies this, sd
      ensures r == Get(old(View()), fd)
      ensures View() == old(View())
    {
      if sd.Length == 0 {
        return None;
      }
      if current.Some? && current.value < sd.Length && sd[current.value].fd == fd {
        return current;
      }
      r := FindSession(fd);
    }

    method SessNew(fd: int, openOk: bool) returns (e: EspErr, session: Option<nat>)
      modifies this, sd
      ensures (View(), e, session) == New(old(View()), fd, openOk)
    {
      var existing := SessGet(fd);
      if existing.Some? {
        return EspFail, None;
      }
      var free := SessGetFree();
      if free.None? {
        return EspFail, None;
      }
      var i := free.value;
      sd[i] := ZERO_SLOT;
      sd[i] := sd[i].(fd := fd, handle := true);
      assert sd[..] == old(sd[..])[i := ZERO_SLOT.(fd := fd, handle := true)];
      if !openOk {
        SessDelete(i);
        return EspFail, None;
      }
      activeCount := activeCount + 1;
      return EspOk, Some(i);
    }

    method SessSetCtx(fd: int, ctx: Option<Ctx>, freeFn: FreeFn)
      requires current.None? || Get(View(), fd) != current
      modifies this, sd
      ensures View() == SetCtx(old(View()), fd, ctx, freeFn)
    {
      var session := SessGet(fd);
      if session.None? {
        return;
      }
      var i := session.value;
      if sd[i].ctx != ctx {
        freed := freed + FreeOne(sd[i].ctx);
        sd[i] := sd[i].(ctx := ctx);
      }
      sd[i] := sd[i].(freeCtx := freeFn);
    }

    method SessSetTransportCtx(fd: int, ctx: Option<Ctx>, freeFn: FreeFn)
      modifies this, sd
      ensures View() == SetTransportCtx(old(View()), fd, ctx, freeFn)
    {
      var session := SessGet(fd);
      if session.None? {
        return;
      }
      var i := session.value;
      if sd[i].transportCtx != ctx {
        freed := freed + FreeOne(sd[i].transportCtx);
        sd[i] := sd[i].(transportCtx := ctx);
      }
      sd[i] := sd[i].(freeTransportCtx := freeFn);
    }

    method SessUpdateLru(fd: int) returns (e: EspErr)
      modifies this, sd
      ensures (View(), e) == UpdateLru(old(View()), fd)
    {
      var session := FindSession(fd);
      if session.None? {
        return EspErrNotFound;
      }
      lruCounter := (lruCounter + 1) % (UINT64_MAX + 1);
      sd[session.value] := sd[session.value].(lruCounter := lruCounter);
      return EspOk;
    }

    method SessCloseLru() returns (e: EspErr)
      modifies this, sd
      ensures (View(), e) == CloseLru(old(View()))
    {
      ScanLruKeeps(View(), 0, Blank(FindLowestLru).(fd := -1, lruCounter := UINT64_MAX));
      var c := SessEnum(Blank(FindLowestLru).(fd := -1, lruCounter := UINT64_MAX), Always);
      if c.session.Some? {
        sd[c.session.value] := sd[c.session.value].(lruSocket := true);
      }
      return EspOk;
    }

    /** `httpd_accept_conn`; `accepted` is the result of `accept`. */
    method Accept(lruPurge: bool, accepted: int, openOk: bool) returns (e: EspErr, session: Option<nat>)
      modifies this, sd
      ensures (View(), e, session) == AcceptConn(old(View()), lruPurge, accepted, openOk)
    {
      if lruPurge {
        var free := SessGetFree();
        if free.None? {
          e := SessCloseLru();
          return e, None;
        }
      }
      if accepted < 0 {
        return EspFail, None;
      }
      e, session := SessNew(accepted, openOk);
    }

    /** `checkAvail`; `pending` is what `select` says of the listening socket, when it is watched. */
    method CheckAvail(lruPurge: bool, pending: bool, accepted: int, openOk: bool) returns (session: Option<nat>)
      modifies this, sd
      ensures (View(), session) == Sessions.CheckAvail(old(View()), lruPurge, pending, accepted, openOk)
    {
      var watched := lruPurge;
      if !watched {
        var free := SessGetFree();
        watched := free.Some?;
      }
      if !watched || !pending {
        return None;
      }
      var e;
      e, session := Accept(lruPurge, accepted, openOk);
      if e != EspOk {
        return None;
      }
    }

    /** `httpd_get_client_list`: `capacity` goes in through `fds`, `n` comes out of it. */
    method GetClientList(capacity: nat, clientFds: array?<int>) returns (e: EspErr, n: nat)
      requires clientFds != null ==> capacity <= clientFds.Length
      modifies clientFds
      ensures e == EspOk <==>
              clientFds != null && capacity != 0 && |SessionRuns.ActiveFds(sd[..])| <= capacity
      ensures e == EspOk ==> n == |SessionRuns.ActiveFds(sd[..])| && clientFds[..n] == SessionRuns.ActiveFds(sd[..])
      ensures e != EspOk ==> e == EspErrInvalidArg && n == capacity
    {
      if clientFds == null || capacity == 0 {
        return EspErrInvalidArg, capacity;
      }
      n := 0;
      var i := 0;
      while i < sd.Length
        invariant 0 <= i <= sd.Length && n <= capacity
        invariant clientFds[..n] == SessionRuns.ActiveFds(sd[..i])
      {
        assert sd[..i + 1][..i] == sd[..i];
        if sd[i].fd != -1 {
          if n < capacity {
            clientFds[n] := sd[i].fd;
            n := n + 1;
          } else {
            ActiveFdsGrow(sd[..], i + 1);
            return EspErrInvalidArg, n;
          }
        }
        i := i + 1;
      }
      assert sd[..sd.Length] == sd[..];
      e := EspOk;
    }
  }

  lemma {:induction false} ScanLruKeeps(t: Table, i: nat, c: Context)
    requires i <= |t.slots| && c.task == FindLowestLru
    ensures Enum(t, i, c, Always).0 == t
    decreases |t.slots| - i
  {
    if i < |t.slots| {
      ScanLruKeeps(t, i + 1, Visit(t, i, c, Always).1);
    }
  }

  lemma {:induction false} ActiveFdsGrow(slots: seq<Slot>, i: nat)
    requires i <= |slots|
    ensures |SessionRuns.ActiveFds(slots[..i])| <= |SessionRuns.ActiveFds(slots)|
    decreases |slots| - i
  {
    if i < |slots| {
      assert slots[..i + 1][..i] == slots[..i];
      ActiveFdsGrow(slots, i + 1);
    } else {
      assert slots[..i] == slots;
    }
  }
}
