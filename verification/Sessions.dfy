/** The socket table of the server as a value: its slots, the redundant counter, the LRU counter and the session
    of the request being handled. The class in HttpdSess.dfy is proved against these functions. */
module Sessions {
  import opened Bytes

  const UINT64_MAX: nat := 0xFFFF_FFFF_FFFF_FFFF
  type uint64 = x: int | 0 <= x <= UINT64_MAX

  /** A context pointer and, with it, the function to free it; `NULL` is `None`. */
  type Ctx = nat
  type FreeFn = Option<nat>

  datatype Slot = Slot(fd: int, ctx: Option<Ctx>, freeCtx: FreeFn, transportCtx: Option<Ctx>, freeTransportCtx: FreeFn,
                       lruCounter: uint64, lruSocket: bool, handle: bool)

  /** `freed` logs every context handed to its free function, oldest first. */
  datatype Table = Table(slots: seq<Slot>, activeCount: int, lruCounter: uint64, current: Option<nat>, freed: seq<Ctx>)

  datatype EspErr = EspOk | EspFail | EspErrInvalidArg | EspErrNotFound

  const ZERO_SLOT := Slot(0, None, None, None, None, 0, false, false)

  datatype Task = Init | GetActive | GetFree | FindFd | SetDescriptor | DeleteInvalid | FindLowestLru | Close

  /** `enum_context_t`. */
  datatype Context = Context(task: Task, fd: int, fdset: set<int>, maxFd: int, lruCounter: uint64, session: Option<nat>)

  function Blank(task: Task): Context {
    Context(task, 0, {}, 0, 0, None)
  }

  function FreeOne(c: Option<Ctx>): seq<Ctx> {
    if c.Some? then [c.value] else []
  }

  /** `httpd_sess_clear_ctx`, then the slot is marked available. A free function is forgotten with its context. */
  function Cleared(s: Slot): Slot {
    Slot(-1, None, if s.ctx.Some? then None else s.freeCtx, None,
         if s.transportCtx.Some? then None else s.freeTransportCtx, s.lruCounter, s.lruSocket, s.handle)
  }

  function Delete(t: Table, i: nat): Table
    requires i < |t.slots|
  {
    var s := t.slots[i];
    if s.fd < 0 then t
    else
      var count := t.activeCount - 1;
      Table(t.slots[i := Cleared(s)], count, if count == 0 then 0 else t.lruCounter, t.current,
            t.freed + FreeOne(s.ctx) + FreeOne(s.transportCtx))
  }

  /** `enum_function` on slot `i`: the table and context it leaves and whether to go on. `valid` answers `fcntl`. */
  function Visit(t: Table, i: nat, c: Context, valid: int -> bool): (r: (Table, Context, bool))
    requires i < |t.slots|
    ensures |r.0.slots| == |t.slots|
    ensures r.1.session == c.session || r.1.session == Some(i)
  {
    var s := t.slots[i];
    var found := c.(session := Some(i));
    match c.task
    case Init => (t.(slots := t.slots[i := s.(fd := -1, ctx := None)]), c, true)
    case GetActive => if s.fd != -1 then (t, found, false) else (t, c, true)
    case GetFree => if s.fd < 0 then (t, found, false) else (t, c, true)
    case FindFd => if s.fd == c.fd then (t, found, false) else (t, c, true)
    case SetDescriptor =>
      var highest := if s.fd > c.maxFd then s.fd else c.maxFd;
      (t, if s.fd != -1 then c.(fdset := c.fdset + {s.fd}, maxFd := highest) else c, true)
    case DeleteInvalid => (if valid(s.fd) then t else Delete(t, i), c, true)
    case FindLowestLru =>
      if s.fd == -1 then (t, c, false)
      else (t, if s.lruCounter < c.lruCounter then found.(lruCounter := s.lruCounter) else c, true)
    case Close => (if s.fd != -1 then Delete(t, i) else t, c, true)
  }

  /** `httpd_sess_enum` from slot `i` on. */
  function Enum(t: Table, i: nat, c: Context, valid: int -> bool): (r: (Table, Context))
    requires i <= |t.slots|
    ensures |r.0.slots| == |t.slots|
    ensures r.1.session == c.session || (r.1.session.Some? && i <= r.1.session.value < |t.slots|)
    decreases |t.slots| - i
  {
    if i == |t.slots| then (t, c)
    else
      var (t', c', more) := Visit(t, i, c, valid);
      if more then Enum(t', i + 1, c', valid) else (t', c')
  }

  function Always(fd: int): bool {
    true
  }

  function GetFreeSession(t: Table): (r: Option<nat>)
    ensures r.Some? ==> r.value < |t.slots|
  {
    if t.activeCount == |t.slots| then None else Enum(t, 0, Blank(GetFree), Always).1.session
  }

  function IsAvailable(t: Table): bool {
    GetFreeSession(t).Some?
  }

  function Find(t: Table, fd: int): (r: Option<nat>)
    ensures r.Some? ==> r.value < |t.slots|
  {
    Enum(t, 0, Blank(FindFd).(fd := fd), Always).1.session
  }

  /** `httpd_sess_get`: the session of the current request if it has this descriptor, else a scan. */
  function Get(t: Table, fd: int): (r: Option<nat>)
    ensures r.Some? ==> r.value < |t.slots|
  {
    if t.slots == [] then None
    else if t.current.Some? && t.current.value < |t.slots| && t.slots[t.current.value].fd == fd then t.current
    else Find(t, fd)
  }

  /** `httpd_sess_new`; `openOk` is the result of `open_fn`. */
  function New(t: Table, fd: int, openOk: bool): (Table, EspErr, Option<nat>) {
    if Get(t, fd).Some? then (t, EspFail, None)
    else match GetFreeSession(t)
      case None => (t, EspFail, None)
      case Some(i) =>
        var t' := t.(slots := t.slots[i := ZERO_SLOT.(fd := fd, handle := true)]);
        if openOk then (t'.(activeCount := t.activeCount + 1), EspOk, Some(i))
        else (Delete(t', i), EspFail, None)
  }

  function DeleteInvalidSessions(t: Table, valid: int -> bool): Table {
    Enum(t, 0, Blank(DeleteInvalid), valid).0
  }

  function CloseAll(t: Table): Table {
    Enum(t, 0, Blank(Close), Always).0
  }

  /** `session->lru_counter = ++hd->lru_counter`. */
  function Touch(t: Table, i: nat): Table
    requires i < |t.slots|
  {
    var stamp := (t.lruCounter + 1) % (UINT64_MAX + 1);
    t.(slots := t.slots[i := t.slots[i].(lruCounter := stamp)], lruCounter := stamp)
  }

  function UpdateLru(t: Table, fd: int): (r: (Table, EspErr))
    ensures |r.0.slots| == |t.slots|
  {
    match Find(t, fd)
    case None => (t, EspErrNotFound)
    case Some(i) => (Touch(t, i), EspOk)
  }

  function LowestLru(t: Table): (r: Option<nat>)
    ensures r.Some? ==> r.value < |t.slots|
  {
    Enum(t, 0, Blank(FindLowestLru).(fd := -1, lruCounter := UINT64_MAX), Always).1.session
  }

  /** `httpd_sess_close_lru`: the session is only marked, the queue being a stub. */
  function CloseLru(t: Table): (r: (Table, EspErr))
    ensures |r.0.slots| == |t.slots|
  {
    match LowestLru(t)
    case None => (t, EspOk)
    case Some(i) => (t.(slots := t.slots[i := t.slots[i].(lruSocket := true)]), EspOk)
  }

  /** `httpd_sess_set_ctx` outside a request handler. */
  function SetCtx(t: Table, fd: int, ctx: Option<Ctx>, freeFn: FreeFn): Table {
    match Get(t, fd)
    case None => t
    case Some(i) =>
      var s := t.slots[i];
      t.(slots := t.slots[i := s.(ctx := ctx, freeCtx := freeFn)],
         freed := if s.ctx != ctx then t.freed + FreeOne(s.ctx) else t.freed)
  }

  function SetTransportCtx(t: Table, fd: int, ctx: Option<Ctx>, freeFn: FreeFn): Table {
    match Get(t, fd)
    case None => t
    case Some(i) =>
      var s := t.slots[i];
      t.(slots := t.slots[i := s.(transportCtx := ctx, freeTransportCtx := freeFn)],
         freed := if s.transportCtx != ctx then t.freed + FreeOne(s.transportCtx) else t.freed)
  }

  /** `httpd_accept_conn`: `accepted` is what `accept` returned. */
  function AcceptConn(t: Table, lruPurge: bool, accepted: int, openOk: bool): (Table, EspErr, Option<nat>) {
    if lruPurge && !IsAvailable(t) then var (t', e) := CloseLru(t); (t', e, None)
    else if accepted < 0 then (t, EspFail, None)
    else New(t, accepted, openOk)
  }

  /** `checkAvail`: `pending` says whether `select` reported the listening socket, if it was asked to watch it. */
  function CheckAvail(t: Table, lruPurge: bool, pending: bool, accepted: int, openOk: bool): (Table, Option<nat>) {
    if pending && (lruPurge || IsAvailable(t)) then
      var (t', e, s) := AcceptConn(t, lruPurge, accepted, openOk);
      (t', if e == EspOk then s else None)
    else (t, None)
  }

  /** `httpd_sess_init` on zeroed memory. */
  function Initial(n: nat): Table {
    Enum(Table(seq(n, _ => ZERO_SLOT), 0, 0, None, []), 0, Blank(Init), Always).0
  }
}
