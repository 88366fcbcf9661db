/** What every run of the broker keeps: the registry, the socket table, the string table and the decoders. */
module BrokerInv {
  import opened Bytes
  import opened Codec
  import opened Interner
  import opened Broker
  import Sessions
  import SessionRuns

  // ---------- References to topics ----------

  ghost function Subscribers(objs: map<ClientId, Client>, i: byte): set<ClientId> {
    set k | k in objs && i in objs[k].subs
  }

  /** References to each index: one for every client subscribed, and those the application holds. */
  ghost function Refs(objs: map<ClientId, Client>, held: seq<nat>): (r: seq<nat>)
    requires |held| == 256
    ensures |r| == 256
    ensures forall i: byte :: r[i] == |Subscribers(objs, i)| + held[i]
  {
    seq<nat>(256, (i: nat) requires i < 256 => |Subscribers(objs, i)| + held[i])
  }

  ghost function With(base: seq<nat>, subs: set<byte>): (r: seq<nat>)
    requires |base| == 256
    ensures |r| == 256
    ensures forall i: byte :: r[i] == base[i] + if i in subs then 1 else 0
  {
    seq<nat>(256, (i: nat) requires i < 256 => base[i] + if i in subs then 1 else 0)
  }

  lemma SubscribersUpdate(objs: map<ClientId, Client>, k: ClientId, c: Client, i: byte)
    requires k in objs
    ensures |Subscribers(objs[k := c], i)| == |Subscribers(objs - {k}, i)| + if i in c.subs then 1 else 0
  {
    assert Subscribers(objs[k := c], i) == Subscribers(objs - {k}, i) + if i in c.subs then {k} else {};
  }

  /** The references of one client on top of everyone else's. */
  lemma RefsSplit(objs: map<ClientId, Client>, held: seq<nat>, k: ClientId, c: Client)
    requires |held| == 256 && k in objs
    ensures Refs(objs[k := c], held) == With(Refs(objs - {k}, held), c.subs)
  {
    forall i: byte ensures Refs(objs[k := c], held)[i] == With(Refs(objs - {k}, held), c.subs)[i] {
      SubscribersUpdate(objs, k, c, i);
    }
  }

  lemma RefsSame(objs: map<ClientId, Client>, held: seq<nat>, k: ClientId, c: Client)
    requires |held| == 256 && k in objs && c.subs == objs[k].subs
    ensures Refs(objs[k := c], held) == Refs(objs, held)
  {
    RefsSplit(objs, held, k, c);
    RefsSplit(objs, held, k, objs[k]);
    assert objs[k := objs[k]] == objs;
  }

  lemma RefsNew(objs: map<ClientId, Client>, held: seq<nat>, k: ClientId, c: Client)
    requires |held| == 256 && k !in objs && c.subs == {}
    ensures Refs(objs[k := c], held) == Refs(objs, held)
  {
    forall i: byte ensures Subscribers(objs[k := c], i) == Subscribers(objs, i) {
    }
  }

  // ---------- Topic sets and the string table ----------

  /** Room for the temporaries of one step in every 8-bit counter. */
  ghost predicate Room(refs: seq<nat>) {
    |refs| == 256 && forall i: byte :: i != 0 ==> refs[i] <= 254
  }

  ghost predicate AllUsed(t: Strings) {
    0 !in t && forall i :: i in t ==> t[i].used != 0
  }

  lemma AccountsUsed(t: Strings, refs: seq<nat>)
    requires Accounts(t, refs) && forall i: byte :: i != 0 ==> refs[i] <= 255
    ensures AllUsed(t)
  {
  }

  /** Every counter can take one more reference. */
  ghost predicate Spare(t: Strings) {
    0 !in t && forall i :: i in t ==> 1 <= t[i].used <= 254
  }

  lemma SpareIntern(t: Strings, text: bytes)
    requires Spare(t)
    ensures AllUsed(t) && AllUsed(Intern(t, text).0)
  {
  }

  /** A temporary handle leaves no trace. */
  lemma TemporaryRestores(t: Strings, text: bytes)
    requires AllUsed(t)
    ensures var (t', i) := Intern(t, text); Release(t', i) == t
  {
    var n := LowestMatch(t, text, 0);
    if n < 256 {
      UseRelease(t, n);
    } else {
      var f := LowestFree(t, 1);
      if f < 256 {
        assert Release(t[f := Counter(text, 1)], f) == t;
      }
    }
  }

  lemma UseDistinct(t: Strings, i: byte)
    requires Distinct(t)
    ensures Distinct(Use(t, i)) && Distinct(Release(t, i))
  {
  }

  lemma TopicsDistinct(t: Strings, subs: set<byte>, text: bytes)
    requires Distinct(t)
    ensures Distinct(InsertTopic(t, subs, text).0) && Distinct(EraseTopic(t, subs, text).0)
  {
    InternDistinct(t, text);
    var (t', i) := Intern(t, text);
    UseDistinct(t', i);
    UseDistinct(Use(t', i), i);
    UseDistinct(Release(t', i), i);
  }

  function Plus(refs: seq<nat>, i: byte): (r: seq<nat>)
    requires |refs| == 256
    ensures |r| == 256
  {
    refs[i := refs[i] + 1]
  }

  /** Giving back a reference while there are at most 256 is always safe. */
  lemma GiveBack(t: Strings, refs: seq<nat>, i: byte)
    requires |refs| == 256 && (i == 0 || refs[i] <= 255) && Accounts(t, Plus(refs, i))
    ensures Accounts(Release(t, i), refs)
  {
    if i == 0 {
      assert forall j: byte :: j != 0 ==> Plus(refs, 0)[j] == refs[j];
    } else {
      ReleaseAccounts(t, Plus(refs, i), i);
      assert Plus(refs, i)[i := Plus(refs, i)[i] - 1] == refs;
    }
  }

  lemma KeepNew(t: Strings, base: seq<nat>, subs: set<byte>, i: byte)
    requires Room(base) && i !in subs && Accounts(t, Plus(With(base, subs), i)) && (i == 0 || i in t)
    ensures Accounts(Release(Use(t, i), i), With(base, subs + {i}))
  {
    UseAccounts(t, Plus(With(base, subs), i), i);
    assert With(base, subs + {i}) == Plus(With(base, subs), i);
    GiveBack(Use(t, i), With(base, subs + {i}), i);
  }

  lemma InsertKeeps(t: Strings, base: seq<nat>, subs: set<byte>, text: bytes)
    requires Room(base) && Accounts(t, With(base, subs))
    ensures var (t', subs') := InsertTopic(t, subs, text); Accounts(t', With(base, subs'))
  {
    var (t1, i) := Intern(t, text);
    InternAccounts(t, With(base, subs), text);
    if i in subs {
      assert subs + {i} == subs;
      GiveBack(t1, With(base, subs), i);
    } else {
      KeepNew(t1, base, subs, i);
    }
  }

  lemma DropOld(t: Strings, base: seq<nat>, subs: set<byte>, i: byte)
    requires Room(base) && i in subs && Accounts(t, Plus(With(base, subs), i))
    ensures Accounts(Release(Release(t, i), i), With(base, subs - {i}))
  {
    GiveBack(t, With(base, subs), i);
    assert With(base, subs) == Plus(With(base, subs - {i}), i);
    GiveBack(Release(t, i), With(base, subs - {i}), i);
  }

  lemma EraseKeeps(t: Strings, base: seq<nat>, subs: set<byte>, text: bytes)
    requires Room(base) && Accounts(t, With(base, subs))
    ensures var (t', subs') := EraseTopic(t, subs, text); Accounts(t', With(base, subs'))
  {
    var (t1, i) := Intern(t, text);
    InternAccounts(t, With(base, subs), text);
    if i in subs {
      DropOld(t1, base, subs, i);
    } else {
      assert subs - {i} == subs;
      GiveBack(t1, With(base, subs), i);
    }
  }

  ghost function From(subs: set<byte>, i: nat): set<byte> {
    set x | x in subs && x >= i
  }

  /** Destroying a set of topics gives back exactly its references. */
  lemma {:induction false} ReleasedBooks(t: Strings, base: seq<nat>, subs: set<byte>, i: nat)
    requires i <= 256 && Room(base) && Accounts(t, With(base, From(subs, i)))
    ensures Accounts(ReleaseAll(t, Ascending(subs, i)), base)
    decreases 256 - i
  {
    if i == 256 {
      assert With(base, From(subs, 256)) == base;
    } else if i in subs {
      assert With(base, From(subs, i)) == Plus(With(base, From(subs, i + 1)), i);
      GiveBack(t, With(base, From(subs, i + 1)), i);
      ReleasedBooks(Release(t, i), base, subs, i + 1);
      assert Ascending(subs, i)[1..] == Ascending(subs, i + 1);
    } else {
      assert From(subs, i) == From(subs, i + 1) && Ascending(subs, i) == Ascending(subs, i + 1);
      ReleasedBooks(t, base, subs, i + 1);
    }
  }

  lemma TakeKeeps(r: TopicsResult, base: seq<nat>, b: bytes, beyond: nat -> byte, p: nat, subscribe: bool)
    requires Room(base) && Distinct(r.strings) && Accounts(r.strings, With(base, r.subs))
    ensures var r' := TakeTopic(r, b, beyond, p, subscribe).0;
            Distinct(r'.strings) && Accounts(r'.strings, With(base, r'.subs))
  {
    var text := Slice(b, beyond, p + 2, StringLength(b, beyond, p) % 256);
    TopicsDistinct(r.strings, r.subs, text);
    if subscribe {
      InsertKeeps(r.strings, base, r.subs, text);
    } else {
      EraseKeeps(r.strings, base, r.subs, text);
    }
  }

  lemma {:induction false} WalkKeeps(r: TopicsResult, base: seq<nat>, b: bytes, beyond: nat -> byte, p: nat,
                                     subscribe: bool)
    requires Room(base) && Distinct(r.strings) && Accounts(r.strings, With(base, r.subs))
    ensures var r' := WalkTopics(r, b, beyond, p, subscribe);
            Distinct(r'.strings) && Accounts(r'.strings, With(base, r'.subs))
    decreases |b| - p
  {
    if p < |b| {
      TakeKeeps(r, base, b, beyond, p, subscribe);
      var (r', p') := TakeTopic(r, b, beyond, p, subscribe);
      WalkKeeps(r', base, b, beyond, p', subscribe);
    }
  }

  // ---------- The table ----------

  ghost predicate TableOk(t: Sessions.Table) {
    SessionRuns.Shape(t) && t.activeCount <= SessionRuns.CountActive(t.slots)
  }

  /** A table as a point of a run, so that what is proved of runs applies to it. */
  ghost function HistoryOf(t: Sessions.Table): SessionRuns.History
    requires TableOk(t)
  {
    SessionRuns.History(t, SessionRuns.CountActive(t.slots) - t.activeCount,
                        multiset(t.freed) + SessionRuns.Installed(t.slots), seq(|t.slots|, _ => 0), 0)
  }

  /** Descriptors stay or are freed. */
  ghost predicate OnlyDeletes(t: Sessions.Table, t': Sessions.Table) {
    |t'.slots| == |t.slots| && forall i :: 0 <= i < |t.slots| ==> t'.slots[i].fd in {t.slots[i].fd, -1}
  }

  lemma DeleteTable(t: Sessions.Table, i: nat)
    requires TableOk(t) && i < |t.slots|
    ensures TableOk(Sessions.Delete(t, i)) && OnlyDeletes(t, Sessions.Delete(t, i))
  {
    SessionRuns.DeleteInv(HistoryOf(t), i);
  }

  /** A new session takes a slot that was free, and no other descriptor changes. */
  ghost predicate TookSlot(t: Sessions.Table, t': Sessions.Table, s: Option<nat>) {
    && |t'.slots| == |t.slots|
    && (forall i :: 0 <= i < |t.slots| && s != Some(i) ==> t'.slots[i].fd == t.slots[i].fd)
    && (s.Some? ==> s.value < |t.slots| && t.slots[s.value].fd < 0 <= t'.slots[s.value].fd)
  }

  lemma NewOk(t: Sessions.Table, fd: int, openOk: bool)
    requires TableOk(t) && fd >= 0
    ensures TableOk(Sessions.New(t, fd, openOk).0)
  {
    var h := SessionRuns.Opened(HistoryOf(t), fd, openOk);
    SessionRuns.OpenInv(HistoryOf(t), fd, openOk);
    assert h.t == Sessions.New(t, fd, openOk).0;
  }

  lemma NewTook(t: Sessions.Table, fd: int, openOk: bool)
    requires TableOk(t) && fd >= 0
    ensures var (t', e, s) := Sessions.New(t, fd, openOk); TookSlot(t, t', s) && (e == Sessions.EspOk <==> s.Some?)
  {
    SessionRuns.Availability(HistoryOf(t));
    var free := Sessions.GetFreeSession(t);
    assert free.Some? ==> t.slots[free.value].fd == -1;
  }

  lemma PurgeTable(t: Sessions.Table)
    requires TableOk(t)
    ensures TableOk(Sessions.CloseLru(t).0) && TookSlot(t, Sessions.CloseLru(t).0, None)
  {
    SessionRuns.PurgeInv(HistoryOf(t));
  }

  lemma AcceptTable(t: Sessions.Table, lruPurge: bool, pending: bool, fd: int, openOk: bool)
    requires TableOk(t)
    ensures var (t', s) := Sessions.CheckAvail(t, lruPurge, pending, fd, openOk); TableOk(t') && TookSlot(t, t', s)
  {
    PurgeTable(t);
    if fd >= 0 {
      NewOk(t, fd, openOk);
      NewTook(t, fd, openOk);
    }
  }
}
