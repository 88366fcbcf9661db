/** Every run of `IndexedString` constructions, copies, assignments and destructions over one string table. */
module Handles {
  import opened Bytes
  import opened Interner

  /** `live`: the index each existing handle holds. `lost[i]`: how often a handle holding `i` was assigned over,
      each time leaving a reference behind that no handle will give back. */
  datatype World<H> = World(strings: Strings, live: map<H, byte>, lost: seq<nat>)

  datatype Op<H> = Construct(h: H, s: bytes) | Copy(h: H, source: H) | Assign(h: H, source: H) | Destroy(h: H)

  ghost function Empty<H>(): World<H> {
    World(map[], map[], seq(256, _ => 0))
  }

  predicate Enabled<H>(w: World<H>, op: Op<H>) {
    match op
    case Construct(h, _) => h !in w.live
    case Copy(h, source) => h !in w.live && source in w.live
    case Assign(h, source) => h in w.live && source in w.live
    case Destroy(h) => h in w.live
  }

  ghost function Step<H>(w: World<H>, op: Op<H>): World<H>
    requires |w.lost| == 256 && Enabled(w, op)
  {
    match op
    case Construct(h, s) =>
      var (t, i) := Intern(w.strings, TopicText(s));
      World(t, w.live[h := i], w.lost)
    case Copy(h, source) =>
      World(Use(w.strings, w.live[source]), w.live[h := w.live[source]], w.lost)
    case Assign(h, source) =>
      var i := w.live[h];
      World(Use(w.strings, w.live[source]), w.live[h := w.live[source]], w.lost[i := w.lost[i] + 1])
    case Destroy(h) =>
      World(Release(w.strings, w.live[h]), w.live - {h}, w.lost)
  }

  ghost function Holders<H>(live: map<H, byte>, i: byte): set<H> {
    set h | h in live && live[h] == i
  }

  /** References to each index: the handles holding it, and the lost ones. */
  ghost function Refs<H>(w: World<H>): (r: seq<nat>)
    requires |w.lost| == 256
    ensures |r| == 256
    ensures forall i: byte :: r[i] == |Holders(w.live, i)| + w.lost[i]
  {
    seq<nat>(256, (i: nat) requires i < 256 => |Holders(w.live, i)| + w.lost[i])
  }

  ghost predicate Inv<H>(w: World<H>) {
    |w.lost| == 256 && Distinct(w.strings) && Accounts(w.strings, Refs(w))
  }

  /** The operation does not let an 8-bit counter fall to zero while references remain. */
  ghost predicate Safe<H>(w: World<H>, op: Op<H>)
    requires |w.lost| == 256 && Enabled(w, op)
  {
    op.Destroy? ==> var i := w.live[op.h]; i == 0 || Refs(w)[i] == 1 || Refs(w)[i] % 256 != 1
  }

  lemma HoldersOf<H>(live: map<H, byte>, h: H, i: byte, j: byte)
    requires h !in live
    ensures |Holders(live[h := i], j)| == |Holders(live, j)| + if j == i then 1 else 0
  {
    assert Holders(live[h := i], j) == Holders(live, j) + if j == i then {h} else {};
  }

  lemma HoldersAdd<H>(live: map<H, byte>, h: H, i: byte)
    requires h !in live
    ensures forall j: byte :: |Holders(live[h := i], j)| == |Holders(live, j)| + if j == i then 1 else 0
  {
    forall j: byte ensures |Holders(live[h := i], j)| == |Holders(live, j)| + if j == i then 1 else 0 {
      HoldersOf(live, h, i, j);
    }
  }

  lemma HoldersDrop<H>(live: map<H, byte>, h: H)
    requires h in live
    ensures forall j: byte :: |Holders(live, j)| == |Holders(live - {h}, j)| + if j == live[h] then 1 else 0
  {
    HoldersAdd(live - {h}, h, live[h]);
    assert live == (live - {h})[h := live[h]];
  }

  /** Each step changes the reference counts by what the program did with its handles. */
  lemma StepRefs<H>(w: World<H>, op: Op<H>)
    requires |w.lost| == 256 && Enabled(w, op)
    ensures var w' := Step(w, op);
            var i := if op.Construct? || op.Copy? || op.Assign? then w'.live[op.h] else w.live[op.h];
            && |w'.lost| == 256
            && (op.Destroy? ==> Refs(w)[i] > 0)
            && Refs(w') == Refs(w)[i := if op.Destroy? then Refs(w)[i] - 1 else Refs(w)[i] + 1]
  {
    match op {
      case Construct(h, s) =>
        var (t, i) := Intern(w.strings, TopicText(s));
        AddRefs(w, t, h, i);
        return;
      case Copy(h, source) =>
        AddRefs(w, Use(w.strings, w.live[source]), h, w.live[source]);
        return;
      case Assign(h, source) =>
        AssignRefs(w, op);
        return;
      case Destroy(h) =>
        HoldersDrop(w.live, h);
        return;
    }
  }

  lemma AddRefs<H>(w: World<H>, t: Strings, h: H, i: byte)
    requires |w.lost| == 256 && h !in w.live
    ensures Refs(World(t, w.live[h := i], w.lost)) == Refs(w)[i := Refs(w)[i] + 1]
  {
    HoldersAdd(w.live, h, i);
  }

  /** Each handle assigned over leaves its reference among the lost ones. */
  lemma AssignRefs<H>(w: World<H>, op: Op<H>)
    requires |w.lost| == 256 && Enabled(w, op) && op.Assign?
    ensures var i := w.live[op.source]; Refs(Step(w, op)) == Refs(w)[i := Refs(w)[i] + 1]
  {
    var h, live' := op.h, w.live[op.h := w.live[op.source]];
    HoldersDrop(w.live, h);
    HoldersDrop(live', h);
    assert w.live - {h} == live' - {h};
  }

  lemma HeldIsReferenced<H>(w: World<H>, h: H)
    requires |w.lost| == 256 && h in w.live
    ensures Refs(w)[w.live[h]] > 0
  {
    HoldersDrop(w.live, h);
  }

  lemma StepDistinct<H>(w: World<H>, op: Op<H>)
    requires |w.lost| == 256 && Enabled(w, op) && Distinct(w.strings)
    ensures Distinct(Step(w, op).strings)
  {
    if op.Construct? {
      InternDistinct(w.strings, TopicText(op.s));
    }
  }

  lemma StepAccounts<H>(w: World<H>, op: Op<H>, refs: seq<nat>)
    requires |w.lost| == 256 && Enabled(w, op) && refs == Refs(w) && Accounts(w.strings, refs)
    ensures Accounts(Step(w, op).strings, Refs(Step(w, op))) <==> Safe(w, op)
  {
    match op {
      case Construct(h, s) => ConstructAccounts(w, op, refs); return;
      case Copy(h, source) => ShareAccounts(w, op, refs); return;
      case Assign(h, source) => ShareAccounts(w, op, refs); return;
      case Destroy(h) => DestroyAccounts(w, h, refs); return;
    }
  }

  lemma ConstructAccounts<H>(w: World<H>, op: Op<H>, refs: seq<nat>)
    requires |w.lost| == 256 && Enabled(w, op) && op.Construct? && refs == Refs(w) && Accounts(w.strings, refs)
    ensures Accounts(Step(w, op).strings, Refs(Step(w, op)))
  {
    StepRefs(w, op);
    InternAccounts(w.strings, refs, TopicText(op.s));
  }

  lemma ShareAccounts<H>(w: World<H>, op: Op<H>, refs: seq<nat>)
    requires |w.lost| == 256 && Enabled(w, op) && (op.Copy? || op.Assign?)
    requires refs == Refs(w) && Accounts(w.strings, refs)
    ensures Accounts(Step(w, op).strings, Refs(Step(w, op)))
  {
    StepRefs(w, op);
    HeldIsReferenced(w, op.source);
    UseAccounts(w.strings, refs, w.live[op.source]);
  }

  lemma DestroyAccounts<H>(w: World<H>, h: H, refs: seq<nat>)
    requires |w.lost| == 256 && h in w.live && refs == Refs(w) && Accounts(w.strings, refs)
    ensures Accounts(Step(w, Destroy(h)).strings, Refs(Step(w, Destroy(h)))) <==> Safe(w, Destroy(h))
  {
    StepRefs(w, Destroy(h));
    ReleaseAccounts(w.strings, refs, w.live[h]);
  }

  /** One operation keeps the books exactly when it is safe. */
  lemma StepInv<H>(w: World<H>, op: Op<H>)
    requires Inv(w) && Enabled(w, op)
    ensures Inv(Step(w, op)) <==> Safe(w, op)
  {
    StepDistinct(w, op);
    StepAccounts(w, op, Refs(w));
    StepRefs(w, op);
  }

  // ---------- Runs ----------

  /** A run the program can make, in which every operation is safe. */
  ghost predicate SafeRun<H>(w: World<H>, ops: seq<Op<H>>)
    decreases |ops|
  {
    ops == [] || (|w.lost| == 256 && Enabled(w, ops[0]) && Safe(w, ops[0]) && SafeRun(Step(w, ops[0]), ops[1..]))
  }

  ghost function Run<H>(w: World<H>, ops: seq<Op<H>>): World<H>
    requires SafeRun(w, ops)
    decreases |ops|
  {
    if ops == [] then w else Run(Step(w, ops[0]), ops[1..])
  }

  lemma {:induction false} RunInv<H>(w: World<H>, ops: seq<Op<H>>)
    requires Inv(w) && SafeRun(w, ops)
    ensures Inv(Run(w, ops))
    decreases |ops|
  {
    if ops != [] {
      StepInv(w, ops[0]);
      RunInv(Step(w, ops[0]), ops[1..]);
    }
  }

  /** Conservation: in every state reached from the empty table, a string is stored exactly while a handle or a lost
      reference names it, and its counter is their number modulo 256; stored strings are pairwise distinct. */
  lemma Conservation<H>(ops: seq<Op<H>>, i: byte)
    requires SafeRun(Empty<H>(), ops) && i != 0
    ensures var w := Run(Empty<H>(), ops);
            && Inv(w)
            && (i in w.strings <==> |Holders(w.live, i)| + w.lost[i] > 0)
            && (i in w.strings ==> w.strings[i].used == (|Holders(w.live, i)| + w.lost[i]) % 256)
  {
    var e := Empty<H>();
    forall j: byte ensures Refs(e)[j] == 0 {
      assert Holders(e.live, j) == {};
    }
    RunInv(e, ops);
  }

  /** A handle holding an index other than 0 resolves to a stored string. */
  lemma NoDangling<H>(w: World<H>, h: H)
    requires Inv(w) && h in w.live && w.live[h] != 0
    ensures w.live[h] in w.strings
  {
    HeldIsReferenced(w, h);
  }

  predicate Touches<H(==)>(op: Op<H>, h: H) {
    op.h == h
  }

  /** Between the operations on a handle its text does not change, whatever happens to the others. */
  lemma {:induction false} TextStable<H>(w: World<H>, ops: seq<Op<H>>, h: H)
    requires Inv(w) && SafeRun(w, ops) && h in w.live && w.live[h] != 0
    requires forall k :: 0 <= k < |ops| ==> !Touches(ops[k], h)
    ensures h in Run(w, ops).live && Run(w, ops).live[h] == w.live[h]
    ensures Str(Run(w, ops).strings, w.live[h]) == Str(w.strings, w.live[h])
    decreases |ops|
  {
    if ops != [] {
      var op, w' := ops[0], Step(w, ops[0]);
      assert !Touches(ops[0], h);
      StepInv(w, op);
      NoDangling(w, h);
      NoDangling(w', h);
      match op {
        case Construct(_, s) => TextsStay(w.strings, TopicText(s), 0, w.live[h]);
        case Copy(_, source) => TextsStay(w.strings, [], w.live[source], w.live[h]);
        case Assign(_, source) => TextsStay(w.strings, [], w.live[source], w.live[h]);
        case Destroy(g) => TextsStay(w.strings, [], w.live[g], w.live[h]);
      }
      TextStable(w', ops[1..], h);
    }
  }

  /** Once a handle holding `i` has been assigned over, the string stays stored in every later state,
      even after every handle is gone. */
  lemma {:induction false} LostStaysStored<H>(w: World<H>, ops: seq<Op<H>>, i: byte)
    requires Inv(w) && SafeRun(w, ops) && i != 0 && w.lost[i] > 0
    ensures i in Run(w, ops).strings
    decreases |ops|
  {
    if ops != [] {
      StepInv(w, ops[0]);
      LostStaysStored(Step(w, ops[0]), ops[1..], i);
    }
  }

  /** A run in which no index ever has more than 255 references. */
  ghost predicate BoundedRun<H>(w: World<H>, ops: seq<Op<H>>)
    decreases |ops|
  {
    |w.lost| == 256 && (forall i: byte :: i != 0 ==> Refs(w)[i] <= 255) &&
    (ops == [] || (Enabled(w, ops[0]) && BoundedRun(Step(w, ops[0]), ops[1..])))
  }

  /** The bound a program can observe is enough for every operation to be safe. */
  lemma {:induction false} BoundedRunIsSafe<H>(w: World<H>, ops: seq<Op<H>>)
    requires BoundedRun(w, ops)
    ensures SafeRun(w, ops)
    decreases |ops|
  {
    if ops != [] {
      if ops[0].Destroy? {
        HeldIsReferenced(w, ops[0].h);
      }
      BoundedRunIsSafe(Step(w, ops[0]), ops[1..]);
    }
  }

  // ---------- A counter that wraps ----------

  /** Handles 0 to n - 1 hold the only string. */
  ghost function Crowd(s: bytes, n: nat): World<nat> {
    World(map[1 := Counter(s, n % 256)], Holding(n), seq(256, _ => 0))
  }

  function Holding(n: nat): (r: map<nat, byte>)
    ensures forall h: nat :: h in r <==> h < n
    ensures forall h :: h in r ==> r[h] == 1
  {
    if n == 0 then map[] else Holding(n - 1)[n - 1 := 1]
  }

  ghost function CopiesFrom(n: nat, m: nat): seq<Op<nat>>
    requires n <= m
    decreases m - n
  {
    if n == m then [] else [Copy(n, 0)] + CopiesFrom(n + 1, m)
  }

  lemma CopyMore(s: bytes, n: nat)
    requires n > 0
    ensures Enabled(Crowd(s, n), Copy(n, 0)) && Step(Crowd(s, n), Copy(n, 0)) == Crowd(s, n + 1)
  {
    assert Holding(n)[n := 1] == Holding(n + 1);
  }

  lemma {:induction false} CopyUp(s: bytes, n: nat, m: nat)
    requires 0 < n <= m
    ensures SafeRun(Crowd(s, n), CopiesFrom(n, m)) && Run(Crowd(s, n), CopiesFrom(n, m)) == Crowd(s, m)
    decreases m - n
  {
    if n < m {
      CopyMore(s, n);
      CopyUp(s, n + 1, m);
      assert CopiesFrom(n, m)[1..] == CopiesFrom(n + 1, m);
    }
  }

  lemma FirstHandle(s: bytes)
    requires s != [] && |s| < 256
    ensures Enabled(Empty<nat>(), Construct(0, s)) && Step(Empty<nat>(), Construct(0, s)) == Crowd(s, 1)
  {
    assert TopicText(s) == s;
    assert Intern(map[], s) == (map[1 := Counter(s, 1)], 1);
    assert map[0 := 1] == Holding(1);
  }

  lemma LastOfCrowd(s: bytes)
    requires s != [] && |s| < 256
    ensures var w := Step(Crowd(s, 257), Destroy(0)); w.strings == map[] && w.live == Holding(257) - {0}
  {
    assert 257 % 256 == 1;
  }

  /** One construction and 256 copies, all safe; then the first of the 257 handles is destroyed, the 8-bit counter comes
      to zero, and the other 256 name a string that is gone. */
  lemma TooManyHandles(s: bytes)
    requires s != [] && |s| < 256
    ensures var ops := [Construct(0, s)] + CopiesFrom(1, 257);
            SafeRun(Empty<nat>(), ops) && Run(Empty<nat>(), ops) == Crowd(s, 257)
    ensures var w := Step(Crowd(s, 257), Destroy(0));
            w.strings == map[] && (forall h: nat :: 1 <= h < 257 ==> h in w.live && w.live[h] == 1) && !Inv(w)
  {
    var ops := [Construct(0, s)] + CopiesFrom(1, 257);
    FirstHandle(s);
    CopyUp(s, 1, 257);
    assert ops[1..] == CopiesFrom(1, 257);
    LastOfCrowd(s);
    CrowdDangles(Step(Crowd(s, 257), Destroy(0)));
  }

  lemma CrowdDangles(w: World<nat>)
    requires w.strings == map[] && w.live == Holding(257) - {0}
    ensures (forall h: nat :: 1 <= h < 257 ==> h in w.live && w.live[h] == 1) && !Inv(w)
  {
    assert 1 in w.live;
    if Inv(w) {
      NoDangling(w, 1);
    }
  }

  // ---------- A string that stays ----------

  lemma RunOne<H>(w: World<H>, op: Op<H>, ops: seq<Op<H>>)
    requires |w.lost| == 256 && Enabled(w, op) && Safe(w, op) && SafeRun(Step(w, op), ops)
    ensures SafeRun(w, [op] + ops) && Run(w, [op] + ops) == Run(Step(w, op), ops)
  {
    assert ([op] + ops)[1..] == ops;
  }

  ghost function NoneLost(): (r: seq<nat>)
    ensures |r| == 256
  {
    seq(256, _ => 0)
  }

  /** Two handles, one string each. */
  ghost function TwoHandles(): World<nat> {
    World(map[1 := Counter([97], 1), 2 := Counter([98], 1)], map[0 := 1, 1 := 2], NoneLost())
  }

  /** The first handle assigned from the second. */
  ghost function Assigned(): World<nat> {
    World(map[1 := Counter([97], 1), 2 := Counter([98], 2)], map[0 := 2, 1 := 2], NoneLost()[1 := 1])
  }

  ghost function OneLeft(): World<nat> {
    World(map[1 := Counter([97], 1), 2 := Counter([98], 1)], map[1 := 2], NoneLost()[1 := 1])
  }

  /** No handle is left, but the string is. */
  ghost function NoneLeft(): World<nat> {
    World(map[1 := Counter([97], 1)], map[], NoneLost()[1 := 1])
  }

  lemma MakeTwo()
    ensures var (e, c0, c1) := (Empty<nat>(), Construct(0, [97]), Construct(1, [98]));
            Enabled(e, c0) && Enabled(Step(e, c0), c1) && Step(Step(e, c0), c1) == TwoHandles()
  {
    FirstHandle([97]);
    var w := Crowd([97], 1);
    assert w.live == map[0 := 1] && TopicText([98]) == [98];
    InternFinds(w.strings, [98]);
    assert Step(w, Construct(1, [98])).live == TwoHandles().live;
  }

  lemma AssignIt()
    ensures Enabled(TwoHandles(), Assign(0, 1)) && Step(TwoHandles(), Assign(0, 1)) == Assigned()
  {
    assert TwoHandles().live[0 := 2] == Assigned().live;
  }

  lemma DestroyBoth()
    ensures Enabled(Assigned(), Destroy(0)) && Safe(Assigned(), Destroy(0)) && Step(Assigned(), Destroy(0)) == OneLeft()
    ensures Enabled(OneLeft(), Destroy(1)) && Safe(OneLeft(), Destroy(1)) && Step(OneLeft(), Destroy(1)) == NoneLeft()
  {
    assert Holders(Assigned().live, 2) == {0, 1};
    assert Assigned().live - {0} == OneLeft().live;
    assert Holders(OneLeft().live, 2) == {1};
    assert OneLeft().live - {1} == NoneLeft().live;
    assert OneLeft().strings - {2} == NoneLeft().strings;
  }

  lemma AssignAndDestroy()
    ensures var ops := [Assign(0, 1), Destroy(0), Destroy(1)];
            SafeRun(TwoHandles(), ops) && Run(TwoHandles(), ops) == NoneLeft()
  {
    var o2, o3, o4 := Assign(0, 1), Destroy(0), Destroy(1);
    AssignIt();
    DestroyBoth();
    RunOne(OneLeft(), o4, []);
    RunOne(Assigned(), o3, [o4]);
    RunOne(TwoHandles(), o2, [o3, o4]);
    assert [o2] + [o3, o4] == [o2, o3, o4] && [o3] + [o4] == [o3, o4] && [o4] + [] == [o4];
  }

  /** Two handles with strings of their own, an assignment between them, both destroyed: every handle is gone, and the
      string of the one assigned over is still stored. */
  lemma AssignmentLeaks()
    ensures var ops := [Construct(0, [97]), Construct(1, [98])] + [Assign(0, 1), Destroy(0), Destroy(1)];
            SafeRun(Empty<nat>(), ops) && Run(Empty<nat>(), ops) == NoneLeft()
  {
    var o0, o1, rest := Construct(0, [97]), Construct(1, [98]), [Assign(0, 1), Destroy(0), Destroy(1)];
    MakeTwo();
    AssignAndDestroy();
    RunOne(Step(Empty<nat>(), o0), o1, rest);
    RunOne(Empty<nat>(), o0, [o1] + rest);
    assert [o0] + ([o1] + rest) == [o0, o1] + rest;
  }
}
