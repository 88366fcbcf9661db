/** The reference-counted string table as a value: at most 255 strings, named by the bytes 1 to 255. */
module Interner {
  import opened Bytes

  datatype Counter = Counter(str: bytes, used: byte)

  type Strings = map<byte, Counter>

  predicate NulFree(s: bytes) {
    forall i :: 0 <= i < |s| ==> s[i] != 0
  }

  /** `strncmp(a.c_str(), s, |s|) == 0`: `a` ends in a NUL, and a NUL on both sides ends the comparison. */
  predicate StrncmpEqual(a: bytes, s: bytes) {
    if s == [] then true
    else
      var c := if a == [] then 0 else a[0];
      c == s[0] && (c == 0 || StrncmpEqual(a[1..], s[1..]))
  }

  /** The first index from `i` up whose string compares equal, 256 if there is none. */
  function LowestMatch(t: Strings, s: bytes, i: nat): (r: nat)
    requires i <= 256
    ensures i <= r <= 256
    ensures r < 256 ==> r in t && StrncmpEqual(t[r].str, s)
    ensures forall j: byte :: i <= j < r && j in t ==> !StrncmpEqual(t[j].str, s)
    decreases 256 - i
  {
    if i == 256 then 256
    else if i in t && StrncmpEqual(t[i].str, s) then i
    else LowestMatch(t, s, i + 1)
  }

  function LowestFree(t: Strings, i: nat): (r: nat)
    requires i <= 256
    ensures i <= r <= 256
    ensures r < 256 ==> r !in t
    ensures forall j: byte :: i <= j < r ==> j in t
    decreases 256 - i
  {
    if i == 256 || i !in t then i else LowestFree(t, i + 1)
  }

  /** `strToIndex`; index 0 says that all 255 are taken. */
  function Intern(t: Strings, s: bytes): (Strings, byte) {
    var n := LowestMatch(t, s, 0);
    if n < 256 then (Use(t, n), n)
    else
      var f := LowestFree(t, 1);
      if f < 256 then (t[f := Counter(s, 1)], f) else (t, 0)
  }

  function Str(t: Strings, i: byte): bytes {
    if i in t then t[i].str else []
  }

  function Use(t: Strings, i: byte): Strings {
    if i in t then t[i := Counter(t[i].str, (t[i].used + 1) % 256)] else t
  }

  function Release(t: Strings, i: byte): Strings {
    if i in t then
      var used := (t[i].used + 255) % 256;
      if used == 0 then t - {i} else t[i := Counter(t[i].str, used)]
    else t
  }

  /** The text a `Topic` keeps of a string: its length goes through a `uint8_t`. */
  function TopicText(s: bytes): bytes {
    s[..|s| % 256]
  }

  /** `Topic::matches`. */
  predicate Matches(t: Strings, i: byte, j: byte) {
    i == j || Str(t, i) == Str(t, j)
  }

  // ---------- What the table keeps ----------

  /** Index 0 is never used for a string, and no string is stored twice. */
  ghost predicate Distinct(t: Strings) {
    0 !in t && forall i, j :: i in t && j in t && t[i].str == t[j].str ==> i == j
  }

  /** `refs[i]` counts the references to index `i`: a string is stored while it has one,
      and its 8-bit counter holds the count modulo 256. */
  ghost predicate Accounts(t: Strings, refs: seq<nat>) {
    |refs| == 256 && 0 !in t &&
    forall i: byte :: 1 <= i ==> (i in t <==> refs[i] > 0) && (i in t ==> t[i].used == refs[i] % 256)
  }

  lemma {:induction false} StrncmpReflexive(s: bytes)
    ensures StrncmpEqual(s, s)
  {
    if s != [] {
      StrncmpReflexive(s[1..]);
    }
  }

  /** For a NUL-free key the lookup is a prefix comparison. */
  lemma {:induction false} StrncmpIsPrefix(a: bytes, s: bytes)
    requires NulFree(s)
    ensures StrncmpEqual(a, s) <==> s <= a
  {
    if s == [] || a == [] {
    } else {
      StrncmpIsPrefix(a[1..], s[1..]);
      if a[0] == s[0] && s[1..] <= a[1..] {
        assert a == [a[0]] + a[1..] && s == [s[0]] + s[1..];
      }
      if s <= a {
        assert s[1..] <= a[1..];
      }
    }
  }

  /** A NUL in the key ends it: the text must end there too, or hold a NUL, and nothing behind it counts. */
  lemma {:induction false} StrncmpStopsAtNul(a: bytes, head: bytes, rest: bytes)
    requires NulFree(head)
    ensures StrncmpEqual(a, head + [0] + rest) <==> head <= a && (a == head || a[|head|] == 0)
  {
    var s := head + [0] + rest;
    if head != [] && a != [] {
      assert s[1..] == head[1..] + [0] + rest;
      StrncmpStopsAtNul(a[1..], head[1..], rest);
      assert a == [a[0]] + a[1..] && head == [head[0]] + head[1..];
    }
  }

  lemma InternDistinct(t: Strings, s: bytes)
    requires Distinct(t)
    ensures Distinct(Intern(t, s).0)
  {
    StrncmpReflexive(s);
  }

  lemma InternAccounts(t: Strings, refs: seq<nat>, s: bytes)
    requires Accounts(t, refs)
    ensures var (t', r) := Intern(t, s); Accounts(t', refs[r := refs[r] + 1]) && (r != 0 ==> r in t')
  {
    var n := LowestMatch(t, s, 0);
    if n < 256 {
      assert Intern(t, s) == (Use(t, n), n) && n != 0;
      UseAccounts(t, refs, n);
      return;
    }
    var f := LowestFree(t, 1);
    if f < 256 {
      assert Intern(t, s) == (t[f := Counter(s, 1)], f);
      NewAccounts(t, refs, f, s);
      return;
    }
    assert Intern(t, s) == (t, 0);
    UseAccounts(t, refs, 0);
  }

  lemma NewAccounts(t: Strings, refs: seq<nat>, i: byte, s: bytes)
    requires Accounts(t, refs) && i != 0 && i !in t
    ensures Accounts(t[i := Counter(s, 1)], refs[i := refs[i] + 1])
  {
    assert refs[i] == 0;
  }

  lemma UseAccounts(t: Strings, refs: seq<nat>, i: byte)
    requires Accounts(t, refs) && (i == 0 || refs[i] > 0)
    ensures Accounts(Use(t, i), refs[i := refs[i] + 1])
  {
  }

  /** Letting go of one reference keeps the books exactly when the 8-bit counter does not reach zero too early. */
  lemma ReleaseAccounts(t: Strings, refs: seq<nat>, i: byte)
    requires Accounts(t, refs) && refs[i] > 0
    ensures Accounts(Release(t, i), refs[i := refs[i] - 1]) <==> i == 0 || refs[i] == 1 || refs[i] % 256 != 1
  {
    var t', refs' := Release(t, i), refs[i := refs[i] - 1];
    if i != 0 {
      assert i in t && t[i].used == refs[i] % 256;
      assert (t[i].used + 255) % 256 == refs'[i] % 256;
      assert forall j: byte :: j != i ==> (j in t' <==> j in t) && (j in t ==> t'[j] == t[j]) && refs'[j] == refs[j];
      assert i in t' <==> refs'[i] % 256 != 0;
    }
  }

  /** Texts do not change while they are stored. */
  lemma TextsStay(t: Strings, s: bytes, i: byte, j: byte)
    requires j in t
    ensures Str(Intern(t, s).0, j) == Str(t, j)
    ensures Str(Use(t, i), j) == Str(t, j)
    ensures j in Release(t, i) ==> Str(Release(t, i), j) == Str(t, j)
  {
  }

  // ---------- Lookup ----------

  /** `strToIndex`, for a NUL-free key: the lowest index extending the key, else the lowest free one, else 0. */
  lemma InternFinds(t: Strings, s: bytes)
    requires NulFree(s) && 0 !in t
    ensures var (t', r) := Intern(t, s);
            && (forall j :: j in t && s <= t[j].str ==> r in t && r <= j && s <= t[r].str)
            && ((forall j :: j in t ==> !(s <= t[j].str)) && r != 0 ==>
                  r !in t && t'[r] == Counter(s, 1) && forall j: byte :: 1 <= j < r ==> j in t)
            && (r == 0 <==> (forall j :: j in t ==> !(s <= t[j].str)) && (forall j: byte :: 1 <= j ==> j in t))
  {
    forall j | j in t ensures StrncmpEqual(t[j].str, s) <==> s <= t[j].str {
      StrncmpIsPrefix(t[j].str, s);
    }
  }

  ghost predicate Stored(t: Strings, s: bytes) {
    exists i :: i in t && t[i].str == s
  }

  /** No stored string is longer than `s` and starts with it. */
  ghost predicate NoneExtends(t: Strings, s: bytes) {
    forall i :: i in t && s <= t[i].str ==> t[i].str == s
  }

  /** A stored text is found if no lower index extends it; a new one is stored if nothing extends it and there is
      room. */
  ghost predicate FoundExactly(t: Strings, s: bytes) {
    if Stored(t, s) then forall i, j :: i in t && t[i].str == s && j in t && j < i ==> !(s <= t[j].str)
    else (forall j :: j in t ==> !(s <= t[j].str)) && exists j: byte :: 1 <= j && j !in t
  }

  /** The index handed out names exactly the text asked for in these cases and no others. */
  lemma InternIsExact(t: Strings, s: bytes)
    requires NulFree(s) && Distinct(t)
    ensures Str(Intern(t, s).0, Intern(t, s).1) == s <==> FoundExactly(t, s)
  {
    InternFinds(t, s);
    var (t', r) := Intern(t, s);
    if Stored(t, s) {
      var i :| i in t && t[i].str == s;
      assert s <= t[i].str;
      assert r in t && r <= i && Str(t', r) == t[r].str;
    }
  }

  /** In particular: nothing strictly extends the text, and either it is there or an index is free. */
  lemma InternExact(t: Strings, s: bytes)
    requires NulFree(s) && Distinct(t) && NoneExtends(t, s)
    requires Stored(t, s) || exists j: byte :: 1 <= j && j !in t
    ensures var (t', r) := Intern(t, s); r != 0 && r in t' && t'[r].str == s
  {
    InternFinds(t, s);
  }

  /** For stored strings, same index, same text and `matches` are the same thing. */
  lemma MatchesIsTextEquality(t: Strings, i: byte, j: byte)
    requires Distinct(t) && i in t && j in t
    ensures Matches(t, i, j) <==> i == j
    ensures Matches(t, i, j) <==> Str(t, i) == Str(t, j)
  {
  }

  // ---------- Temporaries ----------

  lemma UseRelease(t: Strings, i: byte)
    requires i in t && t[i].used != 0
    ensures Release(Use(t, i), i) == t
  {
    var t' := Use(t, i);
    assert (t'[i].used + 255) % 256 == t[i].used;
  }

  lemma LowestIs(t: Strings, s: bytes, r: byte)
    requires r in t && StrncmpEqual(t[r].str, s)
    requires forall j: byte :: j < r && j in t ==> !StrncmpEqual(t[j].str, s)
    ensures LowestMatch(t, s, 0) == r
  {
  }

  lemma MatchAgain(t: Strings, s: bytes)
    requires 0 !in t
    ensures Intern(t, s).1 != 0 ==> LowestMatch(Intern(t, s).0, s, 0) == Intern(t, s).1
  {
    var n := LowestMatch(t, s, 0);
    var (t', r) := Intern(t, s);
    if r != 0 {
      StrncmpReflexive(s);
      assert StrncmpEqual(t'[r].str, s);
      forall j: byte | j < r && j in t' ensures !StrncmpEqual(t'[j].str, s) {
        assert j in t && t'[j].str == t[j].str;
        assert j < n;
      }
      LowestIs(t', s, r);
    }
  }

  /** Asking again for a text just interned gives the same index, and letting go of it restores the table. */
  lemma InternAgain(t: Strings, s: bytes)
    requires 0 !in t
    ensures var (t', r) := Intern(t, s);
            && Intern(t', s).1 == r
            && (r == 0 || t'[r].used != 0 ==> Release(Intern(t', s).0, r) == t')
  {
    var (t', r) := Intern(t, s);
    MatchAgain(t, s);
    if r == 0 {
      assert t' == t;
    } else if t'[r].used != 0 {
      UseRelease(t', r);
    }
  }
}
