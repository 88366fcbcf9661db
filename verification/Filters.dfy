/** The topic filters of SUBSCRIBE and UNSUBSCRIBE: how the loop reads them, and what it makes of them. */
module Filters {
  import opened Bytes
  import opened Codec
  import opened Interner
  import opened Broker
  import opened BrokerInv

  /** A topic filter and the quality of service asked for, which only SUBSCRIBE carries. */
  datatype Filter = Filter(text: bytes, qos: byte)

  function FilterBytes(f: Filter, subscribe: bool): bytes {
    Prefixed(f.text) + if subscribe then [f.qos] else []
  }

  /** The filters as sections 3.8.3 and 3.10.3 of MQTT 3.1.1 lay them out. */
  function ListOf(fs: seq<Filter>, subscribe: bool): bytes {
    if fs == [] then [] else FilterBytes(fs[0], subscribe) + ListOf(fs[1..], subscribe)
  }

  function Code(f: Filter): byte {
    if f.qos != 0 then 0x80 else 0
  }

  /** The return codes, one for each filter in order: 0x80 exactly where a quality of service is asked for. */
  function Codes(fs: seq<Filter>): (r: bytes)
    ensures |r| == |fs| && forall i :: 0 <= i < |fs| ==> r[i] == Code(fs[i])
  {
    seq<byte>(|fs|, (i: nat) requires i < |fs| => Code(fs[i]))
  }

  // ---------- Reading ----------

  /** What the filters ask for, done one after the other. */
  function TakeFilter(r: TopicsResult, f: Filter, subscribe: bool): TopicsResult {
    var text := TopicText(f.text);
    if subscribe then
      var (t, subs) := InsertTopic(r.strings, r.subs, text);
      TopicsResult(t, subs, r.codes + [Code(f)])
    else
      var (t, subs) := EraseTopic(r.strings, r.subs, text);
      TopicsResult(t, subs, r.codes)
  }

  function TakeFilters(r: TopicsResult, fs: seq<Filter>, subscribe: bool): TopicsResult
    decreases |fs|
  {
    if fs == [] then r else TakeFilters(TakeFilter(r, fs[0], subscribe), fs[1..], subscribe)
  }

  predicate AllShort(fs: seq<Filter>) {
    forall i :: 0 <= i < |fs| ==> |fs[i].text| < 65536
  }

  /** The rest of the packet from `p` is this list. */
  predicate ListAt(b: bytes, p: nat, fs: seq<Filter>, subscribe: bool) {
    p <= |b| && b[p..] == ListOf(fs, subscribe)
  }

  lemma HeadText(b: bytes, beyond: nat -> byte, p: nat, text: bytes)
    requires |text| < 65536 && p <= |b| && Prefixed(text) <= b[p..]
    ensures StringLength(b, beyond, p) == |text| && After(b, beyond, p) == p + 2 + |text| <= |b|
    ensures Slice(b, beyond, p + 2, |text| % 256) == TopicText(text)
  {
    ReadPrefixed(b, beyond, p, text);
    assert Slice(b, beyond, p + 2, |text|)[..|text| % 256] == Slice(b, beyond, p + 2, |text| % 256);
  }

  /** Where the first filter ends the second begins. */
  lemma HeadSplit(b: bytes, p: nat, fs: seq<Filter>, subscribe: bool)
    requires ListAt(b, p, fs, subscribe) && fs != []
    ensures var q := p + 2 + |fs[0].text|;
            && p < |b| && Prefixed(fs[0].text) <= b[p..] && q <= |b|
            && (subscribe ==> q < |b| && b[q] == fs[0].qos)
            && ListAt(b, if subscribe then q + 1 else q, fs[1..], subscribe)
  {
    var head, tail := FilterBytes(fs[0], subscribe), ListOf(fs[1..], subscribe);
    var next := p + |head|;
    assert b[p..] == head + tail;
    assert b[next..] == b[p..][|head|..] == tail;
    if subscribe {
      assert b[p..][|head| - 1] == fs[0].qos;
    }
  }

  lemma TakeHead(r: TopicsResult, b: bytes, beyond: nat -> byte, p: nat, f: Filter, subscribe: bool)
    requires |f.text| < 65536 && p <= |b| && Prefixed(f.text) <= b[p..]
    requires var q := p + 2 + |f.text|; subscribe ==> q < |b| && b[q] == f.qos
    ensures TakeTopic(r, b, beyond, p, subscribe) ==
            (TakeFilter(r, f, subscribe), p + 2 + |f.text| + if subscribe then 1 else 0)
  {
    HeadText(b, beyond, p, f.text);
  }

  /** The loop reads exactly the filters that are there, in order, whatever lies behind the packet. */
  lemma {:induction false} WalkReads(r: TopicsResult, b: bytes, beyond: nat -> byte, p: nat, fs: seq<Filter>,
                                     subscribe: bool)
    requires ListAt(b, p, fs, subscribe) && AllShort(fs)
    ensures WalkTopics(r, b, beyond, p, subscribe) == TakeFilters(r, fs, subscribe)
    decreases |fs|
  {
    if fs != [] {
      HeadSplit(b, p, fs, subscribe);
      TakeHead(r, b, beyond, p, fs[0], subscribe);
      var (r', p') := TakeTopic(r, b, beyond, p, subscribe);
      WalkReads(r', b, beyond, p', fs[1..], subscribe);
    }
  }

  /** The return codes: the list's own for SUBSCRIBE, none for UNSUBSCRIBE. */
  lemma {:induction false} CodesRead(r: TopicsResult, fs: seq<Filter>, subscribe: bool)
    ensures TakeFilters(r, fs, subscribe).codes == r.codes + if subscribe then Codes(fs) else []
    decreases |fs|
  {
    if fs == [] {
      assert r.codes + [] == r.codes;
    } else {
      CodesRead(TakeFilter(r, fs[0], subscribe), fs[1..], subscribe);
      if subscribe {
        assert r.codes + [Code(fs[0])] + Codes(fs[1..]) == r.codes + Codes(fs);
      }
    }
  }

  // ---------- Meaning ----------

  /** The texts a client is subscribed to. */
  ghost function TextSet(t: Strings, subs: set<byte>): set<bytes> {
    set s | s in subs && s in t :: t[s].str
  }

  ghost function SetOf(texts: seq<bytes>): set<bytes> {
    set x | x in texts
  }

  function TextsOf(fs: seq<Filter>): (r: seq<bytes>)
    ensures |r| == |fs|
  {
    seq<bytes>(|fs|, (i: nat) requires i < |fs| => fs[i].text)
  }

  lemma {:induction false} RangeSize(n: nat) returns (r: set<byte>)
    requires n < 256
    ensures |r| == n && forall i: byte :: i in r <==> 1 <= i <= n
  {
    if n == 0 {
      r := {};
    } else {
      r := RangeSize(n - 1);
      r := r + {n};
    }
  }

  lemma FreeIndex(t: Strings)
    requires 0 !in t && |t| < 255
    ensures exists j: byte :: 1 <= j && j !in t
  {
    var r := RangeSize(255);
    if r <= t.Keys {
      SubsetSize(r, t.Keys);
    }
    var j :| j in r && j !in t.Keys;
  }

  ghost function NewTexts(t: Strings, texts: seq<bytes>): set<bytes> {
    set x | x in texts && !Stored(t, x)
  }

  /** Topics that a string table can take in one by one, each under its own name: there is room for the new ones. */
  ghost predicate Takeable(t: Strings, texts: seq<bytes>) {
    && |t| + |NewTexts(t, texts)| <= 255
    && (forall i :: 0 <= i < |texts| ==> NulFree(texts[i]) && |texts[i]| <= 255 && NoneExtends(t, texts[i]))
    && Independent(texts)
  }

  /** No text is strictly extended by an earlier one. */
  ghost predicate Independent(texts: seq<bytes>) {
    forall i, j :: 0 <= i < j < |texts| && texts[j] <= texts[i] ==> texts[j] == texts[i]
  }

  lemma IndependentTail(texts: seq<bytes>)
    requires texts != [] && Independent(texts)
    ensures Independent(texts[1..])
    ensures forall k :: 0 <= k < |texts| - 1 && texts[1..][k] <= texts[0] ==> texts[1..][k] == texts[0]
  {
    forall k | 0 <= k < |texts| - 1 ensures texts[1..][k] == texts[k + 1] {
    }
  }

  lemma LiveTopics(t: Strings, base: seq<nat>, subs: set<byte>)
    requires |base| == 256 && Accounts(t, With(base, subs))
    ensures forall s :: s in subs && s != 0 ==> s in t
  {
    forall s | s in subs && s != 0 ensures s in t {
      assert With(base, subs)[s] > 0;
    }
  }

  /** The table `t'` is `t` with text `x` under index `i`. */
  ghost predicate Took(t: Strings, t': Strings, i: byte, x: bytes) {
    && i in t' && t'[i].str == x && t'.Keys == t.Keys + {i} && (Stored(t, x) ==> i in t)
    && forall j :: j in t ==> t'[j].str == t[j].str
  }

  /** Inserting a topic drops nothing from the table. */
  lemma InsertDropsNothing(t: Strings, base: seq<nat>, subs: set<byte>, x: bytes)
    requires Room(base) && Accounts(t, With(base, subs))
    ensures t.Keys <= InsertTopic(t, subs, x).0.Keys
  {
    InsertKeeps(t, base, subs, x);
    var subs' := InsertTopic(t, subs, x).1;
    forall j | j in t ensures j in InsertTopic(t, subs, x).0 {
      assert With(base, subs)[j] > 0 && With(base, subs')[j] >= With(base, subs)[j];
    }
  }

  lemma InsertTook(t: Strings, base: seq<nat>, subs: set<byte>, x: bytes)
    requires Room(base) && Distinct(t) && Accounts(t, With(base, subs)) && (Stored(t, x) || |t| < 255)
    requires NulFree(x) && NoneExtends(t, x)
    ensures Took(t, InsertTopic(t, subs, x).0, Intern(t, x).1, x)
  {
    if !Stored(t, x) {
      FreeIndex(t);
    }
    InternExact(t, x);
    InternFinds(t, x);
    InsertDropsNothing(t, base, subs, x);
    InsertKeeps(t, base, subs, x);
    LiveTopics(InsertTopic(t, subs, x).0, base, InsertTopic(t, subs, x).1);
    TookText(t, subs, x);
  }

  lemma TookNoneExtends(t: Strings, t': Strings, i: byte, x: bytes, y: bytes)
    requires Took(t, t', i, x) && NoneExtends(t, y) && (y <= x ==> y == x)
    ensures NoneExtends(t', y)
  {
  }

  lemma TookTakeable(t: Strings, t': Strings, i: byte, texts: seq<bytes>)
    requires texts != [] && Takeable(t, texts) && Took(t, t', i, texts[0])
    ensures Takeable(t', texts[1..])
  {
    TookSize(t, t', i, texts);
    IndependentTail(texts);
    forall k | 0 <= k < |texts| - 1
      ensures NulFree(texts[1..][k]) && |texts[1..][k]| <= 255 && NoneExtends(t', texts[1..][k])
    {
      assert texts[1..][k] == texts[k + 1];
      TookNoneExtends(t, t', i, texts[0], texts[1..][k]);
    }
  }

  lemma TookStores(t: Strings, t': Strings, i: byte, x: bytes, y: bytes)
    requires Took(t, t', i, x) && (y == x || Stored(t, y))
    ensures Stored(t', y)
  {
    if y != x {
      var j :| j in t && t[j].str == y;
      assert j in t' && t'[j].str == y;
    }
  }

  /** Taking one text never makes the room too small for the rest. */
  lemma TookSize(t: Strings, t': Strings, i: byte, texts: seq<bytes>)
    requires texts != [] && Took(t, t', i, texts[0])
    ensures |t'| + |NewTexts(t', texts[1..])| <= |t| + |NewTexts(t, texts)|
  {
    var x, before, after := texts[0], NewTexts(t, texts), NewTexts(t', texts[1..]);
    forall y | y in after ensures y in before - {x} {
      if y == x || Stored(t, y) {
        TookStores(t, t', i, x, y);
      }
    }
    SubsetSize(after, before - {x});
    assert |t'| == |t'.Keys| && |t| == |t.Keys|;
    if i in t {
      assert t'.Keys == t.Keys;
    } else {
      assert x in before;
    }
  }

  lemma {:induction false} SubsetSize<T>(a: set<T>, b: set<T>)
    requires a <= b
    ensures |a| <= |b|
  {
    if a != {} {
      var x :| x in a;
      SubsetSize(a - {x}, b - {x});
    }
  }

  lemma TookTexts(t: Strings, t': Strings, i: byte, x: bytes, subs: set<byte>)
    requires Took(t, t', i, x) && 0 !in t && 0 !in t' && NoneExtends(t, x) && (i in t ==> t[i].str == x)
    requires forall s :: s in subs && s != 0 ==> s in t && s in t'
    ensures TextSet(t', subs + {i}) == TextSet(t, subs) + {x}
  {
    forall y ensures y in TextSet(t', subs + {i}) <==> y in TextSet(t, subs) + {x} {
      if y in TextSet(t', subs + {i}) {
        var s :| s in subs + {i} && s in t' && t'[s].str == y;
        assert s == i || (s in t && t[s].str == y);
      }
      if y in TextSet(t, subs) {
        var s :| s in subs && s in t && t[s].str == y;
        assert s in t' && t'[s].str == y;
      }
      if y == x {
        assert i in subs + {i} && t'[i].str == x;
      }
    }
  }

  lemma RoomForFirst(t: Strings, texts: seq<bytes>)
    requires texts != [] && Takeable(t, texts)
    ensures Stored(t, texts[0]) || |t| < 255
    ensures NulFree(texts[0]) && NoneExtends(t, texts[0])
  {
    if !Stored(t, texts[0]) {
      assert texts[0] in NewTexts(t, texts);
    }
  }

  /** One topic taken: the client has it, and the table can take the rest. */
  lemma TakeOne(t: Strings, base: seq<nat>, subs: set<byte>, texts: seq<bytes>)
    requires Room(base) && Distinct(t) && Accounts(t, With(base, subs)) && texts != [] && Takeable(t, texts)
    ensures var (t', subs') := InsertTopic(t, subs, texts[0]);
            && Distinct(t') && Accounts(t', With(base, subs'))
            && Takeable(t', texts[1..]) && TextSet(t', subs') == TextSet(t, subs) + {texts[0]}
  {
    var x, i := texts[0], Intern(t, texts[0]).1;
    var (t', subs') := InsertTopic(t, subs, x);
    TopicsDistinct(t, subs, x);
    InsertKeeps(t, base, subs, x);
    RoomForFirst(t, texts);
    InsertTook(t, base, subs, x);
    TookTakeable(t, t', i, texts);
    LiveTopics(t, base, subs);
    LiveTopics(t', base, subs');
    InternOld(t, x);
    TookTexts(t, t', i, x, subs);
  }

  lemma InternOld(t: Strings, x: bytes)
    requires NulFree(x) && NoneExtends(t, x) && 0 !in t
    ensures Intern(t, x).1 in t ==> t[Intern(t, x).1].str == x
  {
    InternFinds(t, x);
  }

  lemma TookText(t: Strings, subs: set<byte>, x: bytes)
    requires 0 !in t
    ensures var (t', subs') := InsertTopic(t, subs, x);
            var (t1, i) := Intern(t, x);
            && t'.Keys <= t.Keys + {i}
            && (forall j :: j in t' && j in t ==> t'[j].str == t[j].str)
            && (i in t' ==> i in t1 && t'[i].str == t1[i].str)
  {
  }

  /** The table can take these filters on top of its present references. */
  ghost predicate Ready(r: TopicsResult, base: seq<nat>, fs: seq<Filter>) {
    && Room(base) && Distinct(r.strings) && Accounts(r.strings, With(base, r.subs))
    && Takeable(r.strings, TextsOf(fs))
  }

  lemma TakeReady(r: TopicsResult, base: seq<nat>, fs: seq<Filter>)
    requires Ready(r, base, fs) && fs != []
    ensures var r' := TakeFilter(r, fs[0], true);
            Ready(r', base, fs[1..]) && TextSet(r'.strings, r'.subs) == TextSet(r.strings, r.subs) + {fs[0].text}
  {
    assert TextsOf(fs)[0] == fs[0].text && TextsOf(fs)[1..] == TextsOf(fs[1..]);
    assert TopicText(fs[0].text) == fs[0].text;
    TakeOne(r.strings, base, r.subs, TextsOf(fs));
  }

  lemma SetOfCons(fs: seq<Filter>)
    requires fs != []
    ensures SetOf(TextsOf(fs)) == {fs[0].text} + SetOf(TextsOf(fs[1..]))
  {
    assert TextsOf(fs) == [fs[0].text] + TextsOf(fs[1..]);
  }

  /** SUBSCRIBE adds every topic it names, also those it answers with 0x80. */
  lemma {:induction false} SubscribeAddsAll(r: TopicsResult, base: seq<nat>, fs: seq<Filter>)
    requires Ready(r, base, fs)
    ensures var r' := TakeFilters(r, fs, true);
            TextSet(r'.strings, r'.subs) == TextSet(r.strings, r.subs) + SetOf(TextsOf(fs))
    decreases |fs|
  {
    if fs != [] {
      TakeReady(r, base, fs);
      SubscribeAddsAll(TakeFilter(r, fs[0], true), base, fs[1..]);
      SetOfCons(fs);
    }
  }

  /** Looking a topic up to erase it leaves no new string behind and changes none. */
  lemma EraseStrings(t: Strings, base: seq<nat>, subs: set<byte>, x: bytes)
    requires Room(base) && Accounts(t, With(base, subs))
    ensures var t' := EraseTopic(t, subs, x).0; t'.Keys <= t.Keys && forall j :: j in t' ==> t'[j].str == t[j].str
  {
    LiveTopics(t, base, subs);
    EraseKeeps(t, base, subs, x);
  }

  lemma FoundText(t: Strings, x: bytes)
    requires NulFree(x) && NoneExtends(t, x) && Distinct(t)
    ensures forall j :: j in t ==> (t[j].str == x <==> j == Intern(t, x).1)
  {
    InternFinds(t, x);
  }

  /** One topic given up. */
  lemma EraseOne(t: Strings, base: seq<nat>, subs: set<byte>, x: bytes)
    requires Room(base) && Distinct(t) && Accounts(t, With(base, subs)) && NulFree(x) && NoneExtends(t, x)
    ensures var (t', subs') := EraseTopic(t, subs, x); TextSet(t', subs') == TextSet(t, subs) - {x}
  {
    var (t', subs') := EraseTopic(t, subs, x);
    EraseStrings(t, base, subs, x);
    EraseKeeps(t, base, subs, x);
    LiveTopics(t', base, subs');
    FoundText(t, x);
    forall y ensures y in TextSet(t', subs') <==> y in TextSet(t, subs) - {x} {
      if y in TextSet(t, subs) - {x} {
        var s :| s in subs && s in t && t[s].str == y;
        assert s in subs' && s in t' && t'[s].str == y;
      }
    }
  }

  /** The table tells these topics from every other. */
  ghost predicate Separate(t: Strings, texts: seq<bytes>) {
    forall i :: 0 <= i < |texts| ==> NulFree(texts[i]) && |texts[i]| <= 255 && NoneExtends(t, texts[i])
  }

  lemma EraseReady(r: TopicsResult, base: seq<nat>, fs: seq<Filter>)
    requires Room(base) && Distinct(r.strings) && Accounts(r.strings, With(base, r.subs)) && fs != []
    requires Separate(r.strings, TextsOf(fs))
    ensures var r' := TakeFilter(r, fs[0], false);
            && Distinct(r'.strings) && Accounts(r'.strings, With(base, r'.subs))
            && Separate(r'.strings, TextsOf(fs[1..]))
            && TextSet(r'.strings, r'.subs) == TextSet(r.strings, r.subs) - {fs[0].text}
  {
    var x := fs[0].text;
    assert TextsOf(fs)[0] == x && TopicText(x) == x;
    EraseOne(r.strings, base, r.subs, x);
    EraseStrings(r.strings, base, r.subs, x);
    EraseKeeps(r.strings, base, r.subs, x);
    TopicsDistinct(r.strings, r.subs, x);
    assert forall i :: 0 <= i < |fs| - 1 ==> TextsOf(fs[1..])[i] == TextsOf(fs)[i + 1];
  }

  /** UNSUBSCRIBE takes away every topic it names and no other. */
  lemma {:induction false} UnsubscribeRemovesAll(r: TopicsResult, base: seq<nat>, fs: seq<Filter>)
    requires Room(base) && Distinct(r.strings) && Accounts(r.strings, With(base, r.subs))
    requires Separate(r.strings, TextsOf(fs))
    ensures var r' := TakeFilters(r, fs, false);
            TextSet(r'.strings, r'.subs) == TextSet(r.strings, r.subs) - SetOf(TextsOf(fs))
    decreases |fs|
  {
    if fs != [] {
      EraseReady(r, base, fs);
      UnsubscribeRemovesAll(TakeFilter(r, fs[0], false), base, fs[1..]);
      SetOfCons(fs);
    }
  }
}
