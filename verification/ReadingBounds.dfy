/** How far SUBSCRIBE, UNSUBSCRIBE and CONNECT read: the end of what they read as a function of the length fields, and
    what follows when it lies inside the packet. */
module ReadingBounds {
  import opened Bytes
  import opened Codec
  import opened Interner
  import opened Broker

  function Max(a: nat, b: nat): nat {
    if a < b then b else a
  }

  lemma SameLength(b: bytes, one: nat -> byte, other: nat -> byte, p: nat)
    requires p + 2 <= |b|
    ensures StringLength(b, one, p) == StringLength(b, other, p)
  {
  }

  lemma SameSlice(b: bytes, one: nat -> byte, other: nat -> byte, p: nat, n: nat)
    requires p + n <= |b|
    ensures Slice(b, one, p, n) == Slice(b, other, p, n)
  {
  }

  // ---------- SUBSCRIBE and UNSUBSCRIBE ----------

  /** Where the filter after the one at `p` begins. */
  function NextFilter(b: bytes, beyond: nat -> byte, p: nat, subscribe: bool): (q: nat)
    ensures q >= p + 2
  {
    After(b, beyond, p) + if subscribe then 1 else 0
  }

  /** One past the last byte read for the filter at `p`: its length, as much of the topic as eight bits of length say,
      and for SUBSCRIBE the quality of service behind all of it. */
  function FilterEnd(b: bytes, beyond: nat -> byte, p: nat, subscribe: bool): nat {
    Max(p + 2 + StringLength(b, beyond, p) % 256, if subscribe then NextFilter(b, beyond, p, subscribe) else 0)
  }

  /** One past the last byte the loop reads, 0 if it reads none. */
  function WalkEnd(b: bytes, beyond: nat -> byte, p: nat, subscribe: bool): nat
    decreases |b| - p
  {
    if p >= |b| then 0
    else Max(FilterEnd(b, beyond, p, subscribe), WalkEnd(b, beyond, NextFilter(b, beyond, p, subscribe), subscribe))
  }

  lemma SameFilter(b: bytes, one: nat -> byte, other: nat -> byte, p: nat, subscribe: bool)
    requires FilterEnd(b, one, p, subscribe) <= |b|
    ensures StringLength(b, one, p) == StringLength(b, other, p)
    ensures NextFilter(b, one, p, subscribe) == NextFilter(b, other, p, subscribe)
    ensures FilterEnd(b, one, p, subscribe) == FilterEnd(b, other, p, subscribe)
  {
    SameLength(b, one, other, p);
  }

  lemma SameTake(r: TopicsResult, b: bytes, one: nat -> byte, other: nat -> byte, p: nat, subscribe: bool)
    requires FilterEnd(b, one, p, subscribe) <= |b|
    ensures TakeTopic(r, b, one, p, subscribe) == TakeTopic(r, b, other, p, subscribe)
    ensures TakeTopic(r, b, one, p, subscribe).1 == NextFilter(b, one, p, subscribe)
  {
    SameFilter(b, one, other, p, subscribe);
    SameSlice(b, one, other, p + 2, StringLength(b, one, p) % 256);
  }

  /** Whether the loop reads behind the packet is decided by the packet alone, and if it does not, so is the outcome. */
  lemma {:induction false} WalkStaysInside(r: TopicsResult, b: bytes, one: nat -> byte, other: nat -> byte, p: nat,
                                           subscribe: bool)
    requires WalkEnd(b, one, p, subscribe) <= |b|
    ensures WalkEnd(b, other, p, subscribe) == WalkEnd(b, one, p, subscribe)
    ensures WalkTopics(r, b, one, p, subscribe) == WalkTopics(r, b, other, p, subscribe)
    decreases |b| - p
  {
    if p < |b| {
      SameFilter(b, one, other, p, subscribe);
      SameTake(r, b, one, other, p, subscribe);
      WalkStaysInside(TakeTopic(r, b, one, p, subscribe).0, b, one, other, NextFilter(b, one, p, subscribe), subscribe);
    }
  }

  /** The length stored at `p`, which lies in the packet. */
  function Length(b: bytes, p: nat): nat
    requires p + 2 <= |b|
  {
    b[p] as nat * 256 + b[p + 1] as nat
  }

  /** The same condition in terms of the length fields that are there. */
  predicate WellInside(b: bytes, p: nat, subscribe: bool)
    decreases |b| - p
  {
    p >= |b|
    || (&& p + 2 <= |b|
        && p + 2 + Length(b, p) % 256 <= |b|
        && (subscribe ==> p + 2 + Length(b, p) < |b|)
        && WellInside(b, p + 2 + Length(b, p) + if subscribe then 1 else 0, subscribe))
  }

  lemma FilterInside(b: bytes, beyond: nat -> byte, p: nat, subscribe: bool)
    ensures FilterEnd(b, beyond, p, subscribe) <= |b| <==>
            && p + 2 <= |b| && p + 2 + Length(b, p) % 256 <= |b|
            && (subscribe ==> p + 2 + Length(b, p) < |b|)
    ensures p + 2 <= |b| ==> NextFilter(b, beyond, p, subscribe) == p + 2 + Length(b, p) + if subscribe then 1 else 0
  {
  }

  /** The loop stays inside the packet, whatever lies behind it, exactly when every filter it comes to does. */
  lemma {:induction false} WalkInsideExactly(b: bytes, beyond: nat -> byte, p: nat, subscribe: bool)
    ensures WalkEnd(b, beyond, p, subscribe) <= |b| <==> WellInside(b, p, subscribe)
    decreases |b| - p
  {
    if p < |b| {
      FilterInside(b, beyond, p, subscribe);
      WalkInsideExactly(b, beyond, NextFilter(b, beyond, p, subscribe), subscribe);
    }
  }

  /** A SUBSCRIBE that announces 200 bytes of topic and has one. */
  lemma ShortTopicReadsBehind()
    ensures !WellInside([0x82, 5, 0, 1, 0, 200, 97], 4, true)
  {
  }

  // ---------- CONNECT ----------

  /** One past the last byte of a credential at `p`. */
  function CredentialEnd(b: bytes, beyond: nat -> byte, p: nat): nat {
    p + 2 + StringLength(b, beyond, p) % 256
  }

  /** What `LoginOk` says of the user name, after which the password is looked at. */
  predicate UserPasses(b: bytes, beyond: nat -> byte, p: nat, flags: byte, auth: Auth) {
    if flags >= 128 then auth.userOk(Credential(b, beyond, p)) else !auth.hasPassword
  }

  /** One past the last byte read for the credentials at `p`; the password is not read if the user name fails. */
  function LoginEnd(b: bytes, beyond: nat -> byte, p: nat, flags: byte, auth: Auth): nat {
    var user := if flags >= 128 then CredentialEnd(b, beyond, p) else 0;
    if !UserPasses(b, beyond, p, flags, auth) then user
    else
      var p' := if flags >= 128 then After(b, beyond, p) else p;
      Max(user, if flags / 64 % 2 == 1 then CredentialEnd(b, beyond, p') else 0)
  }

  /** Where the will ends, and how far it is read: its two strings are passed over, only their lengths are read. */
  function WillNext(b: bytes, beyond: nat -> byte, p: nat, flags: byte): nat {
    if flags / 4 % 2 == 1 then After(b, beyond, After(b, beyond, p)) else p
  }

  function WillEnd(b: bytes, beyond: nat -> byte, p: nat, flags: byte): nat {
    if flags / 4 % 2 == 1 then Max(p + 2, After(b, beyond, p) + 2) else 0
  }

  predicate KnownProtocol(b: bytes, beyond: nat -> byte, h: nat) {
    Slice(b, beyond, h + 2, 4) == [77, 81, 84, 84] && At(b, beyond, h + 6) == 4
  }

  /** One past the last byte a CONNECT with variable header at `h` makes the source read. */
  function ConnectEnd(b: bytes, beyond: nat -> byte, h: nat, auth: Auth): nat {
    if !KnownProtocol(b, beyond, h) then h + 10
    else
      var flags, p := At(b, beyond, h + 7), After(b, beyond, h + 10);
      Max(p, Max(WillEnd(b, beyond, p, flags), LoginEnd(b, beyond, WillNext(b, beyond, p, flags), flags, auth)))
  }

  lemma SameCredential(b: bytes, one: nat -> byte, other: nat -> byte, p: nat)
    requires CredentialEnd(b, one, p) <= |b|
    ensures CredentialEnd(b, other, p) == CredentialEnd(b, one, p) && After(b, other, p) == After(b, one, p)
    ensures Credential(b, other, p) == Credential(b, one, p)
  {
    SameLength(b, one, other, p);
    SameSlice(b, one, other, p + 2, StringLength(b, one, p) % 256);
  }

  lemma LoginStaysInside(b: bytes, one: nat -> byte, other: nat -> byte, p: nat, flags: byte, auth: Auth)
    requires LoginEnd(b, one, p, flags, auth) <= |b|
    ensures LoginEnd(b, other, p, flags, auth) == LoginEnd(b, one, p, flags, auth)
    ensures LoginOk(b, other, p, flags, auth) == LoginOk(b, one, p, flags, auth)
  {
    if flags >= 128 {
      SameCredential(b, one, other, p);
    }
    if UserPasses(b, one, p, flags, auth) && flags / 64 % 2 == 1 {
      SameCredential(b, one, other, if flags >= 128 then After(b, one, p) else p);
    }
  }

  lemma WillStaysInside(b: bytes, one: nat -> byte, other: nat -> byte, p: nat, flags: byte)
    requires WillEnd(b, one, p, flags) <= |b|
    ensures WillEnd(b, other, p, flags) == WillEnd(b, one, p, flags)
    ensures WillNext(b, other, p, flags) == WillNext(b, one, p, flags)
  {
    if flags / 4 % 2 == 1 {
      SameLength(b, one, other, p);
      SameLength(b, one, other, After(b, one, p));
    }
  }

  lemma HeaderStaysInside(b: bytes, one: nat -> byte, other: nat -> byte, h: nat)
    requires h + 10 <= |b|
    ensures KnownProtocol(b, one, h) == KnownProtocol(b, other, h)
    ensures Slice(b, one, h + 2, 4) == Slice(b, other, h + 2, 4)
    ensures forall i :: h <= i < h + 10 ==> At(b, one, i) == At(b, other, i)
    ensures StringLength(b, one, h + 8) == StringLength(b, other, h + 8)
  {
    SameSlice(b, one, other, h + 2, 4);
    SameLength(b, one, other, h + 8);
  }

  /** What is said of the client's name by the part of CONNECT up to it. */
  lemma NameStaysInside(b: bytes, one: nat -> byte, other: nat -> byte, p: nat)
    requires After(b, one, p) <= |b|
    ensures After(b, other, p) == After(b, one, p) && Field(b, other, p) == Field(b, one, p)
  {
    SameLength(b, one, other, p);
    SameSlice(b, one, other, p + 2, StringLength(b, one, p));
  }

  lemma ConnectBehind(b: bytes, one: nat -> byte, other: nat -> byte, h: nat, auth: Auth)
    requires ConnectEnd(b, one, h, auth) <= |b|
    ensures ConnectEnd(b, other, h, auth) == ConnectEnd(b, one, h, auth)
    ensures h + 10 <= |b| && KnownProtocol(b, one, h) == KnownProtocol(b, other, h)
    ensures KnownProtocol(b, one, h) ==>
              var flags, p := At(b, one, h + 7), After(b, one, h + 10);
              && Field(b, one, h + 10) == Field(b, other, h + 10)
              && LoginOk(b, one, WillNext(b, one, p, flags), flags, auth)
              == LoginOk(b, other, WillNext(b, other, After(b, other, h + 10), flags), flags, auth)
  {
    HeaderStaysInside(b, one, other, h);
    if KnownProtocol(b, one, h) {
      var flags, p := At(b, one, h + 7), After(b, one, h + 10);
      NameStaysInside(b, one, other, h + 10);
      WillStaysInside(b, one, other, p, flags);
      LoginStaysInside(b, one, other, WillNext(b, one, p, flags), flags, auth);
    }
  }

  /** Whether CONNECT reads behind the packet is decided by the packet and the login alone, and if it does not, so is
      the outcome. */
  lemma ConnectStaysInside(m: Msg, one: nat -> byte, other: nat -> byte, auth: Auth)
    requires ConnectEnd(m.buffer, one, m.vheader as nat, auth) <= |m.buffer|
    ensures ConnectEnd(m.buffer, other, m.vheader as nat, auth) == ConnectEnd(m.buffer, one, m.vheader as nat, auth)
    ensures Connect(m, one, auth) == Connect(m, other, auth)
  {
    ConnectBehind(m.buffer, one, other, m.vheader as nat, auth);
    HeaderStaysInside(m.buffer, one, other, m.vheader as nat);
  }
}
