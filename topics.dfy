/** The device's topic root and its heartbeat topic (src/mqtt.cpp).
    A string here stands for the contents of a NUL-terminated C buffer, up to and
    not including the terminator; running off the end of a string means meeting
    its terminator. One Dafny `char` stands for one byte of the C buffer, so every
    length and buffer size below counts bytes. */
module Topics {

  /** mqTopic is a 65-byte buffer: at most 64 characters and the terminator. */
  const TopicBufferSize: nat := 65
  const MaxTopicLen: nat := TopicBufferSize - 1

  /** The identity is copied into a 41-byte buffer before a root is derived from it. */
  const IdentBufferSize: nat := 41
  const MaxIdentLen: nat := IdentBufferSize - 1

  /** The buffer in which the subscribe and unsubscribe paths build the heartbeat topic. */
  const SubscribeBufferSize: nat := 75

  /** The buffer in which the heartbeat publish builds its topic (`char topic[41+6]`). */
  const PublishBufferSize: nat := 41 + 6

  const PingSuffix: string := "/ping"

  function Min(a: int, b: int): (m: int)
  {
    if a <= b then a else b
  }

  /** The heartbeat topic under a root. */
  function PingTopic(root: string): (t: string)
  {
    root + PingSuffix
  }

  /** A C string fits a buffer when it and its terminator do. */
  predicate Fits(s: string, size: nat)
  {
    |s| + 1 <= size
  }

  // ---------------------------------------------------------------------------
  // Recognising the heartbeat echo

  /** strncmp(a, b, n) == 0: the first n characters agree, a terminator
      counting as a character that differs from every other one. */
  function StrNEq(a: string, b: string, n: nat): (equal: bool)
    decreases n
  {
    if n == 0 then true
    else if a == [] || b == [] then a == b
    else a[0] == b[0] && StrNEq(a[1..], b[1..], n - 1)
  }

  /** strncmp compares the first n characters of each string, or all of a shorter one. */
  lemma {:induction false} StrNEqPrefixes(a: string, b: string, n: nat)
    ensures StrNEq(a, b, n) <==> a[..Min(n, |a|)] == b[..Min(n, |b|)]
    decreases n
  {
    if n != 0 && a != [] && b != [] {
      StrNEqPrefixes(a[1..], b[1..], n - 1);
      assert a[..Min(n, |a|)] == [a[0]] + a[1..][..Min(n - 1, |a| - 1)];
      assert b[..Min(n, |b|)] == [b[0]] + b[1..][..Min(n - 1, |b| - 1)];
    }
  }

  /** The three-part test the message handler applies to an incoming topic t:
      its length is rootLen + 5, its first rootLen characters match the root,
      and what follows them is "/ping". */
  predicate PingTopicMatches(t: string, root: string, rootLen: nat)
  {
    |t| == rootLen + 5 && StrNEq(t, root, rootLen) && t[rootLen..] == PingSuffix
  }

  /** With the length kept in sync with the root, the three-part test is
      exactly string equality with the heartbeat topic. */
  lemma PingTopicMatchesIff(t: string, root: string)
    ensures PingTopicMatches(t, root, |root|) <==> t == PingTopic(root)
  {
    StrNEqPrefixes(t, root, |root|);
    if t == PingTopic(root) {
      assert t[..|root|] == root;
      assert t[|root|..] == PingSuffix;
    }
  }

  // ---------------------------------------------------------------------------
  // Deriving the root from the identity

  /** strchr(s + from, c) as an index into s: the first position at or after
      from that holds c, or |s| (the NULL result) when there is none. */
  function StrChr(s: string, from: nat, c: char): (r: nat)
    requires from <= |s|
    ensures from <= r <= |s|
    ensures r < |s| ==> s[r] == c
    ensures forall k :: from <= k < r ==> s[k] != c
    decreases |s| - from
  {
    if from == |s| then |s|
    else if s[from] == c then from
    else StrChr(s, from + 1, c)
  }

  /** The root derived from an identity: every '-' becomes '/'. */
  function Slashed(ident: string): (r: string)
    ensures |r| == |ident|
    ensures forall i :: 0 <= i < |ident| ==> r[i] == (if ident[i] == '-' then '/' else ident[i])
    ensures '-' !in r
  {
    if ident == [] then []
    else [if ident[0] == '-' then '/' else ident[0]] + Slashed(ident[1..])
  }

  /** The identity "device-123" yields the root "device/123" and the heartbeat
      topic "device/123/ping". */
  lemma SlashedExample()
    ensures Slashed("device-123") == "device/123"
    ensures PingTopic(Slashed("device-123")) == "device/123/ping"
  {
  }

  /** The derivation loop: repeatedly find the next '-' with strchr, starting
      from the position just rewritten, and overwrite it with '/'. */
  method ReplaceDashes(buf: array<char>)
    modifies buf
    ensures buf[..] == Slashed(old(buf[..]))
  {
    ghost var target := Slashed(buf[..]);
    var dash := StrChr(buf[..], 0, '-');
    while dash < buf.Length
      invariant dash <= buf.Length
      invariant dash < buf.Length ==> buf[dash] == '-'
      invariant forall k :: 0 <= k < dash ==> buf[k] == target[k]
      invariant forall k :: dash <= k < buf.Length ==> buf[k] == old(buf[k])
      decreases buf.Length - dash
    {
      buf[dash] := '/';
      dash := StrChr(buf[..], dash, '-');
    }
  }

  // ---------------------------------------------------------------------------
  // Buffer sizes for the heartbeat topic

  /** As written, the publish path builds the heartbeat topic in a 47-byte
      buffer, yet a root may hold up to 64 characters: some storable root
      makes that topic overflow the buffer. */
  lemma PublishBufferOverflow()
    ensures exists root: string :: |root| <= MaxTopicLen && !Fits(PingTopic(root), PublishBufferSize)
  {
    var root := seq(MaxTopicLen, _ => 'a');
    assert |PingTopic(root)| == MaxTopicLen + 5;
    assert !Fits(PingTopic(root), PublishBufferSize);
  }

  /** The 47-byte publish buffer holds the heartbeat topic exactly when the
      root has at most 41 characters. */
  lemma PublishBufferLimit(root: string)
    ensures Fits(PingTopic(root), PublishBufferSize) <==> |root| <= 41
  {
  }

  /** The 75-byte buffer of the subscribe path holds the heartbeat topic of
      every storable root; the model builds every heartbeat topic this way. */
  lemma PingTopicFitsSubscribeBuffer(root: string)
    requires |root| <= MaxTopicLen
    ensures Fits(PingTopic(root), SubscribeBufferSize)
  {
  }
}
