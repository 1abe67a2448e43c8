/**
 * The text framing used between the standalone server and its clients: an
 * outgoing message gets the sentinel "END_OF_MSG" appended and is cut into
 * packets of at most 20 characters; incoming packets are appended to one
 * receive buffer, and once the buffer contains the sentinel it is delivered with
 * every sentinel occurrence removed and the buffer is emptied.
 *
 * Text is a `seq<char>` of Unicode scalar values. Java's `String.length()`
 * counts UTF-16 units instead, so the two agree only on text inside the Basic
 * Multilingual Plane; no byte bound is claimed.
 */
module Framing {

  const EndMarker: string := "END_OF_MSG"
  const ChunkSize: nat := 20

  function Min(a: int, b: int): int { if a < b then a else b }

  /** `p` occurs in `s` starting at index `i`. */
  predicate OccursAt(s: string, p: string, i: int)
  {
    0 <= i && i + |p| <= |s| && s[i..i + |p|] == p
  }

  /** Java's `s.contains(p)`: `p` occurs at the start of `s` or somewhere after its first character. */
  predicate Contains(s: string, p: string)
    decreases |s|
  {
    |p| <= |s| && (s[..|p|] == p || Contains(s[1..], p))
  }

  /** An occurrence at any index makes `Contains` hold. */
  lemma {:induction false} OccursContains(s: string, p: string, i: int)
    requires OccursAt(s, p, i)
    ensures Contains(s, p)
    decreases i
  {
    if i > 0 {
      assert s[1..][i - 1..i - 1 + |p|] == s[i..i + |p|];
      OccursContains(s[1..], p, i - 1);
    }
  }

  /** `Contains` holds only through an occurrence at some index. */
  lemma {:induction false} ContainsOccurs(s: string, p: string) returns (i: nat)
    requires Contains(s, p)
    ensures OccursAt(s, p, i)
    decreases |s|
  {
    if s[..|p|] == p {
      i := 0;
    } else {
      var j := ContainsOccurs(s[1..], p);
      assert s[1..][j..j + |p|] == s[j + 1..j + 1 + |p|];
      i := j + 1;
    }
  }

  /** Every string contains itself (so `x.contains(x)` is always true). */
  lemma ContainsSelf(s: string)
    ensures Contains(s, s)
  {
    assert s[..|s|] == s;
  }

  /** An occurrence in a prefix is an occurrence in the whole. */
  lemma ContainsExtend(a: string, b: string, p: string)
    requires Contains(a, p)
    ensures Contains(a + b, p)
  {
    var i := ContainsOccurs(a, p);
    assert (a + b)[i..i + |p|] == a[i..i + |p|];
    OccursContains(a + b, p, i);
  }

  /** A text shorter than the pattern cannot contain it. */
  lemma ShortQuiet(s: string, p: string)
    requires |s| < |p|
    ensures !Contains(s, p)
  {
  }

  /** The pattern placed after `x` occurs at index `|x|`. */
  lemma OccursAfter(x: string, p: string, y: string)
    ensures OccursAt(x + p + y, p, |x|)
  {
    assert (x + p + y)[|x|..|x| + |p|] == p;
  }

  /**
   * Java's `s.replace(p, "")`: occurrences of `p` are searched from left to
   * right, each removed one resumes the search after it.
   */
  function RemoveAll(s: string, p: string): (r: string)
    requires |p| > 0
    ensures |r| <= |s|
    decreases |s|
  {
    if |s| < |p| then s
    else if s[..|p|] == p then RemoveAll(s[|p|..], p)
    else [s[0]] + RemoveAll(s[1..], p)
  }

  /** Removing a pattern that does not occur changes nothing. */
  lemma {:induction false} RemoveAllAbsent(s: string, p: string)
    requires |p| > 0 && !Contains(s, p)
    ensures RemoveAll(s, p) == s
    decreases |s|
  {
    if |s| >= |p| {
      RemoveAllAbsent(s[1..], p);
      assert s == [s[0]] + s[1..];
    }
  }

  /**
   * The packets `sendDataToClient` cuts a string into: consecutive pieces of
   * `n` characters, the last one shorter when the length is not a multiple of `n`.
   */
  function Chunks(s: string, n: nat): (r: seq<string>)
    requires n > 0
    ensures forall k :: 0 <= k < |r| ==> 0 < |r[k]| <= n
    ensures forall k :: 0 <= k < |r| - 1 ==> |r[k]| == n
    ensures s != [] ==> |r| > 0
    decreases |s|
  {
    if s == [] then []
    else if |s| <= n then [s]
    else [s[..n]] + Chunks(s[n..], n)
  }

  /** The packets joined in order, as the receive buffer joins them. */
  function Concat(ss: seq<string>): (r: string)
  {
    if ss == [] then [] else ss[0] + Concat(ss[1..])
  }

  /** The joined text is empty exactly when every packet is. */
  lemma {:induction false} ConcatEmpty(ss: seq<string>)
    ensures Concat(ss) == [] <==> forall k | 0 <= k < |ss| :: ss[k] == []
  {
    if ss != [] {
      ConcatEmpty(ss[1..]);
      assert forall k | 1 <= k < |ss| :: ss[k] == ss[1..][k - 1];
    }
  }

  lemma {:induction false} ConcatAppend(a: seq<string>, b: seq<string>)
    ensures Concat(a + b) == Concat(a) + Concat(b)
  {
    if a != [] {
      assert (a + b)[1..] == a[1..] + b;
      ConcatAppend(a[1..], b);
    } else {
      assert a + b == b;
    }
  }

  /** Concatenating the packets in order gives back the string. */
  lemma {:induction false} ChunksConcat(s: string, n: nat)
    requires n > 0
    ensures Concat(Chunks(s, n)) == s
    decreases |s|
  {
    if |s| > n {
      ChunksConcat(s[n..], n);
      assert s == s[..n] + s[n..];
    }
  }

  /** Every packet but the last is full, so `n` times the count overshoots the length by less than `n`. */
  lemma {:induction false} ChunksCountBounds(s: string, n: nat)
    requires n > 0
    ensures |s| <= |Chunks(s, n)| * n < |s| + n
    decreases |s|
  {
    if |s| > n {
      ChunksCountBounds(s[n..], n);
      var c := |Chunks(s[n..], n)|;
      assert (c + 1) * n == c * n + n;
    }
  }

  /** `sendDataToClient` sends ceil((|data| + 10) / 20) packets. */
  lemma PacketCount(data: string)
    ensures |Chunks(data + EndMarker, ChunkSize)| == (|data| + |EndMarker| + ChunkSize - 1) / ChunkSize
  {
    ChunksCountBounds(data + EndMarker, ChunkSize);
  }

  /** Packets past the first are the packets of the rest of the string. */
  lemma ChunksStep(s: string, o: nat, n: nat)
    requires n > 0 && o < |s|
    ensures Chunks(s[o..], n) == [s[o..Min(o + n, |s|)]] + Chunks(s[Min(o + n, |s|)..], n)
  {
    var t := s[o..];
    if |t| > n {
      assert t[..n] == s[o..o + n];
      assert t[n..] == s[o + n..];
    } else {
      assert s[o..Min(o + n, |s|)] == t;
      assert s[|s|..] == [];
    }
  }

  /** One turn of the send loop: the packets sent so far grow by the packet cut at `o`. */
  lemma ChunksAdvance(s: string, o: nat, n: nat, sent: seq<string>)
    requires n > 0 && o < |s|
    requires Chunks(s, n) == sent + Chunks(s[o..], n)
    ensures Chunks(s, n) == (sent + [s[o..Min(o + n, |s|)]]) + Chunks(s[Min(o + n, |s|)..], n)
  {
    ChunksStep(s, o, n);
    var rest := Chunks(s[Min(o + n, |s|)..], n);
    assert sent + ([s[o..Min(o + n, |s|)]] + rest) == (sent + [s[o..Min(o + n, |s|)]]) + rest;
  }

  lemma SliceShift(s: string, n: nat, a: nat, b: nat)
    requires n <= |s| && a <= b <= |s| - n
    ensures s[n..][a..b] == s[a + n..b + n]
  {
    forall i | 0 <= i < b - a
      ensures s[n..][a..b][i] == s[a + n..b + n][i]
    {
    }
  }

  lemma MulStep(k: nat, n: nat)
    requires k > 0
    ensures (k - 1) * n + n == k * n && k * n + n == (k + 1) * n
  {
  }

  /** Packet `k` is the substring from `k * n` to `min((k + 1) * n, |s|)`, exactly as the send loop cuts it. */
  lemma {:induction false} ChunkAt(s: string, n: nat, k: nat)
    requires n > 0 && k < |Chunks(s, n)|
    ensures k * n < |s|
    ensures Chunks(s, n)[k] == s[k * n..Min((k + 1) * n, |s|)]
    decreases |s|
  {
    if k > 0 {
      assert |s| > n;
      var t := s[n..];
      ChunkAt(t, n, k - 1);
      var a, b := (k - 1) * n, Min(k * n, |t|);
      MulStep(k, n);
      assert b + n == Min((k + 1) * n, |s|);
      SliceShift(s, n, a, b);
    }
  }

  /** The packets before packet `k` spell a proper prefix of the string. */
  lemma ChunksPrefix(s: string, n: nat, k: nat)
    requires n > 0 && k < |Chunks(s, n)|
    ensures |Concat(Chunks(s, n)[..k])| < |s|
    ensures Concat(Chunks(s, n)[..k]) == s[..|Concat(Chunks(s, n)[..k])|]
  {
    var cs := Chunks(s, n);
    assert cs == cs[..k] + cs[k..];
    ConcatAppend(cs[..k], cs[k..]);
    ChunksConcat(s, n);
    assert cs[k..][0] == cs[k];
    assert |Concat(cs[k..])| >= |cs[k]| > 0;
  }

  /** The receive buffer and the messages delivered so far. */
  datatype Assembly = Assembly(buffer: string, messages: seq<string>)

  /**
   * One write request: the packet is appended to the buffer; when the buffer
   * then contains the sentinel, it is delivered without any sentinel and emptied.
   */
  function Feed(buffer: string, packet: string): (r: Assembly)
    ensures !Contains(r.buffer, EndMarker)
    ensures |r.messages| <= 1
    ensures r.messages != [] <==> Contains(buffer + packet, EndMarker)
    ensures r.messages == [] ==> r.buffer == buffer + packet
    ensures r.messages != [] ==> r.buffer == []
  {
    var data := buffer + packet;
    if Contains(data, EndMarker) then Assembly([], [RemoveAll(data, EndMarker)])
    else Assembly(data, [])
  }

  /** A sequence of write requests, in arrival order. */
  function FeedAll(buffer: string, packets: seq<string>): (r: Assembly)
    ensures packets != [] ==> !Contains(r.buffer, EndMarker)
  {
    if packets == [] then Assembly(buffer, [])
    else
      var prev := FeedAll(buffer, packets[..|packets| - 1]);
      var step := Feed(prev.buffer, packets[|packets| - 1]);
      Assembly(step.buffer, prev.messages + step.messages)
  }

  /** Feeding `a` then `b` is feeding `a + b`. */
  lemma {:induction false} FeedAllAppend(buffer: string, a: seq<string>, b: seq<string>)
    ensures FeedAll(buffer, a + b)
         == var ra := FeedAll(buffer, a);
            var rb := FeedAll(ra.buffer, b);
            Assembly(rb.buffer, ra.messages + rb.messages)
    decreases |b|
  {
    if b == [] {
      assert a + b == a;
    } else {
      var b' := b[..|b| - 1];
      assert (a + b)[..|a + b| - 1] == a + b';
      assert (a + b)[|a + b| - 1] == b[|b| - 1];
      FeedAllAppend(buffer, a, b');
    }
  }

  /** While the stream contains no sentinel, the buffer is the stream and nothing is delivered. */
  lemma {:induction false} FeedAllQuiet(packets: seq<string>)
    requires !Contains(Concat(packets), EndMarker)
    ensures FeedAll([], packets) == Assembly(Concat(packets), [])
    decreases |packets|
  {
    if packets != [] {
      var init := packets[..|packets| - 1];
      var last := packets[|packets| - 1];
      assert packets == init + [last];
      ConcatAppend(init, [last]);
      assert Concat([last]) == last;
      if Contains(Concat(init), EndMarker) {
        ContainsExtend(Concat(init), last, EndMarker);
      }
      FeedAllQuiet(init);
    }
  }

  /** No character of the pattern after the first equals the first. */
  predicate HeadUnique(p: string)
  {
    |p| > 0 && forall j | 0 < j < |p| :: p[j] != p[0]
  }

  lemma EndMarkerHeadUnique()
    ensures HeadUnique(EndMarker)
  {
    forall j | 0 < j < |EndMarker| ensures EndMarker[j] != EndMarker[0] {
      assert j in {1, 2, 3, 4, 5, 6, 7, 8, 9};
    }
  }

  /**
   * Appending a head-unique pattern to a text free of it creates no occurrence
   * that starts inside the text.
   */
  lemma NoEarlyOccurrence(d: string, p: string, i: int)
    requires HeadUnique(p) && !Contains(d, p) && 0 <= i < |d|
    ensures !OccursAt(d + p, p, i)
  {
    if i + |p| <= |d| {
      assert d[i..i + |p|] == (d + p)[i..i + |p|];
      if OccursAt(d, p, i) {
        OccursContains(d, p, i);
      }
    } else {
      var j := |d| - i;
      assert (d + p)[i + j] == p[0];
      assert p[j] != p[0];
      assert (d + p)[i..i + |p|][j] != p[j];
    }
  }

  /** A pattern at the head of the text is dropped and the search resumes after it. */
  lemma RemoveAllAtHead(p: string, t: string)
    requires |p| > 0
    ensures RemoveAll(p + t, p) == RemoveAll(t, p)
  {
    assert (p + t)[..|p|] == p;
    assert (p + t)[|p|..] == t;
  }

  /** In text-plus-pattern, a first character before the pattern is kept. */
  lemma RemoveAllKeepsHead(d: string, p: string, t: string)
    requires HeadUnique(p) && !Contains(d, p) && d != []
    ensures RemoveAll(d + p + t, p) == [d[0]] + RemoveAll(d[1..] + p + t, p)
  {
    var s := d + p + t;
    assert s[..|p|] != p by {
      NoEarlyOccurrence(d, p, 0);
      assert s[..|p|] == (d + p)[0..|p|];
    }
    assert s[1..] == d[1..] + p + t;
  }

  /** Removing the pattern from text-plus-pattern gives the text back. */
  lemma {:induction false} RemoveAllSplit(d: string, p: string, t: string)
    requires HeadUnique(p) && !Contains(d, p)
    ensures RemoveAll(d + p + t, p) == d + RemoveAll(t, p)
    decreases |d|
  {
    if d == [] {
      assert d + p + t == p + t;
      RemoveAllAtHead(p, t);
    } else {
      RemoveAllKeepsHead(d, p, t);
      NotContainsTail(d, p);
      RemoveAllSplit(d[1..], p, t);
      ConsAssoc(d, RemoveAll(t, p));
    }
  }

  /** A text without the pattern has none after its first character either. */
  lemma NotContainsTail(d: string, p: string)
    requires d != [] && !Contains(d, p)
    ensures !Contains(d[1..], p)
  {
    if |d[1..]| < |p| {
      ShortQuiet(d[1..], p);
    }
  }

  lemma ConsAssoc(d: string, r: string)
    requires d != []
    ensures [d[0]] + (d[1..] + r) == d + r
  {
    assert d == [d[0]] + d[1..];
  }

  /** No proper prefix of `d + p` contains `p`. */
  lemma ProperPrefixQuiet(d: string, p: string, len: nat)
    requires HeadUnique(p) && !Contains(d, p) && len < |d + p|
    ensures !Contains((d + p)[..len], p)
  {
    var s := (d + p)[..len];
    if Contains(s, p) {
      var i := ContainsOccurs(s, p);
      assert s[i..i + |p|] == (d + p)[i..i + |p|];
      NoEarlyOccurrence(d, p, i);
      assert false;
    }
  }

  /** From an empty buffer, no packet of `data + "END_OF_MSG"` but the last delivers anything. */
  lemma QuietUntilLast(data: string, k: nat)
    requires !Contains(data, EndMarker)
    requires k < |Chunks(data + EndMarker, ChunkSize)|
    ensures FeedAll([], Chunks(data + EndMarker, ChunkSize)[..k]) == Assembly(Concat(Chunks(data + EndMarker, ChunkSize)[..k]), [])
  {
    EndMarkerHeadUnique();
    var packets := Chunks(data + EndMarker, ChunkSize);
    ChunksPrefix(data + EndMarker, ChunkSize, k);
    ProperPrefixQuiet(data, EndMarker, |Concat(packets[..k])|);
    FeedAllQuiet(packets[..k]);
  }

  /** Appending one packet to the writes is one more `Feed` on the buffer they leave. */
  lemma FeedAllSnoc(buffer: string, init: seq<string>, last: string)
    ensures FeedAll(buffer, init + [last])
         == var prev := FeedAll(buffer, init);
            var step := Feed(prev.buffer, last);
            Assembly(step.buffer, prev.messages + step.messages)
  {
    assert (init + [last])[..|init|] == init;
  }

  /**
   * The write that brings the first sentinel into the buffer delivers the text
   * before it followed by the text after it with every sentinel removed, and
   * empties the buffer.
   */
  lemma FeedAtMarker(buffer: string, packet: string, d: string, t: string)
    requires !Contains(d, EndMarker) && buffer + packet == d + EndMarker + t
    ensures Feed(buffer, packet) == Assembly([], [d + RemoveAll(t, EndMarker)])
  {
    OccursAfter(d, EndMarker, t);
    OccursContains(buffer + packet, EndMarker, |d|);
    EndMarkerHeadUnique();
    RemoveAllSplit(d, EndMarker, t);
  }

  /** A last write that completes `data` plus the sentinel, after writes that only buffered, delivers `data`. */
  lemma CompletingWrite(init: seq<string>, last: string, data: string)
    requires !Contains(data, EndMarker) && FeedAll([], init).messages == []
    requires FeedAll([], init).buffer + last == data + EndMarker
    ensures FeedAll([], init + [last]) == Assembly([], [data])
  {
    assert data + EndMarker + [] == data + EndMarker;
    FeedAtMarker(FeedAll([], init).buffer, last, data, []);
    assert RemoveAll([], EndMarker) == [];
    assert data + [] == data;
    FeedAllSnoc([], init, last);
    assert [] + [data] == [data];
  }

  /** From an empty buffer, the packets of `data + "END_OF_MSG"` deliver exactly `data` and leave the buffer empty. */
  lemma RoundTripLast(data: string)
    requires !Contains(data, EndMarker)
    ensures FeedAll([], Chunks(data + EndMarker, ChunkSize)) == Assembly([], [data])
  {
    var packets := Chunks(data + EndMarker, ChunkSize);
    var init := packets[..|packets| - 1];
    var last := packets[|packets| - 1];
    assert FeedAll([], init + [last]) == Assembly([], [data]) by {
      QuietUntilLast(data, |packets| - 1);
      assert Concat(init) + last == data + EndMarker by {
        SnocLast(packets);
        ConcatAppend(init, [last]);
        assert Concat([last]) == last + Concat([]);
        ChunksConcat(data + EndMarker, ChunkSize);
      }
      CompletingWrite(init, last, data);
    }
    FeedAllSplitLast(packets, Assembly([], [data]));
  }

  lemma FeedAllSplitLast(packets: seq<string>, r: Assembly)
    requires |packets| > 0
    requires FeedAll([], packets[..|packets| - 1] + [packets[|packets| - 1]]) == r
    ensures FeedAll([], packets) == r
  {
    SnocLast(packets);
  }

  lemma SnocLast<T>(s: seq<T>)
    requires |s| > 0
    ensures s[..|s| - 1] + [s[|s| - 1]] == s
  {
  }

  /**
   * Round trip: from an empty buffer, the packets of `data + "END_OF_MSG"`
   * deliver nothing until the last one, and the last one delivers exactly
   * `data` and leaves the buffer empty.
   */
  lemma RoundTrip(data: string)
    requires !Contains(data, EndMarker)
    ensures var packets := Chunks(data + EndMarker, ChunkSize);
      && (forall k | 0 <= k < |packets| :: FeedAll([], packets[..k]).messages == [])
      && FeedAll([], packets) == Assembly([], [data])
  {
    var packets := Chunks(data + EndMarker, ChunkSize);
    forall k | 0 <= k < |packets| ensures FeedAll([], packets[..k]).messages == [] {
      QuietUntilLast(data, k);
    }
    RoundTripLast(data);
  }

  /** The packets of several messages sent one after the other. */
  function Frames(messages: seq<string>): (r: seq<string>)
    ensures |r| >= |messages|
  {
    if messages == [] then []
    else Frames(messages[..|messages| - 1]) + Chunks(messages[|messages| - 1] + EndMarker, ChunkSize)
  }

  /** Two runs of writes that each start and end with an empty buffer deliver one after the other. */
  lemma FeedAllJoin(a: seq<string>, b: seq<string>, ma: seq<string>, mb: seq<string>)
    requires FeedAll([], a) == Assembly([], ma) && FeedAll([], b) == Assembly([], mb)
    ensures FeedAll([], a + b) == Assembly([], ma + mb)
  {
    FeedAllAppend([], a, b);
  }

  /** Messages sent back to back are delivered one by one, in order, from a fresh buffer. */
  lemma {:induction false} StreamRoundTrip(messages: seq<string>)
    requires forall m | m in messages :: !Contains(m, EndMarker)
    ensures FeedAll([], Frames(messages)) == Assembly([], messages)
    decreases |messages|
  {
    if messages != [] {
      var init := messages[..|messages| - 1];
      var last := messages[|messages| - 1];
      assert messages == init + [last];
      assert forall m | m in init :: m in messages;
      StreamRoundTrip(init);
      RoundTripLast(last);
      FeedAllJoin(Frames(init), Chunks(last + EndMarker, ChunkSize), init, [last]);
    }
  }

  /**
   * Text after the sentinel in the same buffer is not kept for the next
   * message: it is delivered as part of this one.
   */
  lemma TrailingTextJoinsMessage()
    ensures Feed("ab", "END_OF_MSGcd") == Assembly([], ["abcd"])
  {
    ShortQuiet("ab", EndMarker);
    assert "ab" + "END_OF_MSGcd" == "ab" + EndMarker + "cd";
    FeedAtMarker("ab", "END_OF_MSGcd", "ab", "cd");
    assert RemoveAll("cd", EndMarker) == "cd";
    assert "ab" + "cd" == "abcd";
  }

  /**
   * A body that itself contains the sentinel is mis-framed: "HIEND_OF_MSG"
   * is delivered as "HIEND_OF_M" and "SG" stays in the buffer.
   */
  lemma EmbeddedMarkerMisframes()
    ensures FeedAll([], Chunks("HIEND_OF_MSG" + EndMarker, ChunkSize)) == Assembly("SG", ["HIEND_OF_M"])
  {
    var first := "HI" + EndMarker + "END_OF_M";
    assert Chunks("HIEND_OF_MSG" + EndMarker, ChunkSize) == [first] + ["SG"] by {
      var full := first + "SG";
      assert "HIEND_OF_MSG" + EndMarker == full;
      assert |first| == ChunkSize;
      assert full[..ChunkSize] == first;
      assert full[ChunkSize..] == "SG";
      assert Chunks("SG", ChunkSize) == ["SG"];
    }
    assert FeedAll([], [first]) == Assembly([], ["HIEND_OF_M"]) by {
      ShortQuiet("HI", EndMarker);
      assert [] + first == "HI" + EndMarker + "END_OF_M";
      FeedAtMarker([], first, "HI", "END_OF_M");
      assert RemoveAll("END_OF_M", EndMarker) == "END_OF_M";
      assert "HI" + "END_OF_M" == "HIEND_OF_M";
      FeedAllSnoc([], [], first);
      assert [] + [first] == [first];
    }
    assert Feed([], "SG") == Assembly("SG", []) by {
      ShortQuiet([] + "SG", EndMarker);
    }
    FeedAllSnoc([], [first], "SG");
  }

  /**
   * All writers share one buffer: a packet from one client followed by the
   * final packet of another is delivered as a single message.
   */
  lemma InterleavedWritersMerge()
    ensures FeedAll([], ["AB", "CDEND_OF_MSG"]) == Assembly([], ["ABCD"])
  {
    assert FeedAll([], ["AB"]) == Assembly("AB", []) by {
      ShortQuiet([] + "AB", EndMarker);
      FeedAllSnoc([], [], "AB");
      assert [] + ["AB"] == ["AB"];
    }
    assert Feed("AB", "CDEND_OF_MSG") == Assembly([], ["ABCD"]) by {
      ShortQuiet("ABCD", EndMarker);
      assert "AB" + "CDEND_OF_MSG" == "ABCD" + EndMarker + [];
      FeedAtMarker("AB", "CDEND_OF_MSG", "ABCD", []);
      assert RemoveAll([], EndMarker) == [];
      assert "ABCD" + [] == "ABCD";
    }
    FeedAllSnoc([], ["AB"], "CDEND_OF_MSG");
    assert ["AB"] + ["CDEND_OF_MSG"] == ["AB", "CDEND_OF_MSG"];
  }
}
