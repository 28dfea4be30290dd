// The framed byte-stream transport between client and daemon, plain or encrypted.

module Bytes {

  type byte = b: int | 0 <= b < 256

  function LE32(n: nat): (r: seq<byte>)
    requires n < 0x1_0000_0000
    ensures |r| == 4
  {
    [n % 256, n / 256 % 256, n / 256 / 256 % 256, n / 256 / 256 / 256]
  }

  function FromLE32(b: seq<byte>): (r: nat)
    requires |b| == 4
    ensures r < 0x1_0000_0000
  {
    (b[0] as int) + 256 * (b[1] as int) + 0x1_0000 * (b[2] as int) + 0x100_0000 * (b[3] as int)
  }

  lemma LE32RoundTrip(n: nat)
    requires n < 0x1_0000_0000
    ensures FromLE32(LE32(n)) == n
  {
  }

  lemma ValueOfFour(b: seq<byte>)
    requires |b| == 4
    ensures Value(b) == FromLE32(b)
  {
    assert b[1..][1..] == b[2..] && b[2..][1..] == b[3..] && b[3..][1..] == [];
    assert Value(b[3..]) == b[3] as int;
    assert Value(b[2..]) == (b[2] as int) + 256 * Value(b[3..]);
    assert Value(b[1..]) == (b[1] as int) + 256 * Value(b[2..]);
  }

  ghost function Pow256(k: nat): (r: nat)
    ensures r > 0
  {
    if k == 0 then 1 else 256 * Pow256(k - 1)
  }

  // Little-endian value of a byte string.
  ghost function Value(b: seq<byte>): nat {
    if b == [] then 0 else (b[0] as int) + 256 * Value(b[1..])
  }

  lemma {:induction false} ValueBound(b: seq<byte>)
    ensures Value(b) < Pow256(|b|)
  {
    if b != [] {
      ValueBound(b[1..]);
    }
  }

  lemma LowByte(b: byte, v: nat)
    ensures ((b as int) + 256 * v) % 256 == b as int && ((b as int) + 256 * v) / 256 == v
  {
  }

  lemma {:induction false} ValueInjective(a: seq<byte>, b: seq<byte>)
    requires |a| == |b| && Value(a) == Value(b)
    ensures a == b
  {
    if a != [] {
      LowByte(a[0], Value(a[1..]));
      LowByte(b[0], Value(b[1..]));
      ValueInjective(a[1..], b[1..]);
      assert a == [a[0]] + a[1..] && b == [b[0]] + b[1..];
    }
  }
}

module Nonces {
  import opened Bytes

  // Adding one with carry, the lowest byte first.
  ghost function Next(n: seq<byte>): (r: seq<byte>)
    ensures |r| == |n|
  {
    if n == [] then []
    else if n[0] == 255 then [0] + Next(n[1..])
    else [n[0] + 1] + n[1..]
  }

  // increment_nonce.
  method Increment(nonce: array<byte>)
    modifies nonce
    ensures nonce[..] == Next(old(nonce[..]))
  {
    ghost var n := nonce[..];
    var i := 0;
    while i < nonce.Length
      invariant 0 <= i <= nonce.Length
      invariant forall k :: 0 <= k < i ==> n[k] == 255 && nonce[k] == 0
      invariant nonce[i..] == n[i..]
    {
      nonce[i] := if nonce[i] == 255 then 0 else nonce[i] + 1;
      if nonce[i] != 0 {
        NextAt(n, i);
        return;
      }
      i := i + 1;
    }
    NextAt(n, i);
  }

  // A run of i leading 255s turns to zeros, and the byte after it grows by one.
  lemma {:induction false} NextAt(n: seq<byte>, i: nat)
    requires i <= |n| && forall k :: 0 <= k < i ==> n[k] == 255
    requires i < |n| ==> n[i] != 255
    ensures forall k :: 0 <= k < i ==> Next(n)[k] == 0
    ensures i < |n| ==> Next(n)[i] == n[i] + 1
    ensures forall k :: i < k < |n| ==> Next(n)[k] == n[k]
  {
    if i > 0 {
      NextAt(n[1..], i - 1);
    }
  }

  // The nonce is a counter: it grows by one and wraps to zero at the end.
  lemma {:induction false} NextCounts(n: seq<byte>)
    ensures Value(Next(n)) == if Value(n) + 1 == Pow256(|n|) then 0 else Value(n) + 1
  {
    if n != [] {
      NextCounts(n[1..]);
      ValueBound(n[1..]);
      if n[0] == 255 {
        assert ([0] + Next(n[1..]))[1..] == Next(n[1..]);
      } else {
        assert ([n[0] + 1] + n[1..])[1..] == n[1..];
      }
    }
  }

  ghost function Advance(n: seq<byte>, k: nat): (r: seq<byte>)
    ensures |r| == |n|
  {
    if k == 0 then n else Next(Advance(n, k - 1))
  }

  lemma {:induction false} AdvanceCounts(n: seq<byte>, k: nat)
    requires k <= Pow256(|n|)
    ensures var v := Value(n) + k;
            Value(Advance(n, k)) == if v < Pow256(|n|) then v else v - Pow256(|n|)
  {
    ValueBound(n);
    if k > 0 {
      AdvanceCounts(n, k - 1);
      NextCounts(Advance(n, k - 1));
    }
  }

  lemma {:induction false} AdvanceTwice(n: seq<byte>, i: nat, d: nat)
    ensures Advance(Advance(n, i), d) == Advance(n, i + d)
  {
    if d > 0 {
      AdvanceTwice(n, i, d - 1);
    }
  }

  // A nonce comes back after one whole round of the counter and not before.
  lemma NonceRepeatsIff(n: seq<byte>, i: nat, j: nat)
    requires i < j <= i + Pow256(|n|)
    ensures Advance(n, i) == Advance(n, j) <==> j == i + Pow256(|n|)
  {
    AdvanceTwice(n, i, j - i);
    AdvanceCounts(Advance(n, i), j - i);
    ValueBound(Advance(n, i));
    if j == i + Pow256(|n|) {
      ValueInjective(Advance(n, i), Advance(n, j));
    }
  }

  lemma OneMore(v: nat, m: nat)
    requires m > 0
    ensures (v + 1) % m == if v % m + 1 == m then 0 else v % m + 1
  {
    var q, r := v / m, v % m;
    if r + 1 == m {
      assert v + 1 == (q + 1) * m;
      SameRemainder(m, q + 1, 0, (v + 1) / m, (v + 1) % m);
    } else {
      SameRemainder(m, q, r + 1, (v + 1) / m, (v + 1) % m);
    }
  }

  lemma SameRemainder(m: nat, q: nat, r: nat, q': nat, r': nat)
    requires r < m && r' < m && q * m + r == q' * m + r'
    ensures r == r'
  {
    if q < q' {
      AtLeast(m, q, q');
    } else if q' < q {
      AtLeast(m, q', q);
    }
  }

  lemma AtLeast(m: nat, q: nat, q': nat)
    requires q < q'
    ensures q' * m >= q * m + m
  {
    assert q' * m == q * m + (q' - q) * m;
    assert (q' - q) * m == (q' - q - 1) * m + m;
  }

  lemma BelowModulus(v: nat, m: nat)
    requires v < m
    ensures v % m == v
  {
  }

  // Any number of steps: the counter adds them up, modulo its range.
  lemma {:induction false} AdvanceWraps(n: seq<byte>, k: nat)
    ensures Value(Advance(n, k)) == (Value(n) + k) % Pow256(|n|)
  {
    hide Value, Next, Pow256;
    ValueBound(n);
    if k == 0 {
      BelowModulus(Value(n), Pow256(|n|));
    } else {
      AdvanceWraps(n, k - 1);
      NextCounts(Advance(n, k - 1));
      OneMore(Value(n) + (k - 1), Pow256(|n|));
      assert Value(n) + (k - 1) + 1 == Value(n) + k;
    }
  }

  const NONCE_BYTES := 24

  // As many messages as there are nonces.
  const ROUND: nat := 0x1_0000_0000_0000_0000_0000_0000_0000_0000_0000_0000_0000_0000

  // No nonce of a direction is used twice within 2^192 messages.
  lemma NoNonceReuse(n: seq<byte>, i: nat, j: nat)
    requires |n| == NONCE_BYTES
    requires i < j < i + ROUND
    ensures Advance(n, i) != Advance(n, j)
  {
    Pow256Of24();
    NonceRepeatsIff(n, i, j);
  }

  lemma Pow256Of24()
    ensures Pow256(24) == ROUND
  {
    Pow256Add(4, 4);
    Pow256Add(8, 8);
    Pow256Add(16, 8);
    assert Pow256(4) == 0x1_0000_0000;
  }

  lemma {:induction false} Pow256Add(a: nat, b: nat)
    ensures Pow256(a + b) == Pow256(a) * Pow256(b)
  {
    if a > 0 {
      Pow256Add(a - 1, b);
      assert 256 * (Pow256(a - 1) * Pow256(b)) == (256 * Pow256(a - 1)) * Pow256(b);
    }
  }
}

module Framing {
  import opened Bytes

  // Frames announcing more than this many bytes are refused by the reader: 64 MB.
  const FRAME_LIMIT: nat := 0x400_0000

  // The bytes written to one end of a connection and not yet read at the other.
  // A call may move fewer bytes than asked for, or fail.
  class Channel {
    var wire: seq<byte>

    constructor ()
      ensures wire == []
    {
      wire := [];
    }

    method Write(data: seq<byte>) returns (n: int)
      modifies this
      ensures n <= 0 ==> wire == old(wire)
      ensures n > 0 ==> n <= |data| && wire == old(wire) + data[..n]
    {
      if * {
        return -1;
      }
      n :| 0 <= n <= |data|;
      wire := wire + data[..n];
    }

    method Read(len: nat) returns (n: int, data: seq<byte>)
      modifies this
      ensures n <= 0 ==> wire == old(wire)
      ensures n > 0 ==> n <= len && n <= |old(wire)| && data == old(wire)[..n] && wire == old(wire)[n..]
    {
      if * {
        return -1, [];
      }
      n :| 0 <= n <= len && n <= |wire|;
      data, wire := wire[..n], wire[n..];
    }

    // raw_write: everything, or a failure after some proper prefix.
    method RawWrite(data: seq<byte>) returns (ok: bool, ghost done: nat)
      modifies this
      ensures done <= |data| && wire == old(wire) + data[..done]
      ensures ok <==> done == |data|
    {
      var p := 0;
      while p < |data|
        invariant 0 <= p <= |data|
        invariant wire == old(wire) + data[..p]
      {
        var n := Write(data[p..]);
        if n <= 0 {
          return false, p;
        }
        assert data[..p] + data[p..][..n] == data[..p + n];
        p := p + n;
      }
      return true, p;
    }

    // raw_read: exactly len bytes, or a failure.
    method RawRead(len: nat) returns (ok: bool, buf: seq<byte>)
      modifies this
      ensures ok ==> len <= |old(wire)| && buf == old(wire)[..len] && wire == old(wire)[len..]
    {
      buf := [];
      while |buf| < len
        invariant |buf| <= len && |buf| <= |old(wire)|
        invariant buf == old(wire)[..|buf|] && wire == old(wire)[|buf|..]
      {
        var n, part := Read(len - |buf|);
        if n <= 0 {
          return false, buf;
        }
        buf := buf + part;
      }
      ok := true;
    }

    // frame_write.
    method FrameWrite(data: seq<byte>) returns (ok: bool)
      requires |data| < 0x1_0000_0000
      modifies this
      ensures ok ==> wire == old(wire) + Frame(data)
    {
      ghost var k;
      ok, k := RawWrite(LE32(|data|));
      if !ok {
        return;
      }
      if |data| > 0 {
        ok, k := RawWrite(data);
      }
    }

    // frame_read.  An empty result stands for any failure; io tells whether all reads succeeded.
    method FrameRead() returns (msg: seq<byte>, ghost io: bool)
      modifies this
      ensures io ==> Announces(old(wire)) && (msg, wire) == Parse(old(wire))
      ensures !io ==> msg == []
    {
      var ok, head := RawRead(4);
      if !ok {
        return [], false;
      }
      var len := FromLE32(head);
      if len == 0 || len > FRAME_LIMIT {
        return [], true;
      }
      var buf;
      ok, buf := RawRead(len);
      if !ok {
        return [], false;
      }
      assert old(wire)[4..][..len] == old(wire)[4..4 + len];
      assert old(wire)[4..][len..] == old(wire)[4 + len..];
      return buf, true;
    }
  }

  // [length, 4 bytes little-endian][data]
  ghost function Frame(data: seq<byte>): seq<byte>
    requires |data| < 0x1_0000_0000
  {
    LE32(|data|) + data
  }

  // Four bytes for the length, the lowest first, then the message.
  lemma FrameLayout(m: seq<byte>)
    requires |m| < 0x1_0000_0000
    ensures |Frame(m)| == 4 + |m| && Value(Frame(m)[..4]) == |m| && Frame(m)[4..] == m
  {
    assert Frame(m)[..4] == LE32(|m|);
    ValueOfFour(LE32(|m|));
    LE32RoundTrip(|m|);
  }

  // There are enough bytes for the frame that is announced.
  ghost predicate Announces(wire: seq<byte>) {
    |wire| >= 4 && (0 < FromLE32(wire[..4]) <= FRAME_LIMIT ==> |wire| >= 4 + FromLE32(wire[..4]))
  }

  // The reader's view: the message, or nothing for an unacceptable length, and what is left.
  ghost function Parse(wire: seq<byte>): (seq<byte>, seq<byte>)
    requires Announces(wire)
  {
    var len := FromLE32(wire[..4]);
    if len == 0 || len > FRAME_LIMIT then ([], wire[4..]) else (wire[4..4 + len], wire[4 + len..])
  }

  // A frame is read back whole, leaving what follows, exactly when it is within the limit.
  lemma FrameRoundTripIff(m: seq<byte>, rest: seq<byte>)
    requires |m| < 0x1_0000_0000
    ensures Announces(Frame(m) + rest)
    ensures Parse(Frame(m) + rest) == (m, rest) <==> |m| <= FRAME_LIMIT
  {
    var wire := Frame(m) + rest;
    LE32RoundTrip(|m|);
    assert wire[..4] == LE32(|m|);
    assert wire[4..] == m + rest;
    if |m| <= FRAME_LIMIT {
      assert wire[4..4 + |m|] == m && wire[4 + |m|..] == rest;
    }
  }
}

module Connections {
  import opened Bytes
  import opened Framing
  import opened Nonces

  type Key = seq<byte>

  datatype Option<+T> = None | Some(value: T)

  // Authenticated encryption: MAC_BYTES of tag followed by the ciphertext.
  const MAC_BYTES := 16

  datatype Aead = Aead(
    lock: (Key, seq<byte>, seq<byte>) -> seq<byte>,
    unlock: (Key, seq<byte>, seq<byte>) -> Option<seq<byte>>)

  // What is asked of it (section 2.8 of RFC 8439): the tag and length of the text,
  // opening undoes sealing, and nothing else opens.
  ghost predicate Ideal(a: Aead) {
    && (forall k, n, p :: |a.lock(k, n, p)| == MAC_BYTES + |p|)
    && (forall k, n, p :: a.unlock(k, n, a.lock(k, n, p)) == Some(p))
    && (forall k, n, c :: a.unlock(k, n, c).Some? ==> c == a.lock(k, n, a.unlock(k, n, c).value))
  }

  datatype Mode = Plain | Sealed(key: Key)

  // How one message travels under the sender's current nonce.
  ghost function Wrap(a: Aead, mode: Mode, nonce: seq<byte>, m: seq<byte>): (r: seq<byte>)
    requires Ideal(a)
    ensures |r| == |m| + Overhead(mode)
  {
    match mode
    case Plain => m
    case Sealed(k) => a.lock(k, nonce, m)
  }

  ghost function NextNonce(mode: Mode, nonce: seq<byte>): seq<byte> {
    if mode.Plain? then nonce else Next(nonce)
  }

  ghost function Overhead(mode: Mode): nat {
    if mode.Plain? then 0 else MAC_BYTES
  }

  ghost predicate Sendable(mode: Mode, m: seq<byte>) {
    |m| + Overhead(mode) <= FRAME_LIMIT
  }

  // The bytes on the wire for messages sent from this nonce on.
  ghost function Stream(a: Aead, mode: Mode, nonce: seq<byte>, msgs: seq<seq<byte>>): seq<byte>
    requires Ideal(a) && forall i :: 0 <= i < |msgs| ==> Sendable(mode, msgs[i])
    decreases |msgs|
  {
    if msgs == [] then []
    else
      assert Sendable(mode, msgs[0]);
      Frame(Wrap(a, mode, nonce, msgs[0])) + Stream(a, mode, NextNonce(mode, nonce), msgs[1..])
  }

  ghost function After(mode: Mode, nonce: seq<byte>, k: nat): seq<byte> {
    if mode.Plain? then nonce else Advance(nonce, k)
  }

  lemma {:induction false} StreamAppend(a: Aead, mode: Mode, nonce: seq<byte>, msgs: seq<seq<byte>>, m: seq<byte>)
    requires Ideal(a) && Sendable(mode, m) && forall i :: 0 <= i < |msgs| ==> Sendable(mode, msgs[i])
    ensures Stream(a, mode, nonce, msgs + [m])
         == Stream(a, mode, nonce, msgs) + Frame(Wrap(a, mode, After(mode, nonce, |msgs|), m))
    decreases |msgs|
  {
    hide Ideal, Frame, Wrap;
    if msgs == [] {
      assert Stream(a, mode, NextNonce(mode, nonce), (msgs + [m])[1..]) == [];
    } else {
      StreamAppend(a, mode, NextNonce(mode, nonce), msgs[1..], m);
      assert (msgs + [m])[1..] == msgs[1..] + [m];
      if mode.Sealed? {
        AdvanceTwice(nonce, 1, |msgs| - 1);
        assert Advance(nonce, 1) == Next(Advance(nonce, 0));
      }
    }
  }

  // The nonces of one direction, in the order used: a counter from the first on, modulo 2^192,
  // and so none of them twice within 2^192 messages.
  ghost predicate NeverReused(first: seq<byte>, used: seq<seq<byte>>) {
    && (forall i :: 0 <= i < |used| ==>
          |used[i]| == NONCE_BYTES && Value(used[i]) == (Value(first) + i) % Pow256(NONCE_BYTES))
    && (forall i, j :: 0 <= i < j < |used| && j < i + ROUND ==> used[i] != used[j])
  }

  // What a message looks like on the wire, sealed under the last of these nonces.
  ghost function OnWire(a: Aead, mode: Mode, used: seq<seq<byte>>, m: seq<byte>): seq<byte>
    requires Ideal(a) && Sendable(mode, m) && (mode.Sealed? ==> used != [])
  {
    match mode
    case Plain => Frame(m)
    case Sealed(k) => Frame(a.lock(k, used[|used| - 1], m))
  }

  // One direction of a connection: the sender's nonce, the receiver's nonce and the
  // channel between them, with a record of what was sent, of the nonces it was sealed under,
  // and of what was received.
  class Direction {
    const aead: Aead
    const mode: Mode
    const channel: Channel
    const sendNonce: array<byte>
    const recvNonce: array<byte>
    var broken: bool
    ghost const first: seq<byte>
    ghost var sent: seq<seq<byte>>
    ghost var used: seq<seq<byte>>
    ghost var received: seq<seq<byte>>
    ghost var inFlight: seq<seq<byte>>

    ghost predicate Valid()
      reads this, channel, sendNonce, recvNonce
    {
      && Ideal(aead) && sendNonce != recvNonce
      && (forall i :: 0 <= i < |inFlight| ==> Sendable(mode, inFlight[i]))
      && sent == received + inFlight
      && |first| == NONCE_BYTES && |used| == (if mode.Plain? then 0 else |sent|)
      && (forall i :: 0 <= i < |used| ==> used[i] == Advance(first, i))
      && (!broken ==>
            && sendNonce[..] == After(mode, first, |sent|)
            && recvNonce[..] == After(mode, first, |received|)
            && channel.wire == Stream(aead, mode, recvNonce[..], inFlight))
    }

    // The state right after the handshake: the sender's own nonce is what the peer received.
    constructor (aead: Aead, mode: Mode, nonce: seq<byte>)
      requires Ideal(aead) && |nonce| == NONCE_BYTES
      ensures Valid() && !broken && first == nonce && this.mode == mode
      ensures sent == received == inFlight == used == []
      ensures fresh(channel) && fresh(sendNonce) && fresh(recvNonce)
    {
      this.aead, this.mode, this.broken, this.first := aead, mode, false, nonce;
      sent, received, inFlight, used := [], [], [], [];
      channel := new Channel();
      sendNonce := new byte[NONCE_BYTES](i requires 0 <= i < |nonce| => nonce[i]);
      recvNonce := new byte[NONCE_BYTES](i requires 0 <= i < |nonce| => nonce[i]);
      new;
      assert sendNonce[..] == nonce && recvNonce[..] == nonce;
    }

    // write_msg: frame_write, or crypto_frame_write, which steps the nonce first.
    method Send(m: seq<byte>) returns (ok: bool)
      requires Valid() && !broken && Sendable(mode, m)
      modifies this`broken, this`sent, this`used, this`inFlight, channel, sendNonce
      ensures Valid() && sent == old(sent) + [m] && inFlight == old(inFlight) + [m]
      ensures broken == !ok
      ensures used == if mode.Plain? then old(used) else old(used) + [old(sendNonce[..])]
      ensures ok ==> channel.wire == old(channel.wire) + OnWire(aead, mode, used, m)
    {
      hide Ideal, Frame, Stream, After;
      StreamAppend(aead, mode, recvNonce[..], inFlight, m);
      AfterTwice(mode, first, |received|, |inFlight|);
      AfterNext(mode, first, |sent|);
      if mode.Sealed? {
        AfterIs(mode, first, |sent|);
      }
      WrapIs(aead, mode, sendNonce[..], m);
      var frame := m;
      if mode.Sealed? {
        used := used + [sendNonce[..]];
        frame := aead.lock(mode.key, sendNonce[..], m);
        Increment(sendNonce);
      }
      ok := channel.FrameWrite(frame);
      broken := !ok;
      sent, inFlight := sent + [m], inFlight + [m];
    }

    // read_msg: frame_read, or crypto_frame_read, which steps the nonce after opening.
    // An empty result ends the connection.
    method Receive() returns (m: seq<byte>, ghost io: bool)
      requires Valid() && !broken
      modifies this`broken, this`received, this`inFlight, channel, recvNonce
      ensures Valid() && sent == old(sent)
      ensures broken <==> m == []
      ensures !broken ==> old(inFlight) != [] && m == old(inFlight)[0]
                          && received == old(received) + [m] && inFlight == old(inFlight)[1..]
      ensures broken ==> received == old(received) && inFlight == old(inFlight)
      ensures io ==> old(inFlight) != [] && m == old(inFlight)[0]
      ensures !io ==> broken
    {
      hide Ideal, Frame, Announces, Parse, Stream, After, Wrap, Sendable;
      AfterNext(mode, first, |received|);
      FirstFrame(aead, mode, recvNonce[..], inFlight);
      WrapIs(aead, mode, recvNonce[..], if inFlight == [] then [] else inFlight[0]);
      var frame;
      frame, io := channel.FrameRead();
      m := frame;
      if mode.Sealed? {
        if |frame| < MAC_BYTES {
          m := [];
        } else {
          var text := aead.unlock(mode.key, recvNonce[..], frame);
          if text.None? {
            m := [];
          } else {
            Increment(recvNonce);
            m := text.value;
          }
        }
      }
      broken := m == [];
      if !broken {
        received, inFlight := received + [m], inFlight[1..];
      }
    }
  }

  // The nonces that a direction has sealed under are those of a counter.
  lemma UsedOnce(d: Direction)
    requires d.Valid()
    ensures NeverReused(d.first, d.used)
  {
    hide Ideal, Stream, After, Sendable, Pow256, Advance;
    var first, used := d.first, d.used;
    forall i | 0 <= i < |used|
      ensures |used[i]| == NONCE_BYTES && Value(used[i]) == (Value(first) + i) % Pow256(NONCE_BYTES)
    {
      AdvanceWraps(first, i);
    }
    forall i, j | 0 <= i < j < |used| && j < i + ROUND
      ensures used[i] != used[j]
    {
      NoNonceReuse(first, i, j);
    }
  }

  lemma WrapIs(a: Aead, mode: Mode, nonce: seq<byte>, m: seq<byte>)
    requires Ideal(a)
    ensures Wrap(a, mode, nonce, m) == if mode.Plain? then m else a.lock(mode.key, nonce, m)
  {
  }

  // Where one direction stands: i messages sent, the last `waiting` of them not yet received.
  ghost predicate Stands(d: Direction, before: seq<seq<byte>>, msgs: seq<seq<byte>>, i: nat, waiting: nat)
    reads d, d.channel, d.sendNonce, d.recvNonce
  {
    && d.Valid() && waiting <= i <= |msgs|
    && d.sent == before + msgs[..i] && d.inFlight == msgs[i - waiting..i]
  }

  ghost predicate NoneEmpty(msgs: seq<seq<byte>>) {
    forall i :: 0 <= i < |msgs| ==> msgs[i] != []
  }

  ghost predicate AllSendable(mode: Mode, msgs: seq<seq<byte>>) {
    forall i :: 0 <= i < |msgs| ==> Sendable(mode, msgs[i])
  }

  // One message more is sent or received; fine tells whether all reads and writes succeeded.
  method Move(d: Direction, ghost before: seq<seq<byte>>, msgs: seq<seq<byte>>, i: nat, waiting: nat)
    returns (i': nat, waiting': nat, ghost fine: bool)
    requires Stands(d, before, msgs, i, waiting) && !d.broken && AllSendable(d.mode, msgs)
    requires i < |msgs| || waiting > 0
    modifies d, d.channel, d.sendNonce, d.recvNonce
    ensures Stands(d, before, msgs, i', waiting')
    ensures !d.broken ==> 2 * (|msgs| - i') + waiting' < 2 * (|msgs| - i) + waiting
    ensures d.broken ==> 2 * (|msgs| - i') + waiting' <= 2 * (|msgs| - i) + waiting
    ensures !fine ==> d.broken
    ensures fine && NoneEmpty(msgs) ==> !d.broken
  {
    hide Ideal, Stream, After, Sendable;
    i', waiting', fine := i, waiting, true;
    var sends: bool := *;
    if i < |msgs| && (sends || waiting == 0) {
      var ok := d.Send(msgs[i]);
      i', waiting', fine := i + 1, waiting + 1, ok;
      assert msgs[i - waiting..i] + [msgs[i]] == msgs[i - waiting..i + 1];
      assert before + msgs[..i] + [msgs[i]] == before + msgs[..i + 1];
    } else {
      var m, io := d.Receive();
      fine := io;
      if !d.broken {
        waiting' := waiting - 1;
      }
    }
  }

  // A connection is two directions.  Any interleaving of sending and receiving on both, under
  // any short reads and writes, delivers each side exactly what the other sends, in order.
  // The conversation breaks only through a read or write that fails or an empty message; when
  // it does, what has arrived is still a prefix on either side.
  method Converse(a: Direction, b: Direction, toB: seq<seq<byte>>, toA: seq<seq<byte>>)
    returns (ghost fine: bool)
    requires {a, a.channel, a.sendNonce, a.recvNonce} !! {b, b.channel, b.sendNonce, b.recvNonce}
    requires a.Valid() && !a.broken && a.inFlight == [] && AllSendable(a.mode, toB)
    requires b.Valid() && !b.broken && b.inFlight == [] && AllSendable(b.mode, toA)
    modifies a, a.channel, a.sendNonce, a.recvNonce, b, b.channel, b.sendNonce, b.recvNonce
    ensures a.Valid() && a.received <= a.sent && b.Valid() && b.received <= b.sent
    ensures NeverReused(a.first, a.used) && NeverReused(b.first, b.used)
    ensures !a.broken && !b.broken ==>
              && a.received == a.sent == old(a.sent) + toB
              && b.received == b.sent == old(b.sent) + toA
    ensures NoneEmpty(toB) && NoneEmpty(toA) ==> (fine <==> !a.broken && !b.broken)
  {
    hide Ideal, Stream, After, Sendable, AllSendable, NoneEmpty, NeverReused;
    fine := true;
    ghost var sentA, sentB := a.sent, b.sent;
    var i: nat, m: nat, j: nat, n: nat := 0, 0, 0, 0;
    while (i < |toB| || m > 0 || j < |toA| || n > 0) && !a.broken && !b.broken
      invariant Stands(a, sentA, toB, i, m) && Stands(b, sentB, toA, j, n)
      invariant !fine ==> a.broken || b.broken
      invariant fine && NoneEmpty(toB) && NoneEmpty(toA) ==> !a.broken && !b.broken
      decreases 2 * (|toB| - i) + m + 2 * (|toA| - j) + n, !a.broken && !b.broken
    {
      var first: bool := *;
      if (i < |toB| || m > 0) && (first || (j == |toA| && n == 0)) {
        i, m, fine := Move(a, sentA, toB, i, m);
      } else {
        j, n, fine := Move(b, sentB, toA, j, n);
      }
    }
    UsedOnce(a);
    UsedOnce(b);
  }

  // A cipher of the assumed kind exists, so there are directions to speak of.
  lemma IdealExists() returns (a: Aead)
    ensures Ideal(a)
  {
    var tag := seq(MAC_BYTES, _ => 0 as byte);
    a := Aead(
      (k: Key, n: seq<byte>, p: seq<byte>) => tag + p,
      (k: Key, n: seq<byte>, c: seq<byte>) => if tag <= c then Some(c[MAC_BYTES..]) else None);
    forall k, n, p
      ensures a.unlock(k, n, a.lock(k, n, p)) == Some(p)
    {
      assert (tag + p)[MAC_BYTES..] == p;
    }
    assert forall c: seq<byte> :: tag <= c ==> c == tag + c[MAC_BYTES..];
  }

  // What the reader finds at the front of the stream.
  lemma FirstFrame(a: Aead, mode: Mode, nonce: seq<byte>, msgs: seq<seq<byte>>)
    requires Ideal(a) && forall i :: 0 <= i < |msgs| ==> Sendable(mode, msgs[i])
    ensures var wire := Stream(a, mode, nonce, msgs);
            if msgs == [] then !Announces(wire)
            else
              && Announces(wire)
              && Parse(wire) == (Wrap(a, mode, nonce, msgs[0]), Stream(a, mode, NextNonce(mode, nonce), msgs[1..]))
              && (mode.Sealed? ==> a.unlock(mode.key, nonce, Wrap(a, mode, nonce, msgs[0])) == Some(msgs[0])
                                   && |Wrap(a, mode, nonce, msgs[0])| >= MAC_BYTES)
  {
    if msgs != [] {
      FrameRoundTripIff(Wrap(a, mode, nonce, msgs[0]), Stream(a, mode, NextNonce(mode, nonce), msgs[1..]));
    }
  }

  lemma AfterIs(mode: Mode, nonce: seq<byte>, k: nat)
    requires mode.Sealed?
    ensures After(mode, nonce, k) == Advance(nonce, k)
  {
  }

  lemma AfterTwice(mode: Mode, nonce: seq<byte>, i: nat, d: nat)
    ensures After(mode, After(mode, nonce, i), d) == After(mode, nonce, i + d)
  {
    AdvanceTwice(nonce, i, d);
  }

  lemma AfterNext(mode: Mode, nonce: seq<byte>, i: nat)
    ensures After(mode, nonce, i + 1) == NextNonce(mode, After(mode, nonce, i))
  {
  }
}

module Handshake {
  import opened Bytes
  import opened Nonces
  import opened Connections

  const RPC_VERSION: byte := 1
  const RPC_FLAG_ENCRYPTED: byte := 1

  function Zeros(): (r: seq<byte>)
    ensures |r| == NONCE_BYTES
  {
    seq(NONCE_BYTES, _ => 0 as byte)
  }

  // What a client sends first: version, whether it asks for encryption, the name after its
  // length, the nonce or zeros.
  lemma HelloLayout(name: seq<byte>, key: Option<Key>, nonce: seq<byte>)
    requires |name| < 256 && |nonce| == NONCE_BYTES
    ensures var hello := Hello(name, key, nonce);
            && |hello| == 3 + |name| + 24 && hello[0] == 1 && hello[1] == (if key.Some? then 1 else 0)
            && hello[2] as int == |name| && hello[3..3 + |name|] == name
            && (if key.Some? then hello[3 + |name|..] == nonce
                else forall k :: 3 + |name| <= k < |hello| ==> hello[k] == 0)
  {
    assert SentName(name) == name;
  }

  // One side's view of a finished handshake.
  datatype Side = Rejected | Ready(mode: Mode, sendNonce: seq<byte>, recvNonce: seq<byte>)

  // The name as it travels: its length is sent as one byte.
  function SentName(name: seq<byte>): seq<byte> {
    name[..|name| % 256]
  }

  // [version][flags][name length][name][nonce]
  function Hello(name: seq<byte>, key: Option<Key>, nonce: seq<byte>): seq<byte> {
    [RPC_VERSION, if key.Some? then RPC_FLAG_ENCRYPTED else 0, |name| % 256]
    + SentName(name) + (if key.Some? then nonce else Zeros())
  }

  // server_handshake: the server's view, and [version][status][nonce] as its answer.
  function Serve(keys: map<seq<byte>, Key>, hello: seq<byte>, nonce: seq<byte>): (Side, seq<byte>)
    requires |hello| >= 3 && |hello| == 3 + (hello[2] as int) + NONCE_BYTES
  {
    var encrypted := hello[1] % 2 == 1;
    var name := hello[3..3 + hello[2] as int];
    var clientNonce := hello[3 + hello[2] as int..];
    if (keys != map[] && !encrypted) || (encrypted && name !in keys) then
      (Rejected, [RPC_VERSION, 1] + Zeros())
    else if encrypted then
      (Ready(Sealed(keys[name]), nonce, clientNonce), [RPC_VERSION, 0] + nonce)
    else
      (Ready(Plain, Zeros(), clientNonce), [RPC_VERSION, 0] + Zeros())
  }

  // The end of client_handshake.
  function Finish(key: Option<Key>, nonce: seq<byte>, reply: seq<byte>): Side
    requires |reply| == 2 + NONCE_BYTES
  {
    if reply[1] != 0 then Rejected
    else if key.Some? then Ready(Sealed(key.value), nonce, reply[2..])
    else Ready(Plain, Zeros(), reply[2..])
  }

  // Both sides accept or both reject.  They accept exactly when the client asks for no
  // encryption and the server has no keys, or names (up to the truncation of its length
  // to a byte) a key the server has; each then expects the nonce the other sends first.
  lemma HandshakeAgrees(
      keys: map<seq<byte>, Key>, name: seq<byte>, key: Option<Key>, clientNonce: seq<byte>, serverNonce: seq<byte>)
    requires |clientNonce| == |serverNonce| == NONCE_BYTES
    ensures var (server, reply) := Serve(keys, Hello(name, key, clientNonce), serverNonce);
            var client := Finish(key, clientNonce, reply);
            && (server.Ready? <==> client.Ready?)
            && (client.Ready? <==> if key.None? then keys == map[] else SentName(name) in keys)
            && (client.Ready? ==>
                  && client.sendNonce == server.recvNonce && server.sendNonce == client.recvNonce
                  && (key.None? ==> client.mode == server.mode == Plain)
                  && (key.Some? ==> client.mode == Sealed(key.value) && server.mode == Sealed(keys[SentName(name)])))
  {
    var hello := Hello(name, key, clientNonce);
    var n := |name| % 256;
    assert hello[3..3 + n] == SentName(name);
    assert hello[3 + n..] == if key.Some? then clientNonce else Zeros();
    var reply := Serve(keys, hello, serverNonce).1;
    assert reply[2..] == if reply[1] == 0 && key.Some? then serverNonce else Zeros();
  }
}
