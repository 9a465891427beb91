/** The stored form of a message: plain, extended and delayed. */
module Codec {
  import opened Wrappers

  type Byte = x: int | 0 <= x < 256

  const MIN_VALID_MSG_LENGTH := 26
  const MAX_ATTEMPTS := 4000
  const EXT_MSG_HIGH_BITS := 0xa000
  const NO_EXT_VER: int := 0
  const CHANNEL_DELAYED := 1
  const PUB_DELAYED := 2

  // ---------------------------------------------------------------- big-endian numbers

  function Limit(n: nat): (l: nat)
    ensures l > 0
  {
    if n == 0 then 1 else 256 * Limit(n - 1)
  }

  function Put(v: nat, n: nat): (s: seq<Byte>)
    ensures |s| == n
  {
    if n == 0 then [] else Put(v / 256, n - 1) + [v % 256]
  }

  function Get(s: seq<Byte>): (v: nat) {
    if s == [] then 0 else Get(s[..|s| - 1]) * 256 + s[|s| - 1]
  }

  /** A number is its quotient and its remainder, however the quotient was split again. */
  lemma ModSplit(v: nat, l: nat)
    requires l > 0
    ensures v % (256 * l) == v / 256 % l * 256 + v % 256
  {
    var q, r := v / 256, v % 256;
    var a, b := q / l, q % l;
    assert v == 256 * (a * l + b) + r;
    assert 256 * (a * l) == a * (256 * l);
    ModUnique(v, 256 * l, a, b * 256 + r);
  }

  lemma ModUnique(v: nat, d: nat, a: nat, m: nat)
    requires d > 0 && m < d && v == a * d + m
    ensures v % d == m
  {
    var c, r := v / d, v % d;
    assert c * d + r == a * d + m;
    if c < a {
      Distribute(a, c, d);
    } else if a < c {
      Distribute(c, a, d);
    }
  }

  lemma {:induction false} Distribute(a: nat, c: nat, d: nat)
    requires c < a
    ensures a * d - c * d >= d
    decreases a
  {
    assert a * d == (a - 1) * d + d;
    if c < a - 1 {
      Distribute(a - 1, c, d);
    }
  }

  /** Reading back gives the value modulo the width it was written with. */
  lemma {:induction false} GetPut(v: nat, n: nat)
    ensures Get(Put(v, n)) == v % Limit(n)
    decreases n
  {
    if n > 0 {
      GetPut(v / 256, n - 1);
      assert Put(v, n)[..n - 1] == Put(v / 256, n - 1);
      ModSplit(v, Limit(n - 1));
    }
  }

  /** The number in n bytes at a position. */
  function At(b: seq<Byte>, pos: nat, n: nat): (v: nat)
    requires pos + n <= |b|
  {
    Get(b[pos..pos + n])
  }

  /** A value that fits its width reads back. */
  lemma GetFits(v: nat, n: nat)
    requires v < Limit(n)
    ensures Get(Put(v, n)) == v
  {
    GetPut(v, n);
    ModSame(v, Limit(n));
  }

  lemma ModSame(v: int, l: nat)
    requires l > 0
    ensures v % l == v <==> 0 <= v < l
  {}

  lemma Limits()
    ensures Limit(1) == 0x100 && Limit(2) == 0x1_0000 && Limit(4) == 0x1_0000_0000
    ensures Limit(8) == 0x1_0000_0000_0000_0000
  {
    assert Limit(3) == 0x100_0000 && Limit(5) == 0x100_0000_0000;
    assert Limit(6) == 0x1_0000_0000_0000 && Limit(7) == 0x100_0000_0000_0000;
  }

  /** x is a signed number of n bytes. */
  predicate Fits(x: int, n: nat) { 0 - Limit(n) <= 2 * x < Limit(n) }

  /** Two's complement in n bytes. */
  function Unsigned(x: int, n: nat): (u: nat)
    requires Fits(x, n)
    ensures u < Limit(n)
  {
    if x < 0 then x + Limit(n) else x
  }

  function Signed(u: nat, n: nat): (x: int) {
    if 2 * u >= Limit(n) then u - Limit(n) else u
  }

  // ---------------------------------------------------------------- messages

  /** The fields of a message that are stored. */
  datatype Message = Message(
    id: nat,
    traceId: nat,
    timestamp: int,
    attempts: nat,
    extVer: int,
    extBytes: seq<Byte>,
    body: seq<Byte>,
    delayed: Delayed)

  datatype Delayed = Delayed(
    kind: int,
    ts: int,
    origId: nat,
    channel: seq<Byte>,
    data: seq<Byte>,
    offset: int,
    rawMoveSize: int)

  const NOT_DELAYED := Delayed(0, 0, 0, [], [], 0, 0)

  datatype Result = Ok(message: Message) | Invalid | Panic

  /** The ranges of the Go types, for slices the lengths the format can tell apart. */
  ghost predicate Typed(m: Message) {
    && m.id < Limit(8) && m.traceId < Limit(8) && Fits(m.timestamp, 8)
    && m.attempts < Limit(2) && 0 <= m.extVer < 256
    && Fits(m.delayed.kind, 4) && Fits(m.delayed.ts, 8)
    && m.delayed.origId < Limit(8) && Fits(m.delayed.offset, 8)
    && |m.delayed.channel| < Limit(4) && |m.delayed.data| < Limit(4) && Fits(m.delayed.rawMoveSize, 8)
  }

  function Capped(attempts: nat): (a: nat) { if attempts > MAX_ATTEMPTS then MAX_ATTEMPTS else attempts }

  /** The attempts field with the format version in its high four bits. */
  function Combined(attempts: nat, writeExt: bool): (c: nat) {
    Capped(attempts) + if writeExt then EXT_MSG_HIGH_BITS else 0
  }

  function HighBits(c: nat): (h: nat) { if c > MAX_ATTEMPTS then c / 4096 * 4096 else 0 }

  function AttemptsOf(c: nat): (a: nat) { if c > MAX_ATTEMPTS then c % 4096 else c }

  lemma CombinedSplits(attempts: nat, writeExt: bool)
    ensures var c := Combined(attempts, writeExt);
            && c < 0x1_0000 && AttemptsOf(c) == Capped(attempts)
            && HighBits(c) == if writeExt then EXT_MSG_HIGH_BITS else 0
  {}

  datatype Header = Header(timestamp: nat, combined: nat, id: nat, traceId: nat)

  function WriteHeader(h: Header): (s: seq<Byte>)
    ensures |s| == MIN_VALID_MSG_LENGTH
  {
    Put(h.timestamp, 8) + Put(h.combined, 2) + Put(h.id, 8) + Put(h.traceId, 8)
  }

  function ReadHeader(b: seq<Byte>): (h: Header)
    requires |b| >= MIN_VALID_MSG_LENGTH
  {
    Header(At(b, 0, 8), At(b, 8, 2), At(b, 10, 8), At(b, 18, 8))
  }

  lemma HeaderParts(a: seq<Byte>, c: seq<Byte>, i: seq<Byte>, r: seq<Byte>, t: seq<Byte>)
    requires |a| == 8 && |c| == 2 && |i| == 8 && |r| == 8
    ensures var b := a + c + i + r + t;
            b[0..8] == a && b[8..10] == c && b[10..18] == i && b[18..26] == r && b[26..] == t
  {}

  lemma HeaderRoundTrip(h: Header, t: seq<Byte>)
    requires h.timestamp < Limit(8) && h.combined < Limit(2) && h.id < Limit(8) && h.traceId < Limit(8)
    ensures ReadHeader(WriteHeader(h) + t) == h && (WriteHeader(h) + t)[MIN_VALID_MSG_LENGTH..] == t
  {
    HeaderParts(Put(h.timestamp, 8), Put(h.combined, 2), Put(h.id, 8), Put(h.traceId, 8), t);
    GetFits(h.timestamp, 8);
    GetFits(h.combined, 2);
    GetFits(h.id, 8);
    GetFits(h.traceId, 8);
  }

  function HeaderOf(m: Message, writeExt: bool): (h: Header)
    requires Fits(m.timestamp, 8)
  {
    Header(Unsigned(m.timestamp, 8), Combined(m.attempts, writeExt), m.id, m.traceId)
  }

  // ---------------------------------------------------------------- plain and extended messages

  /** The extension as written: version, and for a real version a 16-bit length and the bytes. */
  function WriteExt(m: Message): (s: seq<Byte>)
    requires 0 <= m.extVer < 256
  {
    [m.extVer] + if m.extVer == NO_EXT_VER then [] else Put(|m.extBytes| % 0x1_0000, 2) + m.extBytes
  }

  /** internalWriteTo, in the stored form. */
  function Encode(m: Message, writeExt: bool): (b: seq<Byte>)
    requires Typed(m)
  {
    WriteHeader(HeaderOf(m, writeExt)) + (if writeExt then WriteExt(m) else []) + m.body
  }

  /** decodeMessage. The end of the extension is computed in 16 bits. */
  function Decode(b: seq<Byte>, isExt: bool): (r: Result) {
    if |b| < MIN_VALID_MSG_LENGTH then Invalid
    else
      var h, t := ReadHeader(b), b[MIN_VALID_MSG_LENGTH..];
      var m := Message(h.id, h.traceId, Signed(h.timestamp, 8), AttemptsOf(h.combined), NO_EXT_VER, [], t, NOT_DELAYED);
      if HighBits(h.combined) != EXT_MSG_HIGH_BITS then Ok(m)
      else if !isExt then Invalid
      else if |t| < 1 then Invalid
      else if t[0] == NO_EXT_VER then Ok(m.(body := t[1..]))
      else if |t| < 3 then Invalid
      else
        var n := At(t, 1, 2);
        if |t| < 3 + n then Invalid
        else if (29 + n) % 0x1_0000 < 29 then Panic
        else Ok(m.(extVer := t[0], extBytes := t[3..(29 + n) % 0x1_0000 - 26], body := t[3 + n..]))
  }

  /** What the stored form keeps of a message. */
  function Kept(m: Message, writeExt: bool): (r: Message) {
    var withExt := writeExt && m.extVer != NO_EXT_VER;
    m.(attempts := Capped(m.attempts), delayed := NOT_DELAYED,
       extVer := if withExt then m.extVer else NO_EXT_VER,
       extBytes := if withExt then m.extBytes else [])
  }

  lemma HeaderFits(m: Message, writeExt: bool, t: seq<Byte>)
    requires Typed(m)
    ensures var b := WriteHeader(HeaderOf(m, writeExt)) + t;
            && ReadHeader(b) == HeaderOf(m, writeExt) && b[MIN_VALID_MSG_LENGTH..] == t
            && Signed(ReadHeader(b).timestamp, 8) == m.timestamp
  {
    Limits();
    CombinedSplits(m.attempts, writeExt);
    HeaderRoundTrip(HeaderOf(m, writeExt), t);
  }

  /** Without the extension, decoding undoes encoding, for either kind of reader. */
  lemma PlainRoundTrip(m: Message, isExt: bool)
    requires Typed(m)
    ensures Decode(Encode(m, false), isExt) == Ok(Kept(m, false))
  {
    HeaderFits(m, false, m.body);
    CombinedSplits(m.attempts, false);
    assert Encode(m, false) == WriteHeader(HeaderOf(m, false)) + m.body;
  }

  /** Extended bytes are rejected by a reader that does not know extensions. */
  lemma ExtRejected(m: Message)
    requires Typed(m)
    ensures Decode(Encode(m, true), false) == Invalid
  {
    HeaderFits(m, true, WriteExt(m) + m.body);
    CombinedSplits(m.attempts, true);
    assert Encode(m, true) == WriteHeader(HeaderOf(m, true)) + (WriteExt(m) + m.body);
  }

  lemma ExtParts(v: Byte, h: seq<Byte>, e: seq<Byte>, body: seq<Byte>)
    requires |h| == 2
    ensures var t := [v] + (h + e) + body;
            |t| == 3 + |e| + |body| && t[0] == v && t[1..3] == h && t[3..] == e + body
  {}

  /** How the extension of an encoded message reads. */
  lemma ExtReads(m: Message)
    requires 0 < m.extVer < 256
    ensures var t, n := WriteExt(m) + m.body, |m.extBytes| % 0x1_0000;
            && |t| >= 3 + n && t[0] == m.extVer && At(t, 1, 2) == n
            && t[3..] == m.extBytes + m.body
  {
    Limits();
    var n := |m.extBytes| % 0x1_0000;
    ExtParts(m.extVer, Put(n, 2), m.extBytes, m.body);
    GetFits(n, 2);
  }

  /** What decoding makes of an extended message: the length is cut to 16 bits, and so is the
      end computed from it. */
  function ExtResult(m: Message): (r: Result) {
    var n, rest := |m.extBytes| % 0x1_0000, m.extBytes + m.body;
    if m.extVer == NO_EXT_VER then Ok(Kept(m, true))
    else if (29 + n) % 0x1_0000 < 29 then Panic
    else Ok(Kept(m, true).(extBytes := rest[..n], body := rest[n..]))
  }

  /** What it makes of the part behind the header. */
  lemma ExtTail(m: Message)
    requires 0 < m.extVer < 256
    ensures var t, n, rest := WriteExt(m) + m.body, |m.extBytes| % 0x1_0000, m.extBytes + m.body;
            && |t| >= 3 + n && t[0] == m.extVer && At(t, 1, 2) == n
            && t[3..3 + n] == rest[..n] && t[3 + n..] == rest[n..]
  {
    var t, n := WriteExt(m) + m.body, |m.extBytes| % 0x1_0000;
    ExtReads(m);
    assert t[3..3 + n] == t[3..][..n] && t[3 + n..] == t[3..][n..];
  }

  lemma ExtDecodes(m: Message)
    requires Typed(m)
    ensures Decode(Encode(m, true), true) == ExtResult(m)
  {
    var t := WriteExt(m) + m.body;
    HeaderFits(m, true, t);
    CombinedSplits(m.attempts, true);
    assert Encode(m, true) == WriteHeader(HeaderOf(m, true)) + t;
    CutLength(|m.extBytes|);
    if m.extVer != NO_EXT_VER {
      ExtTail(m);
    }
  }

  lemma CutLength(l: nat)
    ensures l < 0x1_0000 ==> l % 0x1_0000 == l
    ensures (29 + l % 0x1_0000) % 0x1_0000 < 29 <==> l % 0x1_0000 > 65506
    ensures l % 0x1_0000 < 0x1_0000
  {}

  lemma ExtExact(m: Message)
    requires m.extVer != NO_EXT_VER
    ensures ExtResult(m) == Ok(Kept(m, true)) <==> |m.extBytes| <= 65506
  {
    var n, rest := |m.extBytes| % 0x1_0000, m.extBytes + m.body;
    CutLength(|m.extBytes|);
    if |m.extBytes| < 0x1_0000 {
      assert rest[..n] == m.extBytes && rest[n..] == m.body;
    } else if n <= 65506 {
      assert ExtResult(m).message.extBytes == rest[..n] && |rest[..n]| == n;
      assert Kept(m, true).extBytes == m.extBytes;
    }
  }

  /** With the extension, decoding undoes encoding exactly when there is none or its bytes are
      at most 65506. */
  lemma ExtRoundTrip(m: Message)
    requires Typed(m)
    ensures Decode(Encode(m, true), true) == Ok(Kept(m, true)) <==> m.extVer == NO_EXT_VER || |m.extBytes| <= 65506
  {
    ExtDecodes(m);
    if m.extVer != NO_EXT_VER {
      ExtExact(m);
    }
  }

  lemma ExtSlices(m: Message, t: seq<Byte>)
    requires 0 < m.extVer < 256 && t == WriteExt(m) + m.body && t[3..] == m.extBytes + m.body
    ensures |m.extBytes| < 0x1_0000 ==> t[3..3 + |m.extBytes|] == m.extBytes && t[3 + |m.extBytes|..] == m.body
  {
    assert t[3..3 + |m.extBytes|] == t[3..][..|m.extBytes|];
    assert t[3 + |m.extBytes|..] == t[3..][|m.extBytes|..];
  }

  // ---------------------------------------------------------------- delayed messages

  function WriteBlock(s: seq<Byte>): (r: seq<Byte>) { Put(|s| % 0x1_0000_0000, 4) + s }

  function WriteFront(d: Delayed): (s: seq<Byte>)
    requires Fits(d.kind, 4) && Fits(d.ts, 8)
    ensures |s| == 20
  {
    Put(Unsigned(d.kind, 4), 4) + Put(Unsigned(d.ts, 8), 8) + Put(d.origId, 8)
  }

  function WriteBlocks(d: Delayed): (s: seq<Byte>) {
    WriteBlock(d.channel) + if d.kind == PUB_DELAYED then WriteBlock(d.data) else []
  }

  function WriteDelayed(d: Delayed): (s: seq<Byte>)
    requires Fits(d.kind, 4) && Fits(d.ts, 8)
  {
    WriteFront(d) + WriteBlocks(d)
  }

  function WriteOrigin(d: Delayed): (s: seq<Byte>)
    requires Fits(d.offset, 8)
  {
    if d.kind == CHANNEL_DELAYED then Put(Unsigned(d.offset, 8), 8) + Put(d.rawMoveSize % Limit(4), 4) else []
  }

  /** WriteDelayedTo, which refuses an extension of 65535 bytes or more. */
  function EncodeDelayed(m: Message, writeExt: bool): (r: Option<seq<Byte>>)
    requires Typed(m)
  {
    if writeExt && m.extVer != NO_EXT_VER && |m.extBytes| >= 65535 then None
    else
      Some(WriteHeader(HeaderOf(m, writeExt)) + WriteDelayed(m.delayed)
           + (if writeExt then WriteExt(m) else []) + WriteOrigin(m.delayed) + m.body)
  }

  /** A length-prefixed block at the front: the block and the rest. */
  function ReadBlock(t: seq<Byte>): (r: Option<(seq<Byte>, seq<Byte>)>)
    ensures r.Some? ==> |r.value.1| <= |t| - 4
  {
    if |t| < 4 then None
    else
      var n := At(t, 0, 4);
      if |t| < 4 + n then None else Some((t[4..4 + n], t[4 + n..]))
  }

  /** The delayed fields, and the rest. */
  function ReadDelayed(t: seq<Byte>): (r: Option<(Delayed, seq<Byte>)>) {
    if |t| < 4 + 8 + 8 + 4 then None
    else
      var kind, ts, origId := Signed(At(t, 0, 4), 4), Signed(At(t, 4, 8), 8), At(t, 12, 8);
      var channel := ReadBlock(t[20..]);
      if channel.None? then None
      else
        var d := Delayed(kind, ts, origId, channel.value.0, [], 0, 0);
        if kind != PUB_DELAYED then Some((d, channel.value.1))
        else
          var data := ReadBlock(channel.value.1);
          if data.None? then None else Some((d.(data := data.value.0), data.value.1))
  }

  /** The extension, and the rest. */
  function ReadExt(t: seq<Byte>): (r: Option<(int, seq<Byte>, seq<Byte>)>) {
    if |t| < 1 then None
    else if t[0] == NO_EXT_VER then Some((NO_EXT_VER, [], t[1..]))
    else if |t| < 3 then None
    else
      var n := At(t, 1, 2);
      if |t| < 3 + n then None else Some((t[0], t[3..3 + n], t[3 + n..]))
  }

  /** The original queue position of a channel-delayed message, then the body. */
  function ReadOrigin(m: Message, t: seq<Byte>): (r: Result) {
    if m.delayed.kind != CHANNEL_DELAYED then Ok(m.(body := t))
    else if |t| < 12 then Invalid
    else Ok(m.(delayed := m.delayed.(offset := Signed(At(t, 0, 8), 8), rawMoveSize := At(t, 8, 4)), body := t[12..]))
  }

  /** The extension, if the header promises one, and the origin. */
  function ReadRest(m: Message, combined: nat, t: seq<Byte>, isExt: bool): (r: Result) {
    if HighBits(combined) != EXT_MSG_HIGH_BITS then ReadOrigin(m, t)
    else if !isExt then Invalid
    else
      var e := ReadExt(t);
      if e.None? then Invalid else ReadOrigin(m.(extVer := e.value.0, extBytes := e.value.1), e.value.2)
  }

  /** A message without extension and body. */
  function Bare(h: Header, d: Delayed): (m: Message) {
    Message(h.id, h.traceId, Signed(h.timestamp, 8), AttemptsOf(h.combined), NO_EXT_VER, [], [], d)
  }

  /** DecodeDelayedMessage. */
  function DecodeDelayed(b: seq<Byte>, isExt: bool): (r: Result) {
    if |b| < MIN_VALID_MSG_LENGTH then Invalid
    else
      var h, d := ReadHeader(b), ReadDelayed(b[MIN_VALID_MSG_LENGTH..]);
      if d.None? then Invalid else ReadRest(Bare(h, d.value.0), h.combined, d.value.1, isExt)
  }

  /** What the delayed form is to keep: the data of a delayed publish, the origin of a message
      that a channel delayed. */
  function KeptDelayed(d: Delayed): (r: Delayed) {
    d.(data := if d.kind == PUB_DELAYED then d.data else [],
       offset := if d.kind == CHANNEL_DELAYED then d.offset else 0,
       rawMoveSize := if d.kind == CHANNEL_DELAYED then d.rawMoveSize else 0)
  }

  lemma BlockParts(h: seq<Byte>, s: seq<Byte>, t: seq<Byte>)
    requires |h| == 4
    ensures var b := h + s + t;
            b[0..4] == h && b[4..4 + |s|] == s && b[4 + |s|..] == t
  {}

  lemma BlockReads(h: seq<Byte>, s: seq<Byte>, t: seq<Byte>)
    requires |h| == 4 && Get(h) == |s|
    ensures ReadBlock(h + s + t) == Some((s, t))
  {
    BlockParts(h, s, t);
  }

  lemma BlockRoundTrip(s: seq<Byte>, t: seq<Byte>)
    requires |s| < Limit(4)
    ensures ReadBlock(WriteBlock(s) + t) == Some((s, t))
  {
    Limits();
    ModSame(|s|, 0x1_0000_0000);
    GetFits(|s|, 4);
    BlockReads(Put(|s|, 4), s, t);
  }

  lemma FrontParts(k: seq<Byte>, s: seq<Byte>, o: seq<Byte>, t: seq<Byte>)
    requires |k| == 4 && |s| == 8 && |o| == 8
    ensures var b := k + s + o + t;
            b[0..4] == k && b[4..12] == s && b[12..20] == o && b[20..] == t
  {}

  lemma DelayedFront(d: Delayed, t: seq<Byte>)
    requires Fits(d.kind, 4) && Fits(d.ts, 8) && d.origId < Limit(8)
    ensures var b := WriteFront(d) + t;
            && Signed(At(b, 0, 4), 4) == d.kind && Signed(At(b, 4, 8), 8) == d.ts && At(b, 12, 8) == d.origId
            && b[20..] == t
  {
    FrontParts(Put(Unsigned(d.kind, 4), 4), Put(Unsigned(d.ts, 8), 8), Put(d.origId, 8), t);
    GetFits(Unsigned(d.kind, 4), 4);
    GetFits(Unsigned(d.ts, 8), 8);
    GetFits(d.origId, 8);
  }

  lemma BlocksRoundTrip(d: Delayed, t: seq<Byte>)
    requires |d.channel| < Limit(4) && |d.data| < Limit(4)
    ensures ReadBlock(WriteBlocks(d) + t).Some? && ReadBlock(WriteBlocks(d) + t).value.0 == d.channel
    ensures var rest := ReadBlock(WriteBlocks(d) + t).value.1;
            if d.kind == PUB_DELAYED then ReadBlock(rest) == Some((d.data, t)) else rest == t
  {
    var data := if d.kind == PUB_DELAYED then WriteBlock(d.data) else [];
    assert WriteBlocks(d) + t == WriteBlock(d.channel) + (data + t);
    BlockRoundTrip(d.channel, data + t);
    if d.kind == PUB_DELAYED {
      BlockRoundTrip(d.data, t);
    }
  }

  lemma DelayedFieldsRoundTrip(d: Delayed, t: seq<Byte>)
    requires Fits(d.kind, 4) && Fits(d.ts, 8) && d.origId < Limit(8)
    requires |d.channel| < Limit(4) && |d.data| < Limit(4)
    ensures ReadDelayed(WriteDelayed(d) + t) ==
            Some((Fields(d), t))
  {
    var rest := WriteBlocks(d) + t;
    assert WriteDelayed(d) + t == WriteFront(d) + rest;
    DelayedFront(d, rest);
    BlocksRoundTrip(d, t);
  }

  lemma ExtFieldRoundTrip(m: Message, t: seq<Byte>)
    requires 0 <= m.extVer < 256 && (m.extVer != NO_EXT_VER ==> |m.extBytes| < 65535)
    ensures ReadExt(WriteExt(m) + t) == Some((m.extVer, if m.extVer == NO_EXT_VER then [] else m.extBytes, t))
  {
    if m.extVer != NO_EXT_VER {
      var x := m.(body := t);
      ExtReads(x);
      ExtSlices(x, WriteExt(x) + t);
    }
  }

  /** What it does keep: four bytes of the original size. */
  function Stored(d: Delayed): (r: Delayed) {
    KeptDelayed(d).(rawMoveSize := KeptDelayed(d).rawMoveSize % Limit(4))
  }

  lemma OriginRoundTrip(m: Message, d: Delayed, t: seq<Byte>)
    requires Fits(d.offset, 8)
    requires m.delayed == KeptDelayed(d).(offset := 0, rawMoveSize := 0)
    ensures ReadOrigin(m, WriteOrigin(d) + t) == Ok(m.(delayed := Stored(d), body := t))
  {
    if d.kind == CHANNEL_DELAYED {
      var o, r := Put(Unsigned(d.offset, 8), 8), Put(d.rawMoveSize % Limit(4), 4);
      var b := WriteOrigin(d) + t;
      GetFits(Unsigned(d.offset, 8), 8);
      GetFits(d.rawMoveSize % Limit(4), 4);
      assert b == o + r + t && b[0..8] == o && b[8..12] == r && b[12..] == t;
    } else {
      assert WriteOrigin(d) + t == t;
    }
  }

  /** Decoding undoes encoding for delayed messages of every kind, extended or not, exactly when
      the original size of one that a channel delayed fits its four bytes. */
  lemma DelayedRoundTrip(m: Message, writeExt: bool)
    requires Typed(m) && EncodeDelayed(m, writeExt).Some?
    ensures DecodeDelayed(EncodeDelayed(m, writeExt).value, writeExt) ==
            Ok(Kept(m, writeExt).(delayed := KeptDelayed(m.delayed))) <==>
            m.delayed.kind != CHANNEL_DELAYED || 0 <= m.delayed.rawMoveSize < Limit(4)
  {
    DelayedReads(m, writeExt);
    StoredExact(m.delayed);
    DelayedApart(Kept(m, writeExt), Stored(m.delayed), KeptDelayed(m.delayed));
  }

  lemma DelayedApart(m: Message, d: Delayed, e: Delayed)
    ensures Ok(m.(delayed := d)) == Ok(m.(delayed := e)) <==> d == e
  {
    assert m.(delayed := d).delayed == d && m.(delayed := e).delayed == e;
  }

  lemma StoredExact(d: Delayed)
    ensures Stored(d) == KeptDelayed(d) <==> d.kind != CHANNEL_DELAYED || 0 <= d.rawMoveSize < Limit(4)
  {
    ModSame(KeptDelayed(d).rawMoveSize, Limit(4));
  }

  /** The delayed fields as they are read back, before the origin. */
  function Fields(d: Delayed): (r: Delayed) {
    Delayed(d.kind, d.ts, d.origId, d.channel, if d.kind == PUB_DELAYED then d.data else [], 0, 0)
  }

  function Tail(m: Message, writeExt: bool): (t: seq<Byte>)
    requires Typed(m)
  {
    (if writeExt then WriteExt(m) else []) + (WriteOrigin(m.delayed) + m.body)
  }

  lemma EncodedParts(m: Message, writeExt: bool)
    requires Typed(m) && EncodeDelayed(m, writeExt).Some?
    ensures EncodeDelayed(m, writeExt).value ==
            WriteHeader(HeaderOf(m, writeExt)) + (WriteDelayed(m.delayed) + Tail(m, writeExt))
  {}

  lemma HeadReads(m: Message, writeExt: bool)
    requires Typed(m) && EncodeDelayed(m, writeExt).Some?
    ensures var h := HeaderOf(m, writeExt);
            DecodeDelayed(EncodeDelayed(m, writeExt).value, writeExt) ==
            ReadRest(Bare(h, Fields(m.delayed)), h.combined, Tail(m, writeExt), writeExt)
  {
    EncodedParts(m, writeExt);
    HeaderFits(m, writeExt, WriteDelayed(m.delayed) + Tail(m, writeExt));
    DelayedFieldsRoundTrip(m.delayed, Tail(m, writeExt));
  }

  lemma BareKept(m: Message, writeExt: bool)
    requires Typed(m)
    ensures Bare(HeaderOf(m, writeExt), Fields(m.delayed)) ==
            Kept(m, false).(delayed := Fields(m.delayed), body := [])
    ensures Fields(m.delayed) == KeptDelayed(m.delayed).(offset := 0, rawMoveSize := 0)
  {
    CombinedSplits(m.attempts, writeExt);
    HeaderFits(m, writeExt, []);
  }

  lemma DelayedReads(m: Message, writeExt: bool)
    requires Typed(m) && EncodeDelayed(m, writeExt).Some?
    ensures DecodeDelayed(EncodeDelayed(m, writeExt).value, writeExt) ==
            Ok(Kept(m, writeExt).(delayed := Stored(m.delayed)))
  {
    var origin := WriteOrigin(m.delayed) + m.body;
    HeadReads(m, writeExt);
    BareKept(m, writeExt);
    CombinedSplits(m.attempts, writeExt);
    if writeExt {
      ExtFieldRoundTrip(m, origin);
    } else {
      assert Tail(m, writeExt) == origin;
    }
    OriginRoundTrip(Kept(m, writeExt).(delayed := Fields(m.delayed), body := []), m.delayed, m.body);
  }

  lemma DelayedVersion(m: Message, writeExt: bool)
    requires Typed(m) && EncodeDelayed(m, writeExt).Some?
    ensures var b := EncodeDelayed(m, writeExt).value;
            |b| >= MIN_VALID_MSG_LENGTH && HighBits(ReadHeader(b).combined) == if writeExt then EXT_MSG_HIGH_BITS else 0
  {
    EncodedParts(m, writeExt);
    HeaderFits(m, writeExt, WriteDelayed(m.delayed) + Tail(m, writeExt));
    CombinedSplits(m.attempts, writeExt);
  }

  /** A reader that knows extensions reads delayed bytes without one unchanged; one that does
      not rejects those that have one. */
  lemma DelayedReaders(m: Message)
    requires Typed(m)
    ensures DecodeDelayed(EncodeDelayed(m, false).value, true) == DecodeDelayed(EncodeDelayed(m, false).value, false)
    ensures EncodeDelayed(m, true).Some? ==> DecodeDelayed(EncodeDelayed(m, true).value, false) == Invalid
  {
    DelayedVersion(m, false);
    if EncodeDelayed(m, true).Some? {
      DelayedVersion(m, true);
    }
  }
}
