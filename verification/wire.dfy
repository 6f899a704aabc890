/** The MQTT 3.1.1 wire format of the embedded broker: remaining lengths, strings, PUBLISH packets and
    SUBSCRIBE bodies.  Text is represented by its UTF-8 bytes. */
module Wire {
  import opened Options

  type Byte = b: int | 0 <= b < 256

  // ---------------------------------------------------------------- remaining length

  function Pow128(k: nat): nat {
    if k == 0 then 1 else 128 * Pow128(k - 1)
  }

  function Length(n: nat): (bytes: seq<Byte>)
    ensures |bytes| > 0
  {
    if n < 128 then [n] else [n % 128 + 128] + Length(n / 128)
  }

  method EncodeLength(n: nat) returns (out: seq<Byte>)
    ensures out == Length(n)
  {
    var rest := n;
    out := [];
    while true
      invariant out + Length(rest) == Length(n)
      decreases rest
    {
      var byte := rest % 128;
      rest := rest / 128;
      if rest != 0 {
        byte := byte + 128;
      }
      out := out + [byte];
      if rest == 0 {
        return;
      }
    }
  }

  /** What reading from a stream comes to: a value and the bytes after it, a stream that ended too soon, or
      an error. */
  datatype Read<T> = Got(value: T, rest: seq<Byte>) | Incomplete | Malformed

  /** A remaining length of at most `left` bytes. */
  function LengthOf(input: seq<Byte>, left: nat): Read<nat> {
    if left == 0 then Malformed
    else if input == [] then Incomplete
    else if input[0] < 128 then Got(input[0], input[1..])
    else Scaled(input[0] - 128, 128, LengthOf(input[1..], left - 1))
  }

  function Scaled(base: nat, mult: nat, r: Read<nat>): Read<nat> {
    match r
    case Got(n, rest) => Got(base + mult * n, rest)
    case _ => r
  }

  datatype Packet = Packet(b0: Byte, body: seq<Byte>)

  function PacketOf(input: seq<Byte>): Read<Packet> {
    if input == [] then Incomplete else
    match LengthOf(input[1..], 4)
    case Got(n, rest) => if n <= |rest| then Got(Packet(input[0], rest[..n]), rest[n..]) else Incomplete
    case Incomplete => Incomplete
    case Malformed => Malformed
  }

  /** One more digit of a number read least significant digit first. */
  function PlusDigit(length: nat, digit: nat, mult: nat): (n: nat)
    ensures n == length + digit * mult
  {
    length + digit * mult
  }

  lemma {:induction false} ScaledTwice(length: nat, mult: nat, digit: nat, r: Read<nat>)
    ensures Scaled(length, mult, Scaled(digit, 128, r)) == Scaled(PlusDigit(length, digit, mult), mult * 128, r)
    ensures Scaled(PlusDigit(length, digit, mult), mult * 128, r).Got? ==> r.Got?
  {
    if r.Got? {
      assert mult * (digit + 128 * r.value) == digit * mult + (mult * 128) * r.value;
    }
  }

  lemma {:induction false} ScaledCases(length: nat, mult: nat, r: Read<nat>)
    ensures Scaled(0, 1, r) == r
    ensures r.Got? ==> Scaled(length, mult, r) == Got(PlusDigit(length, r.value, mult), r.rest)
    ensures !r.Got? ==> Scaled(length, mult, r) == r
  {
  }

  /** Reads one packet off the stream: a type byte, at most four length bytes, the body. */
  method ReadPacket(input: seq<Byte>) returns (r: Read<Packet>)
    ensures r == PacketOf(input)
  {
    hide Scaled;
    if input == [] {
      return Incomplete;
    }
    ScaledCases(0, 1, LengthOf(input[1..], 4));
    var length: nat, mult: nat := 0, 1;
    var i, rest, done := 0, input[1..], false;
    while i < 4 && !done
      invariant 0 <= i <= 4
      invariant !done ==> LengthOf(input[1..], 4) == Scaled(length, mult, LengthOf(rest, 4 - i))
      invariant done ==> LengthOf(input[1..], 4) == Got(length, rest)
      decreases 4 - i, !done
    {
      ScaledCases(length, mult, LengthOf(rest, 4 - i));
      if rest == [] {
        return Incomplete;
      }
      var byte := rest[0];
      ghost var after := LengthOf(rest[1..], 3 - i);
      if byte < 128 {
        length := PlusDigit(length, byte, mult);
        done := true;
      } else {
        ScaledTwice(length, mult, byte - 128, after);
        length := PlusDigit(length, byte - 128, mult);
        mult := mult * 128;
      }
      rest := rest[1..];
      i := i + 1;
    }
    ScaledCases(length, mult, LengthOf(rest, 0));
    if !done {
      return Malformed;
    }
    if length > |rest| {
      return Incomplete;
    }
    return Got(Packet(input[0], rest[..length]), rest[length..]);
  }

  lemma {:induction false} LengthFits(n: nat, left: nat, rest: seq<Byte>)
    ensures LengthOf(Length(n) + rest, left) == if n < Pow128(left) && left > 0 then Got(n, rest) else Malformed
    decreases left
  {
    if left > 0 {
      assert (Length(n) + rest)[1..] == Length(n)[1..] + rest;
      if n < 128 {
        assert Length(n)[1..] + rest == rest;
        PowPositive(left - 1);
      } else {
        assert Length(n)[1..] == Length(n / 128);
        LengthFits(n / 128, left - 1, rest);
      }
    }
  }

  lemma {:induction false} PowPositive(k: nat)
    ensures Pow128(k) >= 1
  {
    if k > 0 {
      PowPositive(k - 1);
    }
  }

  lemma {:induction false} FourBytes()
    ensures Pow128(4) == 268_435_456
  {
    assert Pow128(2) == 16_384;
  }

  /** A remaining length is read back, whatever follows it, exactly when it is below 128^4. */
  lemma {:induction false} LengthReadIff(n: nat, rest: seq<Byte>)
    ensures n < 268_435_456 ==> LengthOf(Length(n) + rest, 4) == Got(n, rest)
    ensures n >= 268_435_456 ==> LengthOf(Length(n) + rest, 4) == Malformed
  {
    LengthFits(n, 4, rest);
    FourBytes();
  }

  // ---------------------------------------------------------------- PUBLISH

  datatype Publish = Publish(topic: seq<Byte>, payload: seq<Byte>, qos: nat, retain: bool, pid: Option<nat>)

  /** What a packet can carry: two-byte topic lengths and packet ids, a packet id exactly above QoS 0. */
  predicate Sendable(p: Publish) {
    && p.qos < 4
    && |p.topic| < 65536
    && (p.pid.Some? <==> p.qos > 0)
    && (p.pid.Some? ==> p.pid.value < 65536)
    && |Body(p)| < 268_435_456
  }

  function Two(n: nat): (bytes: seq<Byte>)
    requires n < 65536
    ensures |bytes| == 2
  {
    [n / 256, n % 256]
  }

  /** Fails for a string of 2^16 bytes or more. */
  function EncodeString(raw: seq<Byte>): Option<seq<Byte>> {
    if |raw| < 65536 then Some(Two(|raw|) + raw) else None
  }

  function Body(p: Publish): seq<Byte>
    requires |p.topic| < 65536
    requires p.pid.Some? ==> p.pid.value < 65536
  {
    EncodeString(p.topic).value + (if p.qos > 0 && p.pid.Some? then Two(p.pid.value) else []) + p.payload
  }

  function Header(p: Publish): Byte
    requires p.qos < 4
  {
    3 * 16 + 2 * p.qos + (if p.retain then 1 else 0)
  }

  function Encode(p: Publish): (bytes: seq<Byte>)
    requires Sendable(p)
    ensures bytes != []
  {
    [Header(p)] + Length(|Body(p)|) + Body(p)
  }

  /** A slice never fails: it is cut to what is there. */
  function Slice(s: seq<Byte>, i: nat, j: nat): seq<Byte>
    requires i <= j
  {
    s[(if i <= |s| then i else |s|)..(if j <= |s| then j else |s|)]
  }

  function BigEndian(s: seq<Byte>): nat {
    if s == [] then 0 else 256 * BigEndian(s[..|s| - 1]) + s[|s| - 1]
  }

  predicate IsPublish(b0: Byte) {
    b0 / 16 == 3
  }

  function Parse(k: Packet): Publish {
    var qos := k.b0 % 16 / 2 % 4;
    var i := 2 + BigEndian(Slice(k.body, 0, 2));
    var topic := Slice(k.body, 2, i);
    if qos > 0 then
      Publish(topic, Slice(k.body, i + 2, i + 2 + |k.body|), qos, k.b0 % 2 == 1,
        Some(BigEndian(Slice(k.body, i, i + 2))))
    else
      Publish(topic, Slice(k.body, i, i + |k.body|), qos, k.b0 % 2 == 1, None)
  }

  lemma {:induction false} TwoRoundTrip(n: nat)
    requires n < 65536
    ensures BigEndian(Two(n)) == n
  {
    assert Two(n)[..1] == [n / 256];
    assert [n / 256][..0] == [];
    assert BigEndian([n / 256]) == n / 256;
  }

  lemma {:induction false} SliceMiddle(a: seq<Byte>, b: seq<Byte>, c: seq<Byte>)
    ensures Slice(a + b + c, |a|, |a| + |b|) == b
  {
  }

  lemma {:induction false} SliceEnd(a: seq<Byte>, b: seq<Byte>, n: nat)
    requires n >= |b|
    ensures Slice(a + b, |a|, |a| + n) == b
  {
  }

  /** Parsing a written packet gives back topic, payload, QoS, retain flag and packet id. */
  lemma {:induction false} ParseInverts(p: Publish)
    requires Sendable(p)
    ensures IsPublish(Header(p)) && Parse(Packet(Header(p), Body(p))) == p
  {
    hide Two, Slice, BigEndian;
    var body, n, topic, payload := Body(p), |p.topic|, p.topic, p.payload;
    TwoRoundTrip(n);
    if p.qos > 0 {
      var pid := Two(p.pid.value);
      TwoRoundTrip(p.pid.value);
      assert body == [] + Two(n) + (topic + pid + payload) == Two(n) + topic + (pid + payload);
      assert body == (Two(n) + topic) + pid + payload == (Two(n) + topic + pid) + payload;
      SliceMiddle([], Two(n), topic + pid + payload);
      SliceMiddle(Two(n), topic, pid + payload);
      SliceMiddle(Two(n) + topic, pid, payload);
      SliceEnd(Two(n) + topic + pid, payload, |body|);
    } else {
      assert body == [] + Two(n) + (topic + payload) == Two(n) + topic + payload == (Two(n) + topic) + payload;
      SliceMiddle([], Two(n), topic + payload);
      SliceMiddle(Two(n), topic, payload);
      SliceEnd(Two(n) + topic, payload, |body|);
    }
  }

  /** The bytes of one packet, as section 3.3 of MQTT 3.1.1 lays them out, and of the length 321, as its section 2.2.3
      does: QoS 1, retained, topic "a/b", packet id 258, one byte of payload. */
  lemma {:induction false} PublishBytes()
    ensures Encode(Publish([97, 47, 98], [120], 1, true, Some(258))) == [0x33, 8, 0, 3, 97, 47, 98, 1, 2, 120]
    ensures Length(321) == [193, 2]
  {
    var p := Publish([97, 47, 98], [120], 1, true, Some(258));
    assert Two(3) == [0, 3] && Two(258) == [1, 2];
    assert Body(p) == [0, 3] + [97, 47, 98] + [1, 2] + [120] == [0, 3, 97, 47, 98, 1, 2, 120];
    assert Length(8) == [8] && Length(2) == [2];
  }

  /** A written packet is read back whatever follows it on the stream. */
  lemma {:induction false} PacketRead(p: Publish, rest: seq<Byte>)
    requires Sendable(p)
    ensures PacketOf(Encode(p) + rest) == Got(Packet(Header(p), Body(p)), rest)
  {
    hide Body, Length;
    var body := Body(p);
    var len := Length(|body|);
    assert (Encode(p) + rest)[1..] == len + (body + rest);
    LengthReadIff(|body|, body + rest);
    assert (body + rest)[..|body|] == body && (body + rest)[|body|..] == rest;
  }

  // ---------------------------------------------------------------- streams of packets

  function EncodeAll(ps: seq<Publish>): seq<Byte>
    requires forall i :: 0 <= i < |ps| ==> Sendable(ps[i])
  {
    if ps == [] then [] else Encode(ps[0]) + EncodeAll(ps[1..])
  }

  lemma {:induction false} LengthOfShrinks(input: seq<Byte>, left: nat)
    ensures LengthOf(input, left).Got? ==> |LengthOf(input, left).rest| < |input|
    decreases left
  {
    if left > 0 && input != [] {
      LengthOfShrinks(input[1..], left - 1);
    }
  }

  /** All packets of a stream in order, and how the stream ends: `Got` for an end between packets. */
  function ReadAll(input: seq<Byte>): (seq<Publish>, Read<()>)
    decreases |input|
  {
    if input == [] then ([], Got((), [])) else
    match PacketOf(input)
    case Incomplete => ([], Incomplete)
    case Malformed => ([], Malformed)
    case Got(k, rest) =>
      LengthOfShrinks(input[1..], 4);
      var (more, end) := ReadAll(rest);
      ([Parse(k)] + more, end)
  }

  lemma {:induction false} ReadOne(p: Publish, rest: seq<Byte>)
    requires Sendable(p)
    ensures ReadAll(Encode(p) + rest) == ([p] + ReadAll(rest).0, ReadAll(rest).1)
  {
    PacketRead(p, rest);
    ParseInverts(p);
    hide Encode, PacketOf, Parse, Sendable, Body, Header;
    assert Encode(p) + rest != [];
  }

  lemma {:induction false} ReadAfter(ps: seq<Publish>, tail: seq<Byte>)
    requires forall i :: 0 <= i < |ps| ==> Sendable(ps[i])
    ensures ReadAll(EncodeAll(ps) + tail) == (ps + ReadAll(tail).0, ReadAll(tail).1)
    decreases |ps|
  {
    hide Encode, Sendable, ReadAll;
    if ps == [] {
      assert EncodeAll(ps) + tail == tail;
      assert ps + ReadAll(tail).0 == ReadAll(tail).0;
    } else {
      var first, more := Encode(ps[0]), EncodeAll(ps[1..]);
      assert EncodeAll(ps) == first + more;
      hide EncodeAll;
      assert EncodeAll(ps) + tail == first + (more + tail);
      ReadOne(ps[0], more + tail);
      ReadAfter(ps[1..], tail);
      assert [ps[0]] + (ps[1..] + ReadAll(tail).0) == ps + ReadAll(tail).0 by {
        assert ps == [ps[0]] + ps[1..];
      }
    }
  }

  /** Reading any concatenation of written packets gives back the same packets, with no byte left over. */
  lemma {:induction false} StreamRoundTrip(ps: seq<Publish>)
    requires forall i :: 0 <= i < |ps| ==> Sendable(ps[i])
    ensures ReadAll(EncodeAll(ps)) == (ps, Got((), []))
  {
    ReadAfter(ps, []);
    assert EncodeAll(ps) + [] == EncodeAll(ps);
    assert ps + [] == ps;
  }

  lemma {:induction false} LengthCut(n: nat, left: nat, k: nat)
    requires k < |Length(n)| && n < Pow128(left) && left > 0
    ensures LengthOf(Length(n)[..k], left) == Incomplete
    decreases left
  {
    if k == 0 {
      assert Length(n)[..0] == [];
    } else {
      assert Pow128(1) == 128;
      assert Length(n)[..k][1..] == Length(n / 128)[..k - 1];
      LengthCut(n / 128, left - 1, k - 1);
    }
  }

  /** A stream cut inside a packet is never read as a packet. */
  lemma {:induction false} PacketCut(p: Publish, k: nat)
    requires Sendable(p) && k < |Encode(p)|
    ensures PacketOf(Encode(p)[..k]) == Incomplete
  {
    hide Body, Length, LengthOf, Pow128;
    var body := Body(p);
    var len := Length(|body|);
    var cut := Encode(p)[..k];
    FourBytes();
    if k == 0 {
      assert cut == [];
    } else if k <= |len| {
      assert cut[1..] == len[..k - 1];
      LengthCut(|body|, 4, k - 1);
      assert LengthOf(cut[1..], 4) == Incomplete;
      assert PacketOf(cut) == Incomplete;
    } else {
      var part := body[..k - 1 - |len|];
      assert cut[1..] == len + part;
      LengthReadIff(|body|, part);
      assert LengthOf(cut[1..], 4) == Got(|body|, part);
      assert |body| > |part|;
      assert PacketOf(cut) == Incomplete;
    }
  }

  /** A connection that breaks inside a packet delivers exactly the packets before it. */
  lemma {:induction false} BrokenStream(ps: seq<Publish>, p: Publish, k: nat)
    requires forall i :: 0 <= i < |ps| ==> Sendable(ps[i])
    requires Sendable(p) && 0 < k < |Encode(p)|
    ensures ReadAll(EncodeAll(ps) + Encode(p)[..k]) == (ps, Incomplete)
  {
    PacketCut(p, k);
    ReadAfter(ps, Encode(p)[..k]);
    assert ps + [] == ps;
  }

  // ---------------------------------------------------------------- packet ids

  function NextId(id: nat): nat {
    id % 65535 + 1
  }

  /** The id after `k` more QoS 1 deliveries. */
  function IdAfter(id: nat, k: nat): nat {
    if k == 0 then id else NextId(IdAfter(id, k - 1))
  }

  lemma {:induction false} IdClosedForm(id: nat, k: nat) returns (turns: nat)
    requires id <= 65535 && k > 0
    ensures 1 <= IdAfter(id, k) <= 65535
    ensures id + k == turns * 65535 + IdAfter(id, k)
  {
    if k == 1 {
      assert IdAfter(id, 1) == NextId(id);
      turns := if id == 65535 then 1 else 0;
    } else {
      turns := IdClosedForm(id, k - 1);
      if IdAfter(id, k - 1) == 65535 {
        turns := turns + 1;
      }
    }
  }

  /** Packet ids are never 0, fit in two bytes, and do not repeat within 65535 deliveries. */
  lemma {:induction false} IdsCycle(id: nat, i: nat, j: nat)
    requires id <= 65535 && 0 < i < j
    ensures 1 <= IdAfter(id, i) <= 65535
    ensures j - i < 65535 ==> IdAfter(id, i) != IdAfter(id, j)
    ensures j - i == 65535 ==> IdAfter(id, i) == IdAfter(id, j)
  {
    hide IdAfter;
    var a := IdClosedForm(id, i);
    var b := IdClosedForm(id, j);
  }

  // ---------------------------------------------------------------- SUBSCRIBE

  datatype Wanted = Wanted(filter: seq<Byte>, qos: nat)

  /** The filters of a SUBSCRIBE body from byte `i` on, in order; None where the broker runs off its end. */
  function Filters(body: seq<Byte>, i: nat): Option<seq<Wanted>>
    decreases |body| - i
  {
    if i >= |body| then Some([]) else
    var at := i + 2 + BigEndian(Slice(body, i, i + 2));
    if at >= |body| then None else
    match Filters(body, at + 1)
    case None => None
    case Some(more) => Some([Wanted(Slice(body, i + 2, at), Granted(body[at]))] + more)
  }

  /** The requested QoS, capped at 1. */
  function Granted(options: Byte): nat {
    if options % 4 < 1 then options % 4 else 1
  }

  method ParseSubscribe(body: seq<Byte>) returns (filters: Option<seq<Wanted>>)
    ensures filters == Filters(body, 2)
  {
    var i, got := 2, [];
    assert forall more: seq<Wanted> :: [] + more == more;
    while i < |body|
      invariant 2 <= i
      invariant Filters(body, 2) == match Filters(body, i) case None => None case Some(more) => Some(got + more)
    {
      var n := BigEndian(Slice(body, i, i + 2));
      var f := Slice(body, i + 2, i + 2 + n);
      var at := i + 2 + n;
      if at >= |body| {
        return None;
      }
      ghost var more := Filters(body, at + 1);
      if more.Some? {
        assert got + ([Wanted(f, Granted(body[at]))] + more.value) == got + [Wanted(f, Granted(body[at]))] + more.value;
      }
      got := got + [Wanted(f, Granted(body[at]))];
      i := at + 1;
    }
    assert got + [] == got;
    return Some(got);
  }

  function FilterBytes(ws: seq<Wanted>): seq<Byte>
    requires forall i :: 0 <= i < |ws| ==> |ws[i].filter| < 65536 && ws[i].qos < 4
  {
    if ws == [] then [] else EncodeString(ws[0].filter).value + [ws[0].qos] + FilterBytes(ws[1..])
  }

  lemma {:induction false} FilterAt(before: seq<Byte>, w: Wanted, after: seq<Byte>)
    requires |w.filter| < 65536 && w.qos < 4
    ensures var i, n := |before|, |w.filter|;
            var body := before + (EncodeString(w.filter).value + [w.qos]) + after;
            && BigEndian(Slice(body, i, i + 2)) == n
            && Slice(body, i + 2, i + 2 + n) == w.filter
            && body[i + 2 + n] == w.qos
  {
    var two := Two(|w.filter|);
    var body := before + (EncodeString(w.filter).value + [w.qos]) + after;
    TwoRoundTrip(|w.filter|);
    assert body == before + two + (w.filter + [w.qos] + after) == (before + two) + w.filter + ([w.qos] + after);
    SliceMiddle(before, two, w.filter + [w.qos] + after);
    SliceMiddle(before + two, w.filter, [w.qos] + after);
  }

  lemma {:induction false} FilterStep(body: seq<Byte>, i: nat, w: Wanted, more: seq<Wanted>)
    requires w.qos < 4 && i + 2 + |w.filter| < |body|
    requires BigEndian(Slice(body, i, i + 2)) == |w.filter|
    requires Slice(body, i + 2, i + 2 + |w.filter|) == w.filter && body[i + 2 + |w.filter|] == w.qos
    requires Filters(body, i + 3 + |w.filter|) == Some(more)
    ensures Filters(body, i) == Some([Capped(w)] + more)
  {
    hide BigEndian, Slice;
  }

  function Capped(w: Wanted): Wanted {
    Wanted(w.filter, if w.qos < 1 then w.qos else 1)
  }

  function AllCapped(ws: seq<Wanted>): seq<Wanted> {
    if ws == [] then [] else [Capped(ws[0])] + AllCapped(ws[1..])
  }

  /** A well-formed SUBSCRIBE gives its filters in order, each with its QoS capped at 1. */
  lemma {:induction false} SubscribeRoundTrip(before: seq<Byte>, ws: seq<Wanted>)
    requires forall i :: 0 <= i < |ws| ==> |ws[i].filter| < 65536 && ws[i].qos < 4
    ensures Filters(before + FilterBytes(ws), |before|) == Some(AllCapped(ws))
    decreases |ws|
  {
    hide Filters, BigEndian, Slice, Two, Capped;
    if ws != [] {
      var body, after := before + FilterBytes(ws), FilterBytes(ws[1..]);
      var first := EncodeString(ws[0].filter).value + [ws[0].qos];
      assert body == before + first + after;
      FilterAt(before, ws[0], after);
      SubscribeRoundTrip(before + first, ws[1..]);
      hide FilterBytes;
      FilterStep(body, |before|, ws[0], AllCapped(ws[1..]));
    } else {
      FiltersEnd(before + FilterBytes(ws));
    }
  }

  lemma {:induction false} FiltersEnd(body: seq<Byte>)
    ensures Filters(body, |body|) == Some([])
  {
  }
}
