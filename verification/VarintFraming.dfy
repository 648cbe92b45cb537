/**
 util/protolib.py: messages framed by a base 128 varint that gives their length, as in the section
 "Base 128 Varints" of the Protocol Buffers Encoding specification.
 */
module VarintFraming {
  import opened Arithmetic
  import opened Bits
  import opened Sequences
  import opened Text

  type Byte = b: nat | b < 256

  // ----- varints -----

  /** Seven bits a byte, lowest first; all bytes but the last have the high bit set. */
  ghost function Varint(value: nat): (out: seq<Byte>)
    ensures out != []
  {
    if value < 128 then [value] else [128 + value % 128] + Varint(value / 128)
  }

  lemma Pow2Of7()
    ensures Pow2(7) == 128
  {
    assert Pow2(3) == 8;
    assert Pow2(4) == 16;
    Pow2Add(3, 4);
  }

  lemma Parts128(bits: nat, rest: nat)
    requires bits < 128
    ensures (bits + 128 * rest) % 128 == bits && (bits + 128 * rest) / 128 == rest
  {
  }

  lemma VarintStep(bits: nat, rest: nat)
    requires bits < 128 && rest > 0
    ensures Varint(bits + 128 * rest) == [128 + bits] + Varint(rest)
  {
    Parts128(bits, rest);
  }

  lemma HighBit(bits: nat)
    requires bits < 128
    ensures BitOr(bits, 0x80) == 128 + bits
  {
    Pow2Of7();
    OrShifted(bits, 1, 7);
  }

  method EncodeVarint32(value: nat) returns (out: seq<Byte>)
    ensures out == Varint(value)
  {
    var bits: nat, rest: nat := value % 128, value / 128;
    out := [];
    while rest != 0
      invariant bits < 128 && out + Varint(bits + 128 * rest) == Varint(value)
      decreases rest
    {
      VarintStep(bits, rest);
      HighBit(bits);
      ConcatAssociative(out, [128 + bits], Varint(rest));
      out := out + [BitOr(bits, 0x80)];
      ghost var left := rest;
      bits, rest := rest % 128, rest / 128;
      assert bits + 128 * rest == left;
    }
    out := out + [bits];
  }

  datatype Decoded = EndOfFile | TooManyBytes | Value(value: int, rest: seq<Byte>)

  /** The sign handling at the end of the decoder: a 32-bit mask. */
  function Masked(result: nat): int {
    if result > 0x7fff_ffff_ffff_ffff then result % 0x1_0000_0000 - 0x1_0000_0000 else result % 0x1_0000_0000
  }

  /** The decoder with some bits already collected. */
  ghost function Unvarint(input: seq<Byte>, shift: nat, result: nat): Decoded {
    if input == [] then EndOfFile
    else
      var b := input[0];
      var next := BitOr(result, (b % 128) * Pow2(shift));
      if b < 128 then Value(Masked(next), input[1..])
      else if shift + 7 >= 64 then TooManyBytes
      else Unvarint(input[1..], shift + 7, next)
  }

  lemma {:induction false} VarintShort(value: nat, k: nat)
    requires k > 0 && value < Pow2(7 * k)
    ensures |Varint(value)| <= k
  {
    Pow2Of7();
    if value >= 128 {
      Pow2Add(7 * (k - 1), 7);
      assert 7 * k == 7 * (k - 1) + 7;
      Below128(value, Pow2(7 * (k - 1)));
      VarintShort(value / 128, k - 1);
    }
  }

  lemma Below128(value: nat, p: nat)
    requires value < p * 128
    ensures value / 128 < p
  {
  }

  /** Decoding reads back the encoded value on top of the bits collected before. */
  lemma {:induction false} UnvarintCollects(value: nat, rest: seq<Byte>, shift: nat, result: nat)
    requires result < Pow2(shift) && shift + 7 * |Varint(value)| <= 63 + 7
    ensures Unvarint(Varint(value) + rest, shift, result) == Value(Masked(result + value * Pow2(shift)), rest)
    decreases value
  {
    CollectByte(value, rest, shift, result);
    if value >= 128 {
      NextShift(value, shift, result);
      UnvarintCollects(value / 128, rest, shift + 7, result + (value % 128) * Pow2(shift));
    }
  }

  lemma NextShift(value: nat, shift: nat, result: nat)
    requires result < Pow2(shift)
    ensures var next := result + (value % 128) * Pow2(shift);
            next < Pow2(shift + 7) && next + (value / 128) * Pow2(shift + 7) == result + value * Pow2(shift)
  {
    Pow2Of7();
    Pow2Add(shift, 7);
    SevenBits(result, value % 128, Pow2(shift));
    SameValue(result, value % 128, value / 128, Pow2(shift));
    assert value == (value / 128) * 128 + value % 128;
  }

  /** The decoder's step for the first byte of an encoded value. */
  lemma {:induction false} CollectByte(value: nat, rest: seq<Byte>, shift: nat, result: nat)
    requires result < Pow2(shift) && shift + 7 * |Varint(value)| <= 63 + 7
    ensures var next := result + (value % 128) * Pow2(shift);
            Unvarint(Varint(value) + rest, shift, result) ==
            if value < 128 then Value(Masked(next), rest) else Unvarint(Varint(value / 128) + rest, shift + 7, next)
  {
    var input := Varint(value) + rest;
    FirstByte(value, rest);
    assert input != [] && input[0] % 128 == value % 128;
    OrShifted(result, value % 128, shift);
  }

  lemma {:induction false} FirstByte(value: nat, rest: seq<Byte>)
    ensures var input := Varint(value) + rest;
            && input != [] && input[0] % 128 == value % 128 && (input[0] < 128 <==> value < 128)
            && input[1..] == if value < 128 then rest else Varint(value / 128) + rest
    ensures value >= 128 ==> |Varint(value)| == |Varint(value / 128)| + 1 && |Varint(value / 128)| > 0
  {
    if value < 128 {
      assert Varint(value) == [value];
    } else {
      assert Varint(value) == [128 + value % 128] + Varint(value / 128);
    }
  }

  lemma SevenBits(result: nat, low: nat, p: nat)
    requires result < p && low < 128
    ensures result + low * p < p * 128
  {
    assert low * p <= 127 * p;
  }

  lemma SameValue(result: nat, low: nat, high: nat, p: nat)
    ensures result + low * p + high * (p * 128) == result + (high * 128 + low) * p
  {
    assert high * (p * 128) == (high * 128) * p;
    assert (high * 128 + low) * p == (high * 128) * p + low * p;
  }

  /** Decoding an encoded length gives the length back and leaves all bytes after it unread. */
  lemma VarintRoundTrip(value: nat, rest: seq<Byte>)
    requires value < 0x1_0000_0000
    ensures Unvarint(Varint(value) + rest, 0, 0) == Value(value, rest)
  {
    AtMostFiveBytes(value);
    UnvarintCollects(value, rest, 0, 0);
    TimesOne(value);
  }

  lemma AtMostFiveBytes(value: nat)
    requires value < 0x1_0000_0000
    ensures |Varint(value)| <= 5
  {
    Pow2Of32();
    Pow2Monotone(32, 7 * 5);
    VarintShort(value, 5);
  }

  lemma TimesOne(value: nat)
    ensures 0 + value * Pow2(0) == value
  {
  }

  lemma Pow2Of32()
    ensures Pow2(32) == 0x1_0000_0000
  {
    assert Pow2(4) == 16;
    Pow2Add(4, 4);
    Pow2Add(8, 8);
    Pow2Add(16, 16);
  }

  // ----- the bytes of a varint -----

  ghost function Pow128(k: nat): (p: nat)
    ensures p > 0
  {
    if k == 0 then 1 else 128 * Pow128(k - 1)
  }

  /** Byte k holds group k of seven bits, and its high bit says whether more follow; there are no needless bytes. */
  lemma {:induction false} VarintBytes(value: nat, k: nat)
    requires k < |Varint(value)|
    ensures Varint(value)[k] == (value / Pow128(k)) % 128 + if k < |Varint(value)| - 1 then 128 else 0
    ensures value < Pow128(|Varint(value)|) && (|Varint(value)| > 1 ==> value >= Pow128(|Varint(value)| - 1))
  {
    assert Pow128(0) == 1 && Pow128(1) == 128;
    if value >= 128 {
      var rest := Varint(value / 128);
      assert |Varint(value)| == |rest| + 1;
      VarintBytes(value / 128, if k == 0 then 0 else k - 1);
      if k > 0 {
        DivDiv(value, 128, Pow128(k - 1));
        assert Varint(value)[k] == rest[k - 1];
      }
    }
  }

  /** The number that groups of seven bits stand for, lowest first. */
  ghost function Groups(bytes: seq<Byte>): nat {
    if bytes == [] then 0 else bytes[0] % 128 + 128 * Groups(bytes[1..])
  }

  /** The decoder's step for one byte. */
  lemma {:induction false} ReadByte(b: Byte, input: seq<Byte>, shift: nat, result: nat)
    requires result < Pow2(shift)
    ensures var next := result + (b % 128) * Pow2(shift);
            && next < Pow2(shift + 7)
            && Unvarint([b] + input, shift, result) ==
               if b < 128 then Value(Masked(next), input)
               else if shift + 7 >= 64 then TooManyBytes else Unvarint(input, shift + 7, next)
  {
    var all := [b] + input;
    assert all[0] == b && all[1..] == input;
    OrShifted(result, b % 128, shift);
    Pow2Of7();
    Pow2Add(shift, 7);
    SevenBits(result, b % 128, Pow2(shift));
  }

  lemma {:induction false} GroupsNext(result: nat, low: nat, groups: nat, shift: nat)
    ensures result + low * Pow2(shift) + groups * Pow2(shift + 7) == result + (low + 128 * groups) * Pow2(shift)
  {
    Pow2Of7();
    Pow2Add(shift, 7);
    SameValue(result, low, groups, Pow2(shift));
  }

  lemma {:induction false} UnvarintGroups(more: seq<Byte>, last: Byte, rest: seq<Byte>, shift: nat, result: nat)
    requires result < Pow2(shift) && last < 128 && (forall k :: 0 <= k < |more| ==> more[k] >= 128)
    requires shift + 7 * |more| < 64
    ensures Unvarint(more + [last] + rest, shift, result) ==
            Value(Masked(result + Groups(more + [last]) * Pow2(shift)), rest)
    decreases |more|
  {
    var all := more + [last];
    if more == [] {
      ReadByte(last, rest, shift, result);
      assert all + rest == [last] + rest;
      assert Groups([]) == 0 && all[1..] == [] && all[0] == last;
    } else {
      var low, tail := more[0] % 128, more[1..];
      ReadByte(more[0], tail + [last] + rest, shift, result);
      assert all + rest == [more[0]] + (tail + [last] + rest);
      UnvarintGroups(tail, last, rest, shift + 7, result + low * Pow2(shift));
      assert all[0] == more[0] && all[1..] == tail + [last];
      GroupsNext(result, low, Groups(tail + [last]), shift);
    }
  }

  /**
   Up to nine bytes with the high bit set and one without it are a number of which 32 bits are kept;
   from 2^63 on it counts as negative.
   */
  lemma {:induction false} UnvarintIs(more: seq<Byte>, last: Byte, rest: seq<Byte>)
    requires |more| <= 9 && last < 128 && forall k :: 0 <= k < |more| ==> more[k] >= 128
    ensures var n := Groups(more + [last]);
            var low := n % 0x1_0000_0000;
            Unvarint(more + [last] + rest, 0, 0) ==
            Value(if n < 0x8000_0000_0000_0000 then low else low - 0x1_0000_0000, rest)
  {
    UnvarintGroups(more, last, rest, 0, 0);
    TimesOne(Groups(more + [last]));
  }

  /** Ten bytes with the high bit set are too many; fewer, without an end, are the end of the file. */
  lemma {:induction false} UnvarintFails(input: seq<Byte>, shift: nat, result: nat)
    requires shift < 64 && forall k :: 0 <= k < |input| && shift + 7 * k < 64 ==> input[k] >= 128
    ensures Unvarint(input, shift, result) == if shift + 7 * |input| < 64 then EndOfFile else TooManyBytes
    decreases |input|
  {
    if input != [] && shift + 7 < 64 {
      UnvarintFails(input[1..], shift + 7, BitOr(result, (input[0] % 128) * Pow2(shift)));
    }
  }

  // ----- messages -----

  type Payload = seq<Byte>

  ghost function Frame(m: Payload): seq<Byte> {
    Varint(|m|) + m
  }

  ghost function Frames(ms: seq<Payload>): seq<Byte> {
    if ms == [] then [] else Frame(ms[0]) + Frames(ms[1..])
  }

  /** `in_file.read(size)`: fewer bytes at end of file, and everything for a negative size. */
  function ReadSize(size: int, available: nat): (n: nat)
    ensures n <= available
  {
    if size < 0 || size > available then available else size
  }

  datatype Message = NoMessage | Message(payload: Payload, rest: seq<Byte>)

  /** `decodeMessage`: a size of zero, end of file and a malformed varint all read as "no message". */
  ghost function Unframe(input: seq<Byte>): Message {
    match Unvarint(input, 0, 0)
    case EndOfFile => NoMessage
    case TooManyBytes => NoMessage
    case Value(size, rest) =>
      if size == 0 then NoMessage
      else
        var n := ReadSize(size, |rest|);
        Message(rest[..n], rest[n..])
  }

  lemma {:induction false} UnvarintConsumes(input: seq<Byte>, shift: nat, result: nat)
    ensures var d := Unvarint(input, shift, result); d.Value? ==> |d.rest| < |input|
  {
    if input != [] {
      UnvarintConsumes(input[1..], shift + 7, BitOr(result, (input[0] % 128) * Pow2(shift)));
    }
  }

  /** The loop of a trace reader: decode messages until there is none. */
  ghost function Unframes(input: seq<Byte>): seq<Payload>
    decreases |input|
  {
    UnvarintConsumes(input, 0, 0);
    match Unframe(input)
    case NoMessage => []
    case Message(payload, rest) => [payload] + Unframes(rest)
  }

  lemma UnframeFrame(m: Payload, rest: seq<Byte>)
    requires |m| < 0x1_0000_0000
    ensures Unframe(Frame(m) + rest) == if m == [] then NoMessage else Message(m, rest)
  {
    VarintRoundTrip(|m|, m + rest);
    assert Frame(m) + rest == Varint(|m|) + (m + rest);
    assert (m + rest)[..|m|] == m && (m + rest)[|m|..] == rest;
  }

  /** A message that was cut off reads as what is left of it; a negative size reads the rest of the file. */
  lemma UnframeShort(input: seq<Byte>)
    ensures Unvarint(input, 0, 0).Value? ==>
              var d := Unvarint(input, 0, 0);
              (d.value < 0 || d.value > |d.rest|) ==> Unframe(input) == Message(d.rest, [])
  {
    var d := Unvarint(input, 0, 0);
    if d.Value? {
      assert d.rest[..|d.rest|] == d.rest && d.rest[|d.rest|..] == [];
    }
  }

  /** A short message is its length in one byte, and then its bytes. */
  lemma ShortFrame(m: Payload)
    requires |m| < 128
    ensures Frame(m) == [|m|] + m
  {
  }

  ghost function UpToEmpty(ms: seq<Payload>): (r: seq<Payload>)
    ensures r <= ms && ([] !in ms <==> r == ms)
  {
    if ms == [] || ms[0] == [] then [] else [ms[0]] + UpToEmpty(ms[1..])
  }

  /** Reading a stream of messages returns them up to the first empty one. */
  lemma {:induction false} UnframesFrames(ms: seq<Payload>)
    requires forall m :: m in ms ==> |m| < 0x1_0000_0000
    ensures Unframes(Frames(ms)) == UpToEmpty(ms)
  {
    if ms != [] {
      assert forall m :: m in ms[1..] ==> m in ms;
      assert ms[0] in ms;
      UnframesFrames(ms[1..]);
      UnframeFrame(ms[0], Frames(ms[1..]));
    }
  }

  /** A stream reads back as it was written if and only if no message in it is empty. */
  lemma StreamRoundTrip(ms: seq<Payload>)
    requires forall m :: m in ms ==> |m| < 0x1_0000_0000
    ensures Unframes(Frames(ms)) == ms <==> [] !in ms
  {
    UnframesFrames(ms);
  }

  // ----- files -----

  class OutFile {
    var written: seq<Byte>

    constructor ()
      ensures written == []
    {
      written := [];
    }

    /** `encodeMessage`, for a message that serialises to m */
    method EncodeMessage(m: Payload)
      modifies this
      ensures written == old(written) + Frame(m)
    {
      var length := EncodeVarint32(|m|);
      written := written + length;
      written := written + m;
    }
  }

  class InFile {
    var unread: seq<Byte>

    constructor (contents: seq<Byte>)
      ensures unread == contents
    {
      unread := contents;
    }

    method Read(size: int) returns (bytes: seq<Byte>)
      modifies this
      ensures var n := ReadSize(size, |old(unread)|); bytes == old(unread)[..n] && unread == old(unread)[n..]
    {
      var n := ReadSize(size, |unread|);
      bytes, unread := unread[..n], unread[n..];
    }

    method DecodeVarint32() returns (d: Decoded)
      modifies this
      ensures d == Unvarint(old(unread), 0, 0)
      ensures d.Value? ==> unread == d.rest
      ensures |unread| <= |old(unread)|
    {
      var result: nat, shift: nat := 0, 0;
      while true
        invariant Unvarint(unread, shift, result) == Unvarint(old(unread), 0, 0)
        invariant |unread| <= |old(unread)|
        decreases |unread|
      {
        var c := Read(1);
        if c == [] {
          return EndOfFile;
        }
        var b := c[0];
        result := BitOr(result, (b % 128) * Pow2(shift));
        if b < 128 {
          return Value(Masked(result), unread);
        }
        shift := shift + 7;
        if shift >= 64 {
          return TooManyBytes;
        }
      }
    }

    /** `decodeMessage` */
    method DecodeMessage() returns (m: Option<Payload>)
      modifies this
      ensures match Unframe(old(unread))
              case NoMessage => m == None
              case Message(payload, rest) => m == Some(payload) && unread == rest
    {
      var d := DecodeVarint32();
      if !d.Value? || d.value == 0 {
        return None;
      }
      var buf := Read(d.value);
      return Some(buf);
    }

    /** The reading loop of the trace decoders. */
    method DecodeAll() returns (ms: seq<Payload>)
      modifies this
      ensures ms == Unframes(old(unread))
    {
      ms := [];
      while true
        invariant ms + Unframes(unread) == Unframes(old(unread))
        decreases |unread|
      {
        UnvarintConsumes(unread, 0, 0);
        var m := DecodeMessage();
        if m.None? {
          return;
        }
        ms := ms + [m.value];
      }
    }
  }
}
