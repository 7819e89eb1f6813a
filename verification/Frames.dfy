/** The frames of the pipe protocol (pipehttp/pipehttp.go): a length, a header, a length, a body. */
module Frames {

  type byte = b: int | 0 <= b < 256

  const U32 := 0x1_0000_0000

  /** Bounds a header or a body. */
  const MAX_FRAME := 0x2000_0000

  /** Four bytes, most significant first. A length is first cut to 32 bits. */
  function BigEndian(n: nat): (s: seq<byte>)
    ensures |s| == 4
  {
    var m := n % U32;
    [m / 0x100_0000, m / 0x1_0000 % 0x100, m / 0x100 % 0x100, m % 0x100]
  }

  function FromBigEndian(s: seq<byte>): (n: nat)
    requires |s| == 4
    ensures n < U32
  {
    (s[0] as int) * 0x100_0000 + (s[1] as int) * 0x1_0000 + (s[2] as int) * 0x100 + (s[3] as int)
  }

  lemma BigEndianRoundTrip(n: nat)
    ensures FromBigEndian(BigEndian(n)) == n % U32
  {
    var m := n % U32;
    var a := m / 0x100;
    var b := a / 0x100;
    assert m / 0x1_0000 == b && m / 0x100_0000 == b / 0x100;
    assert a % 0x100 == a - 0x100 * b && b % 0x100 == b - 0x100 * (b / 0x100);
  }

  /** What digits in base 256 come to, read from the left. */
  ghost function Value(s: seq<byte>): nat {
    if s == [] then 0 else 0x100 * Value(s[..|s| - 1]) + s[|s| - 1] as int
  }

  lemma ValueOfFour(s: seq<byte>)
    requires |s| == 4
    ensures Value(s) == FromBigEndian(s)
  {
    assert s[..3][..2] == s[..2] && s[..2][..1] == s[..1] && s[..1][..0] == [];
    assert Value(s[..1]) == s[0] as int;
    assert Value(s[..2]) == 0x100 * Value(s[..1]) + s[1] as int;
    assert Value(s[..3]) == 0x100 * Value(s[..2]) + s[2] as int;
  }

  /** The four bytes a length is sent as are the digits of what 32 bits hold of it, in base 256 with the highest first;
      there is only one such row of four. */
  lemma BigEndianIs(n: nat, s: seq<byte>)
    requires |s| == 4
    ensures s == BigEndian(n) <==> Value(s) == n % U32
    ensures FromBigEndian(s) == Value(s)
  {
    ValueOfFour(s);
    ValueOfFour(BigEndian(n));
    BigEndianRoundTrip(n);
    hide BigEndian, Value;
    if FromBigEndian(s) == FromBigEndian(BigEndian(n)) { SameDigits(s, BigEndian(n)); }
  }

  lemma SameDigits(s: seq<byte>, t: seq<byte>)
    requires |s| == 4 == |t| && FromBigEndian(s) == FromBigEndian(t)
    ensures s == t
  {
    assert s[0] == t[0];
    assert s[1] == t[1];
    assert s[2] == t[2];
  }

  datatype Frame = Frame(header: seq<byte>, body: seq<byte>) {
    /** What the reader will take. */
    predicate Fits() { |header| <= MAX_FRAME && |body| <= MAX_FRAME }
  }

  function Encoded(f: Frame): seq<byte> {
    BigEndian(|f.header|) + f.header + BigEndian(|f.body|) + f.body
  }

  function Stream(fs: seq<Frame>): seq<byte> {
    if fs == [] then [] else Stream(fs[..|fs| - 1]) + Encoded(fs[|fs| - 1])
  }

  // ---- reading ----

  /** How reading goes wrong: a stream that ends between frames is the one clean ending. */
  datatype Stop = CleanEnd | CutShort | TooBig

  datatype Read<T> = Got(value: T, rest: seq<byte>) | Stopped(why: Stop)

  function ReadChunk(s: seq<byte>): Read<seq<byte>> {
    if s == [] then Stopped(CleanEnd)
    else if |s| < 4 then Stopped(CutShort)
    else
      var size := FromBigEndian(s[..4]);
      if size > MAX_FRAME then Stopped(TooBig)
      else if |s| - 4 < size then Stopped(CutShort)
      else Got(s[4..4 + size], s[4 + size..])
  }

  function ReadFrame(s: seq<byte>): (r: Read<Frame>)
    ensures r.Got? ==> |r.rest| < |s|
  {
    match ReadChunk(s)
    case Stopped(why) => Stopped(why)
    case Got(header, rest) =>
      match ReadChunk(rest)
      case Stopped(why) => Stopped(if why == CleanEnd then CutShort else why)
      case Got(body, rest') => Got(Frame(header, body), rest')
  }

  /** Everything a reader gets out of a stream, and how it ends. */
  function ReadAll(s: seq<byte>): (seq<Frame>, Stop)
    decreases |s|
  {
    match ReadFrame(s)
    case Stopped(why) => ([], why)
    case Got(f, rest) => var (fs, why) := ReadAll(rest); ([f] + fs, why)
  }

  lemma ChunkRoundTrip(data: seq<byte>, rest: seq<byte>)
    ensures |data| <= MAX_FRAME ==> ReadChunk(BigEndian(|data|) + data + rest) == Got(data, rest)
    ensures |data| > MAX_FRAME ==>
      var r := ReadChunk(BigEndian(|data|) + data + rest);
      r.Stopped? || |r.value| < |data|
  {
    var s := BigEndian(|data|) + data + rest;
    assert s[..4] == BigEndian(|data|);
    BigEndianRoundTrip(|data|);
    if |data| <= MAX_FRAME {
      assert s[4..4 + |data|] == data && s[4 + |data|..] == rest;
    }
  }

  /** A frame reads back as itself, whatever follows, exactly when both halves are within bounds:
      the writer does not check, the reader does. */
  lemma FrameRoundTrip(f: Frame, rest: seq<byte>)
    ensures ReadFrame(Encoded(f) + rest) == Got(f, rest) <==> f.Fits()
  {
    hide BigEndian, ReadChunk;
    var tail := BigEndian(|f.body|) + f.body + rest;
    assert Encoded(f) + rest == BigEndian(|f.header|) + f.header + tail;
    ChunkRoundTrip(f.header, tail);
    ChunkRoundTrip(f.body, rest);
  }

  lemma ChunkRead(s: seq<byte>, data: seq<byte>, rest: seq<byte>)
    requires ReadChunk(s) == Got(data, rest)
    ensures |data| <= MAX_FRAME && s == BigEndian(|data|) + data + rest
  {
    BigEndianIs(|data|, s[..4]);
    hide BigEndian, FromBigEndian;
    assert s == s[..4] + s[4..4 + |data|] + s[4 + |data|..];
  }

  /** What reads as a frame is what would be written of it, and what follows. */
  lemma ReadIsWritten(s: seq<byte>, f: Frame, rest: seq<byte>)
    ensures ReadFrame(s) == Got(f, rest) <==> f.Fits() && s == Encoded(f) + rest
  {
    hide BigEndian, ReadChunk;
    FrameRoundTrip(f, rest);
    if ReadFrame(s) == Got(f, rest) {
      var tail := ReadChunk(s).rest;
      ChunkRead(s, f.header, tail);
      ChunkRead(tail, f.body, rest);
      assert s == Encoded(f) + rest;
    }
  }

  /** A frame on the wire: four digits of how long the header is, the header, four of how long the body is, the body. */
  lemma FrameLayout(f: Frame)
    requires f.Fits()
    ensures
      var e, h := Encoded(f), |f.header|;
      && |e| == 4 + h + 4 + |f.body|
      && Value(e[..4]) == h && e[4..4 + h] == f.header
      && Value(e[4 + h..8 + h]) == |f.body| && e[8 + h..] == f.body
  {
    hide BigEndian, FromBigEndian, Value;
    var a, b := BigEndian(|f.header|), BigEndian(|f.body|);
    BigEndianIs(|f.header|, a);
    BigEndianIs(|f.body|, b);
    FourParts(a, f.header, b, f.body);
  }

  lemma FourParts(a: seq<byte>, h: seq<byte>, b: seq<byte>, d: seq<byte>)
    requires |a| == 4 == |b|
    ensures
      var e := a + h + b + d;
      e[..4] == a && e[4..4 + |h|] == h && e[4 + |h|..8 + |h|] == b && e[8 + |h|..] == d
  {
  }

  lemma {:induction false} StreamConcat(fs: seq<Frame>, gs: seq<Frame>)
    ensures Stream(fs + gs) == Stream(fs) + Stream(gs)
    decreases |gs|
  {
    hide Encoded;
    if gs == [] {
      assert fs + gs == fs;
    } else {
      var hs := fs + gs;
      assert hs[..|hs| - 1] == fs + gs[..|gs| - 1];
      StreamConcat(fs, gs[..|gs| - 1]);
    }
  }

  lemma StreamOfOne(f: Frame)
    ensures Stream([f]) == Encoded(f)
  {
    hide Encoded;
    assert [f][..0] == [];
  }

  lemma StreamFirst(fs: seq<Frame>)
    requires fs != []
    ensures Stream(fs) == Encoded(fs[0]) + Stream(fs[1..])
  {
    assert fs == [fs[0]] + fs[1..];
    StreamConcat([fs[0]], fs[1..]);
    StreamOfOne(fs[0]);
  }

  lemma PartOfChunk(data: seq<byte>, k: nat)
    requires |data| <= MAX_FRAME && k < 4 + |data|
    ensures ReadChunk((BigEndian(|data|) + data)[..k]) == Stopped(if k == 0 then CleanEnd else CutShort)
  {
    BigEndianRoundTrip(|data|);
    hide BigEndian, FromBigEndian;
    var p := (BigEndian(|data|) + data)[..k];
    if k >= 4 { assert p[..4] == BigEndian(|data|); }
  }

  /** Nothing shorter than a whole frame reads as one, and it is never a clean ending. */
  lemma PartOfFrame(f: Frame, k: nat)
    requires f.Fits() && 0 < k < |Encoded(f)|
    ensures ReadFrame(Encoded(f)[..k]) == Stopped(CutShort)
  {
    hide BigEndian, ReadChunk;
    var first, second := BigEndian(|f.header|) + f.header, BigEndian(|f.body|) + f.body;
    assert Encoded(f) == first + second;
    if k < |first| {
      assert Encoded(f)[..k] == first[..k];
      PartOfChunk(f.header, k);
    } else {
      var j := k - |first|;
      assert Encoded(f)[..k] == BigEndian(|f.header|) + f.header + second[..j];
      ChunkRoundTrip(f.header, second[..j]);
      PartOfChunk(f.body, j);
    }
  }

  /** Main result on reading: cut a stream of frames anywhere. The reader gets exactly the whole frames
      before the cut, and ends cleanly only if the cut is between frames. */
  lemma {:induction false} ReadPrefix(fs: seq<Frame>, k: nat) returns (n: nat)
    requires (forall i :: 0 <= i < |fs| ==> fs[i].Fits()) && k <= |Stream(fs)|
    ensures n <= |fs| && |Stream(fs[..n])| <= k && (n < |fs| ==> k < |Stream(fs[..n + 1])|)
    ensures ReadAll(Stream(fs)[..k]) == (fs[..n], if k == |Stream(fs[..n])| then CleanEnd else CutShort)
    decreases |fs|, 1
  {
    hide Encoded, ReadFrame;
    if fs == [] {
      ReadEmpty();
      n := 0;
    } else {
      StreamFirst(fs);
      var e, rest := Encoded(fs[0]), Stream(fs[1..]);
      if k < |e| {
        n := 0;
        assert fs[..1] == [fs[0]] && fs[..0] == [];
        StreamOfOne(fs[0]);
        assert (e + rest)[..k] == e[..k];
        ReadNothing(fs[0], k);
      } else {
        n := ReadOneMore(fs, k);
      }
    }
  }

  lemma {:induction false} ReadOneMore(fs: seq<Frame>, k: nat) returns (n: nat)
    requires (forall i :: 0 <= i < |fs| ==> fs[i].Fits()) && fs != [] && |Encoded(fs[0])| <= k <= |Stream(fs)|
    ensures n <= |fs| && |Stream(fs[..n])| <= k && (n < |fs| ==> k < |Stream(fs[..n + 1])|)
    ensures ReadAll(Stream(fs)[..k]) == (fs[..n], if k == |Stream(fs[..n])| then CleanEnd else CutShort)
    decreases |fs|, 0
  {
    hide Encoded, ReadAll, Stream, Frame.Fits;
    StreamFirst(fs);
    var e, rest := Encoded(fs[0]), Stream(fs[1..]);
    var m := ReadPrefix(fs[1..], k - |e|);
    n := m + 1;
    ReadAllFirst(fs[0], rest[..k - |e|]);
    assert (e + rest)[..k] == e + rest[..k - |e|];
    StreamOfPrefix(fs, m);
    if n < |fs| { StreamOfPrefix(fs, m + 1); }
  }

  lemma StreamOfPrefix(fs: seq<Frame>, m: nat)
    requires m < |fs|
    ensures fs[..m + 1] == [fs[0]] + fs[1..][..m]
    ensures |Stream(fs[..m + 1])| == |Encoded(fs[0])| + |Stream(fs[1..][..m])|
  {
    hide Encoded, Stream;
    StreamFirst(fs[..m + 1]);
    assert fs[..m + 1][1..] == fs[1..][..m];
  }

  lemma ReadEmpty()
    ensures ReadAll([]) == ([], CleanEnd)
  {
  }

  lemma ReadAllFirst(f: Frame, tail: seq<byte>)
    requires f.Fits()
    ensures ReadAll(Encoded(f) + tail) == ([f] + ReadAll(tail).0, ReadAll(tail).1)
  {
    hide Encoded, ReadFrame;
    FrameRoundTrip(f, tail);
  }

  lemma ReadNothing(f: Frame, k: nat)
    requires f.Fits() && k < |Encoded(f)|
    ensures ReadAll(Encoded(f)[..k]) == ([], if k == 0 then CleanEnd else CutShort)
  {
    if k > 0 { PartOfFrame(f, k); } else { assert Encoded(f)[..0] == []; }
  }

  /** A whole stream reads back as the frames it was made of. */
  lemma StreamRoundTrip(fs: seq<Frame>)
    requires forall i :: 0 <= i < |fs| ==> fs[i].Fits()
    ensures ReadAll(Stream(fs)) == (fs, CleanEnd)
  {
    hide Encoded, ReadFrame;
    assert Stream(fs)[..|Stream(fs)|] == Stream(fs);
    var n := ReadPrefix(fs, |Stream(fs)|);
    if n < |fs| { StreamGrows(fs, n); }
    assert fs[..|fs|] == fs;
  }

  lemma StreamGrows(fs: seq<Frame>, n: nat)
    requires n < |fs|
    ensures |Stream(fs[..n + 1])| <= |Stream(fs)|
  {
    hide Encoded;
    assert fs == fs[..n + 1] + fs[n + 1..];
    StreamConcat(fs[..n + 1], fs[n + 1..]);
  }
}
