/** The length-framed stream of internal/protocol/frame.go: a twelve-byte header, then the body. */
module Frames {
  import opened Base
  import opened Bytes

  const MAGIC: Word := 0x5344
  const HEADER_SIZE: nat := 12
  const MAX_BODY_SIZE: nat := 0x1_0000

  datatype Frame = Frame(msgId: Word, seqNo: DWord, body: seq<Byte>)

  datatype Failure = EOF | UnexpectedEOF | BadMagic | BodyTooLarge

  function Header(msgId: Word, seqNo: DWord, bodyLen: DWord): (b: seq<Byte>)
    ensures |b| == HEADER_SIZE
  {
    U16(MAGIC) + U16(msgId) + U32(seqNo) + U32(bodyLen)
  }

  /** The length field has 32 bits; a longer body is sent with its length cut off. */
  function FrameBytes(f: Frame): (b: seq<Byte>)
    ensures |b| == HEADER_SIZE + |f.body|
  {
    Header(f.msgId, f.seqNo, |f.body| % 0x1_0000_0000) + f.body
  }

  function Encoded(fs: seq<Frame>): seq<Byte>
  {
    if fs == [] then [] else FrameBytes(fs[0]) + Encoded(fs[1..])
  }

  /** Fills a buffer exactly as FrameBytes says. */
  method Encode(f: Frame) returns (b: array<Byte>)
    ensures fresh(b) && b[..] == FrameBytes(f)
  {
    b := new Byte[HEADER_SIZE + |f.body|](_ => 0);
    PutU16(b, 0, MAGIC);
    PutU16(b, 2, f.msgId);
    PutU32(b, 4, f.seqNo);
    PutU32(b, 8, |f.body| % 0x1_0000_0000);
    Copy(b, HEADER_SIZE, f.body);
    assert b[..] == b[..HEADER_SIZE + |f.body|];
  }

  // ----- What a stream of bytes means -----

  datatype Reading = Got(frame: Frame, rest: seq<Byte>) | Failed(failure: Failure, rest: seq<Byte>)

  /** Running out of bytes is a clean end only if nothing of what was asked for has arrived. */
  function ShortOf(arrived: nat): Failure { if arrived == 0 then EOF else UnexpectedEOF }

  /** The first frame of a stream and what is left of the stream. */
  function ReadFrame(b: seq<Byte>): (r: Reading)
    ensures r.Got? ==> |r.rest| < |b|
  {
    if |b| < HEADER_SIZE then Failed(ShortOf(|b|), [])
    else if GetU16(b, 0) != MAGIC then Failed(BadMagic, b[HEADER_SIZE..])
    else
      var n := GetU32(b, 8);
      if n > MAX_BODY_SIZE then Failed(BodyTooLarge, b[HEADER_SIZE..])
      else if |b| < HEADER_SIZE + n then Failed(ShortOf(|b| - HEADER_SIZE), [])
      else Got(Frame(GetU16(b, 2), GetU32(b, 4), b[HEADER_SIZE..HEADER_SIZE + n]), b[HEADER_SIZE + n..])
  }

  datatype Session = Session(frames: seq<Frame>, failure: Failure)

  /** Every frame of a stream up to the first failure. */
  function ReadAll(b: seq<Byte>): (s: Session)
    decreases |b|
  {
    match ReadFrame(b)
    case Failed(e, _) => Session([], e)
    case Got(f, rest) =>
      var s := ReadAll(rest);
      Session([f] + s.frames, s.failure)
  }

  predicate Fits(f: Frame) { |f.body| <= MAX_BODY_SIZE }

  // ----- Encoding and reading are inverse -----

  lemma HeaderFields(msgId: Word, seqNo: DWord, bodyLen: DWord, b: seq<Byte>)
    requires |b| >= HEADER_SIZE && b[..HEADER_SIZE] == Header(msgId, seqNo, bodyLen)
    ensures GetU16(b, 0) == MAGIC && GetU16(b, 2) == msgId && GetU32(b, 4) == seqNo && GetU32(b, 8) == bodyLen
  {
    var h := Header(msgId, seqNo, bodyLen);
    assert h[0..2] == U16(MAGIC) && h[2..4] == U16(msgId) && h[4..8] == U32(seqNo) && h[8..12] == U32(bodyLen);
    assert b[0..2] == h[0..2] && b[2..4] == h[2..4] && b[4..8] == h[4..8] && b[8..12] == h[8..12];
    ReadU16(b, 0, MAGIC);
    ReadU16(b, 2, msgId);
    ReadU32(b, 4, seqNo);
    ReadU32(b, 8, bodyLen);
  }

  /** Reading what was written, whatever follows it in the stream. */
  lemma ReadBack(f: Frame, rest: seq<Byte>)
    requires Fits(f)
    ensures ReadFrame(FrameBytes(f) + rest) == Got(f, rest)
  {
    var b := FrameBytes(f) + rest;
    assert b[..HEADER_SIZE] == Header(f.msgId, f.seqNo, |f.body|);
    HeaderFields(f.msgId, f.seqNo, |f.body|, b);
    assert b[HEADER_SIZE..HEADER_SIZE + |f.body|] == f.body;
    assert b[HEADER_SIZE + |f.body|..] == rest;
  }

  lemma HeaderBack(b: seq<Byte>)
    requires |b| >= HEADER_SIZE && GetU16(b, 0) == MAGIC
    ensures b[..HEADER_SIZE] == Header(GetU16(b, 2), GetU32(b, 4), GetU32(b, 8))
  {
    WriteU16(b, 0);
    WriteU16(b, 2);
    WriteU32(b, 4);
    WriteU32(b, 8);
    hide GetU16, GetU32, U16, U32;
    assert b[..HEADER_SIZE] == b[0..2] + b[2..4] + b[4..8] + b[8..12];
  }

  /** Whatever is accepted as a frame is exactly the encoding of that frame. */
  lemma WriteBack(b: seq<Byte>)
    requires ReadFrame(b).Got?
    ensures var r := ReadFrame(b);
            Fits(r.frame) && b == FrameBytes(r.frame) + r.rest
  {
    hide GetU16, GetU32, Header;
    var f := ReadFrame(b).frame;
    HeaderBack(b);
    assert b == b[..HEADER_SIZE] + f.body + b[HEADER_SIZE + |f.body|..];
  }

  /** What was accepted, encoded again, is exactly what was consumed; the next read fails where reading stopped. */
  lemma {:induction false} AcceptedIsConsumed(b: seq<Byte>)
    ensures var s := ReadAll(b);
            && (forall f :: f in s.frames ==> Fits(f))
            && Encoded(s.frames) <= b
            && var r := ReadFrame(b[|Encoded(s.frames)|..]);
               r.Failed? && r.failure == s.failure
    decreases |b|
  {
    hide FrameBytes, ReadFrame, Fits;
    match ReadFrame(b) {
      case Failed(_, _) =>
        assert b[|Encoded([])|..] == b;
      case Got(f, rest) =>
        WriteBack(b);
        AcceptedIsConsumed(rest);
        var s := ReadAll(rest);
        assert ([f] + s.frames)[1..] == s.frames;
        assert b[|FrameBytes(f)| + |Encoded(s.frames)|..] == rest[|Encoded(s.frames)|..];
    }
  }

  /** Frames that fit are read back one by one, and reading goes on with what follows them. */
  lemma {:induction false} ReadThrough(fs: seq<Frame>, rest: seq<Byte>)
    requires forall f :: f in fs ==> Fits(f)
    ensures ReadAll(Encoded(fs) + rest) == Session(fs + ReadAll(rest).frames, ReadAll(rest).failure)
  {
    hide FrameBytes, ReadFrame, Fits;
    if fs == [] {
      assert Encoded(fs) + rest == rest;
    } else {
      var more := Encoded(fs[1..]) + rest;
      assert Encoded(fs) + rest == FrameBytes(fs[0]) + more;
      ReadBack(fs[0], more);
      ReadThrough(fs[1..], rest);
      assert fs + ReadAll(rest).frames == [fs[0]] + (fs[1..] + ReadAll(rest).frames);
    }
  }

  /** A list of frames comes back exactly as it was sent, followed by a clean end, precisely when every body fits. */
  lemma {:induction false} RoundTripExactly(fs: seq<Frame>)
    ensures ReadAll(Encoded(fs)) == Session(fs, EOF) <==> forall f :: f in fs ==> Fits(f)
  {
    hide FrameBytes, ReadFrame, Fits;
    if forall f :: f in fs ==> Fits(f) {
      ReadThrough(fs, []);
      NothingLeft();
      assert Encoded(fs) + [] == Encoded(fs) && fs + [] == fs;
    } else if Fits(fs[0]) {
      ReadBack(fs[0], Encoded(fs[1..]));
      RoundTripExactly(fs[1..]);
      var f :| f in fs && !Fits(f);
      assert f in fs[1..];
      assert ([fs[0]] + ReadAll(Encoded(fs[1..])).frames)[1..] == ReadAll(Encoded(fs[1..])).frames;
    } else {
      TooLongIsNotRead(fs[0], Encoded(fs[1..]));
    }
  }

  lemma NothingLeft()
    ensures ReadAll([]) == Session([], EOF)
  {
  }

  lemma TooLongIsNotRead(f: Frame, rest: seq<Byte>)
    requires !Fits(f)
    ensures var r := ReadFrame(FrameBytes(f) + rest);
            r.Got? ==> r.frame != f
  {
    var b := FrameBytes(f) + rest;
    var n := |f.body| % 0x1_0000_0000;
    assert b[..HEADER_SIZE] == Header(f.msgId, f.seqNo, n);
    HeaderFields(f.msgId, f.seqNo, n, b);
  }

  /** `s` holds exactly the frames of `fs` that are whole after `k` bytes, and the end that comes then. */
  ghost predicate WholeFrames(fs: seq<Frame>, k: nat, s: Session)
  {
    var n := |s.frames|;
    && n <= |fs| && s.frames == fs[..n] && |Encoded(fs[..n])| <= k
    && (n < |fs| ==> k < |Encoded(fs[..n + 1])|)
    && s.failure == if k - |Encoded(fs[..n])| in {0, HEADER_SIZE} then EOF else UnexpectedEOF
  }

  /** A stream cut after `k` bytes yields exactly the frames that are whole by then. The end looks clean when the
      cut falls between two frames, and also when it falls between a header and its body. */
  lemma {:induction false} CutStream(fs: seq<Frame>, k: nat)
    requires forall f :: f in fs ==> Fits(f)
    requires k <= |Encoded(fs)|
    ensures WholeFrames(fs, k, ReadAll(Encoded(fs)[..k]))
  {
    hide FrameBytes, ReadFrame, Fits;
    if fs == [] {
      NothingLeft();
    } else {
      var f, size := fs[0], |FrameBytes(fs[0])|;
      var b := Encoded(fs);
      if k < size {
        CutFrame(f, Encoded(fs[1..]), k);
        assert fs[..0] == [] && fs[..1] == [f] && [f][1..] == [];
      } else {
        hide WholeFrames;
        var rest := Encoded(fs[1..])[..k - size];
        assert b[..k] == FrameBytes(f) + rest;
        ReadBack(f, rest);
        CutStream(fs[1..], k - size);
        WholeFrameBefore(fs, k, ReadAll(rest));
      }
    }
  }

  lemma WholeFrameBefore(fs: seq<Frame>, k: nat, s: Session)
    requires fs != [] && |FrameBytes(fs[0])| <= k && WholeFrames(fs[1..], k - |FrameBytes(fs[0])|, s)
    ensures WholeFrames(fs, k, Session([fs[0]] + s.frames, s.failure))
  {
    hide FrameBytes, Encoded;
    var n := |s.frames|;
    EncodedPrefix(fs, n);
    assert fs[..n + 1] == [fs[0]] + fs[1..][..n];
    if n < |fs[1..]| { EncodedPrefix(fs, n + 1); }
  }

  lemma EncodedPrefix(fs: seq<Frame>, n: nat)
    requires n < |fs|
    ensures Encoded(fs[..n + 1]) == FrameBytes(fs[0]) + Encoded(fs[1..][..n])
  {
    assert fs[..n + 1][1..] == fs[1..][..n];
  }

  lemma CutFrame(f: Frame, rest: seq<Byte>, k: nat)
    requires Fits(f) && k < |FrameBytes(f)|
    ensures ReadFrame((FrameBytes(f) + rest)[..k]).Failed?
    ensures ReadFrame((FrameBytes(f) + rest)[..k]).failure == if k in {0, HEADER_SIZE} then EOF else UnexpectedEOF
  {
    var b := (FrameBytes(f) + rest)[..k];
    if k >= HEADER_SIZE {
      assert b[..HEADER_SIZE] == Header(f.msgId, f.seqNo, |f.body|);
      HeaderFields(f.msgId, f.seqNo, |f.body|, b);
    }
  }

  // ----- Reading from a connection -----

  /** Everything that is still to arrive, in order. */
  function Joined(chunks: seq<seq<Byte>>): seq<Byte>
  {
    if chunks == [] then [] else chunks[0] + Joined(chunks[1..])
  }

  /** A connection delivers its bytes in non-empty pieces of any size; one read returns at most one piece. */
  class Connection {
    var chunks: seq<seq<Byte>>

    ghost predicate Valid()
      reads this
    {
      forall c :: c in chunks ==> c != []
    }

    ghost function Stream(): seq<Byte>
      reads this
    {
      Joined(chunks)
    }

    constructor (chunks: seq<seq<Byte>>)
      requires forall c :: c in chunks ==> c != []
      ensures Valid() && Stream() == Joined(chunks)
    {
      this.chunks := chunks;
    }

    /** Reads some bytes into the buffer from index `at` on; none means the end of the stream. */
    method Read(buf: array<Byte>, at: nat) returns (n: nat)
      requires Valid() && at < buf.Length
      modifies this, buf
      ensures Valid() && at + n <= buf.Length && n <= |old(Stream())|
      ensures n == 0 <==> old(Stream()) == []
      ensures buf[..at + n] == old(buf[..at]) + old(Stream())[..n]
      ensures Stream() == old(Stream())[n..]
    {
      if chunks == [] {
        return 0;
      }
      var chunk := chunks[0];
      assert chunk in chunks;
      n := if |chunk| <= buf.Length - at then |chunk| else buf.Length - at;
      ghost var stream := Stream();
      Copy(buf, at, chunk[..n]);
      assert chunk[..n] == stream[..n];
      assert forall c :: c in chunks[1..] ==> c in chunks;
      if n == |chunk| {
        chunks := chunks[1..];
        assert Stream() == stream[n..];
      } else {
        chunks := [chunk[n..]] + chunks[1..];
        assert chunks[1..] == old(chunks)[1..] && chunk in old(chunks);
        assert Stream() == stream[n..];
      }
    }

    /** Reads until the buffer is full or the stream ends. */
    method ReadFull(buf: array<Byte>) returns (err: Option<Failure>)
      requires Valid() && buf.Length > 0
      modifies this, buf
      ensures Valid()
      ensures var b := old(Stream());
              if |b| < buf.Length then err == Some(ShortOf(|b|)) && Stream() == []
              else err == None && buf[..] == b[..buf.Length] && Stream() == b[buf.Length..]
    {
      var at := 0;
      ghost var b := Stream();
      while at < buf.Length
        invariant Valid() && at <= buf.Length && at <= |b|
        invariant buf[..at] == b[..at] && Stream() == b[at..]
      {
        var n := Read(buf, at);
        if n == 0 {
          return Some(ShortOf(at));
        }
        assert b[..at + n] == b[..at] + b[at..][..n];
        at := at + n;
      }
      return None;
    }
  }

  class FrameReader {
    const r: Connection
    const header: array<Byte>

    ghost predicate Valid()
      reads this, r
    {
      r.Valid() && header.Length == HEADER_SIZE
    }

    constructor (r: Connection)
      requires r.Valid()
      ensures Valid() && this.r == r && fresh(header)
    {
      this.r := r;
      header := new Byte[HEADER_SIZE](_ => 0);
    }

    /** The next frame, or why there is none. It depends on the stream alone, not on the pieces in which it arrives. */
    method Next() returns (f: Option<Frame>, err: Option<Failure>)
      requires Valid()
      modifies r, header
      ensures Valid()
      ensures match ReadFrame(old(r.Stream()))
              case Got(frame, rest) => f == Some(frame) && err == None && r.Stream() == rest
              case Failed(e, rest) => f == None && err == Some(e) && r.Stream() == rest
    {
      hide Joined;
      ghost var b := r.Stream();
      err := r.ReadFull(header);
      if err.Some? {
        return None, err;
      }
      var h := header[..];
      assert h == b[..HEADER_SIZE] && r.Stream() == b[HEADER_SIZE..];
      if GetU16(h, 0) != MAGIC {
        return None, Some(BadMagic);
      }
      var bodyLen := GetU32(h, 8);
      if bodyLen > MAX_BODY_SIZE {
        return None, Some(BodyTooLarge);
      }
      var body := [];
      if bodyLen > 0 {
        var buf := new Byte[bodyLen](_ => 0);
        err := r.ReadFull(buf);
        if err.Some? {
          return None, err;
        }
        body := buf[..];
      }
      assert b[HEADER_SIZE..][..bodyLen] == b[HEADER_SIZE..HEADER_SIZE + bodyLen];
      assert b[HEADER_SIZE..][bodyLen..] == b[HEADER_SIZE + bodyLen..];
      f := Some(Frame(GetU16(h, 2), GetU32(h, 4), body));
    }

    /** The read loop of a session: every frame up to the first failure. */
    method Serve() returns (frames: seq<Frame>, failure: Failure)
      requires Valid()
      modifies r, header
      ensures Valid() && Session(frames, failure) == ReadAll(old(r.Stream()))
    {
      hide ReadFrame, Connection.Stream;
      frames := [];
      while true
        invariant Valid()
        invariant ReadAll(old(r.Stream())) == Session(frames + ReadAll(r.Stream()).frames, ReadAll(r.Stream()).failure)
        decreases |r.Stream()|
      {
        var f, err := Next();
        if err.Some? {
          assert frames + [] == frames;
          return frames, err.value;
        }
        assert frames + ([f.value] + ReadAll(r.Stream()).frames) == frames + [f.value] + ReadAll(r.Stream()).frames;
        frames := frames + [f.value];
      }
    }
  }
}
