/** The tokenizer artifact: a 20-byte header over a body of fixed-width metadata and
    ten length-prefixed sections. The checksum is any function of the body. */
module Artifacts {
  import opened Basics

  type Byte = b: int | 0 <= b < 256
  type Bytes = seq<Byte>
  type Checksum = Bytes -> int

  const TWO_32: int := 0x1_0000_0000
  const VERSION: int := 1
  const HEADER_SIZE: nat := 20

  function NumMeta(): nat { 15 }

  function NumSections(): nat { 10 }

  /** "CUDLMTK1" */
  function Magic(): (m: Bytes)
    ensures |m| == 8
  {
    [67, 85, 68, 76, 77, 84, 75, 49]
  }

  datatype Artifact = Artifact(meta: seq<int>, sections: seq<Bytes>)

  datatype Error = BadMagic | UnsupportedVersion | ReservedNotZero | CrcMismatch | Truncated | TrailingGarbage

  datatype Result<+T> = Ok(value: T) | Err(error: Error)

  // ----- little-endian words ------------------------------------------------

  predicate FitsU32(n: int) {
    0 <= n < TWO_32
  }

  function U32(n: int): (b: Bytes)
    requires FitsU32(n)
    ensures |b| == 4
  {
    [n % 256, n / 256 % 256, n / 256 / 256 % 256, n / 256 / 256 / 256]
  }

  /** A byte below the number the higher bytes stand for. */
  function Above(low: int, high: int): int {
    high * 256 + low
  }

  function DecodeU32(b: Bytes): (n: int)
    requires |b| == 4
    ensures FitsU32(n)
  {
    Above(b[0], Above(b[1], Above(b[2], b[3])))
  }

  lemma AboveSplits(low: int, high: int)
    requires 0 <= low < 256
    ensures Above(low, high) % 256 == low && Above(low, high) / 256 == high
  {
    DivModUnique(high, low, 256);
  }

  lemma SplitAbove(n: int)
    ensures Above(n % 256, n / 256) == n
  {
  }

  lemma DecodeEncode(n: int)
    requires FitsU32(n)
    ensures DecodeU32(U32(n)) == n
  {
    SplitAbove(n);
    SplitAbove(n / 256);
    SplitAbove(n / 256 / 256);
  }

  lemma EncodeDecode(b: Bytes)
    requires |b| == 4
    ensures U32(DecodeU32(b)) == b
  {
    AboveSplits(b[2], b[3]);
    AboveSplits(b[1], Above(b[2], b[3]));
    AboveSplits(b[0], Above(b[1], Above(b[2], b[3])));
  }

  /** The first byte is the lowest. */
  lemma LittleEndian(b: Bytes)
    requires |b| == 4
    ensures DecodeU32(b) == b[0] as int + 256 * b[1] as int + 65536 * b[2] as int + 16777216 * b[3] as int
  {
  }

  // ----- frames -------------------------------------------------------------

  predicate AllFit(meta: seq<int>) {
    forall i | 0 <= i < |meta| :: FitsU32(meta[i])
  }

  ghost predicate Frameable(sections: seq<Bytes>) {
    forall i | 0 <= i < |sections| :: FitsU32(|sections[i]|)
  }

  function Frame(payload: Bytes): (b: Bytes)
    requires FitsU32(|payload|)
    ensures |b| == 4 + |payload|
  {
    U32(|payload|) + payload
  }

  ghost function Frames(sections: seq<Bytes>): Bytes
    requires Frameable(sections)
  {
    if sections == [] then [] else Frame(sections[0]) + Frames(sections[1..])
  }

  function Words(meta: seq<int>): (b: Bytes)
    requires AllFit(meta)
    ensures |b| == 4 * |meta|
  {
    if meta == [] then [] else U32(meta[0]) + Words(meta[1..])
  }

  function DecodeWords(b: Bytes, n: nat): (meta: seq<int>)
    requires |b| == 4 * n
    ensures |meta| == n
    decreases n
  {
    if n == 0 then [] else [DecodeU32(b[..4])] + DecodeWords(b[4..], n - 1)
  }

  lemma {:induction false} DecodeWordsEncode(meta: seq<int>)
    requires AllFit(meta)
    ensures DecodeWords(Words(meta), |meta|) == meta
  {
    if meta != [] {
      var b := Words(meta);
      assert b[..4] == U32(meta[0]) && b[4..] == Words(meta[1..]);
      DecodeEncode(meta[0]);
      DecodeWordsEncode(meta[1..]);
    }
  }

  lemma {:induction false} EncodeWordsDecode(b: Bytes, n: nat)
    requires |b| == 4 * n
    ensures AllFit(DecodeWords(b, n)) && Words(DecodeWords(b, n)) == b
    decreases n
  {
    if n > 0 {
      EncodeWordsDecode(b[4..], n - 1);
      EncodeDecode(b[..4]);
      assert DecodeWords(b, n)[1..] == DecodeWords(b[4..], n - 1);
      assert b == b[..4] + b[4..];
    }
  }

  // ----- the reader's specification -----------------------------------------

  /** n sections from `off` on, and where they end. */
  function ReadSections(body: Bytes, off: nat, n: nat): (r: Result<(seq<Bytes>, nat)>)
    requires off <= |body|
    ensures r.Ok? ==> |r.value.0| == n && off <= r.value.1 <= |body|
    decreases n
  {
    if n == 0 then Ok(([], off))
    else if off + 4 > |body| then Err(Truncated)
    else
      var size := DecodeU32(body[off..off + 4]);
      if off + 4 + size > |body| then Err(Truncated)
      else Prepend([body[off + 4..off + 4 + size]], ReadSections(body, off + 4 + size, n - 1))
  }

  function Prepend(first: seq<Bytes>, r: Result<(seq<Bytes>, nat)>): Result<(seq<Bytes>, nat)> {
    if r.Ok? then Ok((first + r.value.0, r.value.1)) else r
  }

  function ReadBody(body: Bytes): Result<Artifact> {
    if |body| < 4 * NumMeta() then Err(Truncated)
    else
      var r := ReadSections(body, 4 * NumMeta(), NumSections());
      if r.Err? then Err(r.error)
      else if r.value.1 != |body| then Err(TrailingGarbage)
      else Ok(Artifact(DecodeWords(body[..4 * NumMeta()], NumMeta()), r.value.0))
  }

  function Mask(crc: int): (n: int)
    ensures FitsU32(n)
  {
    crc % TWO_32
  }

  function Read(data: Bytes, crc: Checksum): Result<Artifact> {
    if |data| < HEADER_SIZE || data[..8] != Magic() then Err(BadMagic)
    else if DecodeU32(data[8..12]) != VERSION then Err(UnsupportedVersion)
    else if DecodeU32(data[12..16]) != 0 then Err(ReservedNotZero)
    else if Mask(crc(data[20..])) != DecodeU32(data[16..20]) then Err(CrcMismatch)
    else ReadBody(data[20..])
  }

  // ----- the writer's specification -----------------------------------------

  ghost predicate Writable(a: Artifact) {
    |a.meta| == NumMeta() && AllFit(a.meta) && |a.sections| == NumSections() && Frameable(a.sections)
  }

  ghost function Body(a: Artifact): Bytes
    requires Writable(a)
  {
    Words(a.meta) + Frames(a.sections)
  }

  function Header(body: Bytes, crc: Checksum): (h: Bytes)
    ensures |h| == HEADER_SIZE
  {
    Magic() + U32(VERSION) + U32(0) + U32(Mask(crc(body)))
  }

  ghost function Written(a: Artifact, crc: Checksum): Bytes
    requires Writable(a)
  {
    Header(Body(a), crc) + Body(a)
  }

  // ----- reading what was written -------------------------------------------

  /** Reading n sections depends only on the bytes up to where they end. */
  lemma {:induction false} ReadSectionsLocal(body: Bytes, more: Bytes, off: nat, n: nat)
    requires off <= |body| && ReadSections(body, off, n).Ok?
    ensures ReadSections(body + more, off, n) == ReadSections(body, off, n)
    decreases n
  {
    if n > 0 {
      var size := DecodeU32(body[off..off + 4]);
      assert (body + more)[off..off + 4] == body[off..off + 4];
      assert (body + more)[off + 4..off + 4 + size] == body[off + 4..off + 4 + size];
      ReadSectionsLocal(body, more, off + 4 + size, n - 1);
    }
  }

  lemma ReadSectionsStep(body: Bytes, off: nat, n: nat, s: Bytes)
    requires n > 0 && off + 4 + |s| <= |body| && DecodeU32(body[off..off + 4]) == |s|
    requires body[off + 4..off + 4 + |s|] == s
    ensures ReadSections(body, off, n) == Prepend([s], ReadSections(body, off + 4 + |s|, n - 1))
  {
  }

  lemma FrameSlices(before: Bytes, word: Bytes, s: Bytes, after: Bytes)
    requires |word| == 4
    ensures var body, off := before + (word + s) + after, |before|;
      body[off..off + 4] == word && body[off + 4..off + 4 + |s|] == s
  {
  }

  lemma FrameAt(before: Bytes, s: Bytes, after: Bytes, n: nat)
    requires FitsU32(|s|) && n > 0
    ensures var body := before + Frame(s) + after;
      ReadSections(body, |before|, n) == Prepend([s], ReadSections(body, |before| + 4 + |s|, n - 1))
  {
    FrameSlices(before, U32(|s|), s, after);
    DecodeEncode(|s|);
    ReadSectionsStep(before + Frame(s) + after, |before|, n, s);
  }

  lemma ConcatAssoc(a: Bytes, b: Bytes, c: Bytes)
    ensures a + b + c == a + (b + c)
  {
  }

  /** Framed sections read back, and reading stops right after them. */
  lemma {:induction false} ReadFrames(before: Bytes, sections: seq<Bytes>)
    requires Frameable(sections)
    ensures ReadSections(before + Frames(sections), |before|, |sections|)
         == Ok((sections, |before + Frames(sections)|))
    decreases |sections|
  {
    if sections == [] {
      assert before + Frames(sections) == before;
    } else {
      var s, rest := sections[0], sections[1..];
      var next := before + Frame(s);
      ConcatAssoc(before, Frame(s), Frames(rest));
      ReadFrames(next, rest);
      FrameAt(before, s, Frames(rest), |sections|);
      assert [s] + rest == sections;
    }
  }

  lemma ReadBodyWritten(a: Artifact)
    requires Writable(a)
    ensures ReadBody(Body(a)) == Ok(a)
  {
    ReadFrames(Words(a.meta), a.sections);
    assert Body(a)[..4 * NumMeta()] == Words(a.meta);
    DecodeWordsEncode(a.meta);
  }

  lemma HeaderSlices(m: Bytes, v: Bytes, r: Bytes, k: Bytes, body: Bytes)
    requires |m| == 8 && |v| == |r| == |k| == 4
    ensures var data := m + v + r + k + body;
      data[..8] == m && data[8..12] == v && data[12..16] == r && data[16..20] == k && data[20..] == body
  {
  }

  lemma HeaderFields(body: Bytes, crc: Checksum)
    ensures var data := Header(body, crc) + body;
      && data[..8] == Magic() && DecodeU32(data[8..12]) == VERSION && DecodeU32(data[12..16]) == 0
      && DecodeU32(data[16..20]) == Mask(crc(body)) && data[20..] == body
  {
    HeaderSlices(Magic(), U32(VERSION), U32(0), U32(Mask(crc(body))), body);
    DecodeEncode(VERSION);
    DecodeEncode(0);
    DecodeEncode(Mask(crc(body)));
  }

  /** Every written artifact reads back, metadata and all ten sections. */
  lemma ReadWritten(a: Artifact, crc: Checksum)
    requires Writable(a)
    ensures Read(Written(a, crc), crc) == Ok(a)
  {
    HeaderFields(Body(a), crc);
    ReadBodyWritten(a);
  }

  // ----- only written artifacts are read ------------------------------------

  lemma FramesCons(s: Bytes, rest: seq<Bytes>)
    requires FitsU32(|s|) && Frameable(rest)
    ensures Frameable([s] + rest) && Frames([s] + rest) == Frame(s) + Frames(rest)
  {
    assert ([s] + rest)[1..] == rest;
  }

  lemma FirstFrame(body: Bytes, off: nat, at: nat, end: nat)
    requires off + 4 <= at <= end <= |body|
    ensures body[off..end] == body[off..off + 4] + body[off + 4..at] + body[at..end]
  {
  }

  lemma {:induction false} SectionsAreFrames(body: Bytes, off: nat, n: nat)
    requires off <= |body| && ReadSections(body, off, n).Ok?
    ensures var (sections, end) := ReadSections(body, off, n).value;
      Frameable(sections) && body[off..end] == Frames(sections)
    decreases n
  {
    if n > 0 {
      var word := body[off..off + 4];
      var size := DecodeU32(word);
      var at := off + 4 + size;
      var s := body[off + 4..at];
      SectionsAreFrames(body, at, n - 1);
      EncodeDecode(word);
      var (rest, end) := ReadSections(body, at, n - 1).value;
      FramesCons(s, rest);
      FirstFrame(body, off, at, end);
    }
  }

  lemma BodyParts(body: Bytes, m: nat, n: nat)
    requires 4 * m <= |body| && ReadSections(body, 4 * m, n).Ok? && ReadSections(body, 4 * m, n).value.1 == |body|
    ensures var meta, sections := DecodeWords(body[..4 * m], m), ReadSections(body, 4 * m, n).value.0;
      AllFit(meta) && Frameable(sections) && Words(meta) + Frames(sections) == body
  {
    SectionsAreFrames(body, 4 * m, n);
    EncodeWordsDecode(body[..4 * m], m);
    assert body == body[..4 * m] + body[4 * m..];
  }

  lemma BodyIsWritten(body: Bytes)
    requires ReadBody(body).Ok?
    ensures Writable(ReadBody(body).value) && Body(ReadBody(body).value) == body
  {
    BodyParts(body, NumMeta(), NumSections());
  }

  lemma Reassemble(data: Bytes)
    requires |data| >= 20
    ensures data[..8] + data[8..12] + data[12..16] + data[16..20] == data[..20]
    ensures data[..20] + data[20..] == data
  {
  }

  lemma HeaderRead(data: Bytes, crc: Checksum)
    requires Read(data, crc).Ok?
    ensures Header(data[20..], crc) == data[..20]
  {
    EncodeDecode(data[8..12]);
    EncodeDecode(data[12..16]);
    EncodeDecode(data[16..20]);
    Reassemble(data);
  }

  /** The encoding is canonical: data that reads as an artifact is exactly what the
      writer produces for it. */
  lemma WrittenRead(data: Bytes, crc: Checksum)
    requires Read(data, crc).Ok?
    ensures Writable(Read(data, crc).value) && Written(Read(data, crc).value, crc) == data
  {
    BodyIsWritten(data[20..]);
    HeaderRead(data, crc);
    Reassemble(data);
  }

  // ----- a prefix code ------------------------------------------------------

  lemma ReadBodyExtended(body: Bytes, more: Bytes)
    requires ReadBody(body).Ok? && more != []
    ensures ReadBody(body + more) == Err(TrailingGarbage)
  {
    ReadSectionsLocal(body, more, 4 * NumMeta(), NumSections());
  }

  /** Under an accepted header only the checksum and the body decide. */
  lemma UnderHeader(good: Bytes, data: Bytes, goodBody: Bytes, body: Bytes, crc: Checksum)
    requires Read(good, crc).Ok? && |data| >= 20 && goodBody == good[20..] && body == data[20..]
    requires data[..8] == good[..8] && data[8..12] == good[8..12] && data[12..16] == good[12..16]
    requires data[16..20] == good[16..20]
    ensures Read(data, crc) == if Mask(crc(body)) != Mask(crc(goodBody)) then Err(CrcMismatch) else ReadBody(body)
  {
  }

  lemma ExtendedSlices(data: Bytes, more: Bytes)
    requires |data| >= 20
    ensures var longer := data + more;
      && longer[..8] == data[..8] && longer[8..12] == data[8..12] && longer[12..16] == data[12..16]
      && longer[16..20] == data[16..20] && longer[20..] == data[20..] + more
  {
  }

  /** Adding bytes to an artifact makes it unreadable, whatever the checksum. */
  lemma ExtensionRejected(data: Bytes, more: Bytes, crc: Checksum)
    requires Read(data, crc).Ok? && more != []
    ensures Read(data + more, crc) == Err(CrcMismatch) || Read(data + more, crc) == Err(TrailingGarbage)
  {
    ExtendedSlices(data, more);
    UnderHeader(data, data + more, data[20..], data[20..] + more, crc);
    ReadBodyExtended(data[20..], more);
  }

  /** So does dropping bytes from its end. */
  lemma PrefixRejected(data: Bytes, n: nat, crc: Checksum)
    requires Read(data, crc).Ok? && n < |data|
    ensures Read(data[..n], crc).Err?
  {
    PrefixError(data, n, crc);
  }

  /** Which error a cut artifact gives: too short for a header, a checksum mismatch, or
      with a matching checksum a truncated body. */
  lemma PrefixError(data: Bytes, n: nat, crc: Checksum)
    requires Read(data, crc).Ok? && n < |data|
    ensures n < HEADER_SIZE ==> Read(data[..n], crc) == Err(BadMagic)
    ensures n >= HEADER_SIZE && Mask(crc(data[20..n])) != Mask(crc(data[20..]))
        ==> Read(data[..n], crc) == Err(CrcMismatch)
    ensures n >= HEADER_SIZE && Mask(crc(data[20..n])) == Mask(crc(data[20..]))
        ==> Read(data[..n], crc) == Err(Truncated)
  {
    if n >= HEADER_SIZE {
      CutSlices(data, n);
      CutError(data, data[..n], data[20..], data[20..n], crc);
    }
  }

  lemma CutError(data: Bytes, cut: Bytes, body: Bytes, short: Bytes, crc: Checksum)
    requires Read(data, crc).Ok? && |cut| >= 20 && body == data[20..] && short == cut[20..] && short < body
    requires cut[..8] == data[..8] && cut[8..12] == data[8..12] && cut[12..16] == data[12..16]
    requires cut[16..20] == data[16..20]
    ensures Read(cut, crc) == Err(if Mask(crc(short)) != Mask(crc(body)) then CrcMismatch else Truncated)
  {
    UnderHeader(data, cut, body, short, crc);
    CutBody(body, short);
  }

  lemma CutSlices(data: Bytes, n: nat)
    requires 20 <= n <= |data|
    ensures var cut := data[..n];
      && cut[..8] == data[..8] && cut[8..12] == data[8..12] && cut[12..16] == data[12..16]
      && cut[16..20] == data[16..20] && cut[20..] == data[20..n] == data[20..][..n - 20]
  {
  }

  lemma CutBody(body: Bytes, cut: Bytes)
    requires ReadBody(body).Ok? && cut < body
    ensures ReadBody(cut) == Err(Truncated)
  {
    var more := body[|cut|..];
    assert body == cut + more;
    if |cut| >= 4 * NumMeta() && ReadSections(cut, 4 * NumMeta(), NumSections()).Ok? {
      ReadSectionsLocal(cut, more, 4 * NumMeta(), NumSections());
    }
    ReadSectionsError(cut, 4 * NumMeta(), NumSections());
  }

  lemma {:induction false} ReadSectionsError(body: Bytes, off: nat, n: nat)
    ensures off <= |body| && ReadSections(body, off, n).Err? ==> ReadSections(body, off, n).error == Truncated
    decreases n
  {
    if n > 0 && off + 4 <= |body| {
      var size := DecodeU32(body[off..off + 4]);
      ReadSectionsError(body, off + 4 + size, n - 1);
    }
  }

  // ----- the format, byte by byte -------------------------------------------

  lemma SameWord(m: int, n: int)
    requires FitsU32(n)
    ensures Mask(m) == n <==> (m - n) % 0x1_0000_0000 == 0
  {
  }

  /** Each header error in the order of the checks, exactly when it is given; past them,
      with a checksum equal to the stored word mod 2^32, only the body decides. */
  lemma HeaderErrors(data: Bytes, crc: Checksum)
    ensures Read(data, crc) == Err(BadMagic) <==> |data| < 20 || data[..8] != [67, 85, 68, 76, 77, 84, 75, 49]
    ensures |data| >= 20 && data[..8] == [67, 85, 68, 76, 77, 84, 75, 49] ==>
      var version, reserved, stored := DecodeU32(data[8..12]), DecodeU32(data[12..16]), DecodeU32(data[16..20]);
      var checked := (crc(data[20..]) - stored) % 0x1_0000_0000 == 0;
      && (Read(data, crc) == Err(UnsupportedVersion) <==> version != 1)
      && (Read(data, crc) == Err(ReservedNotZero) <==> version == 1 && reserved != 0)
      && (Read(data, crc) == Err(CrcMismatch) <==> version == 1 && reserved == 0 && !checked)
      && (version == 1 && reserved == 0 && checked ==> Read(data, crc) == ReadBody(data[20..]))
      && (Read(data, crc).Ok? ==> version == 1 && reserved == 0 && checked)
  {
    if |data| >= 20 {
      SameWord(crc(data[20..]), DecodeU32(data[16..20]));
      ErrorOrder(data, crc, DecodeU32(data[8..12]), DecodeU32(data[12..16]));
    }
  }

  lemma ErrorOrder(data: Bytes, crc: Checksum, version: int, reserved: int)
    requires |data| >= 20 && version == DecodeU32(data[8..12]) && reserved == DecodeU32(data[12..16])
    ensures Read(data, crc) == Err(BadMagic) <==> data[..8] != Magic()
    ensures data[..8] == Magic() ==>
      var checked := Mask(crc(data[20..])) == DecodeU32(data[16..20]);
      && (Read(data, crc) == Err(UnsupportedVersion) <==> version != 1)
      && (Read(data, crc) == Err(ReservedNotZero) <==> version == 1 && reserved != 0)
      && (Read(data, crc) == Err(CrcMismatch) <==> version == 1 && reserved == 0 && !checked)
      && (version == 1 && reserved == 0 && checked ==> Read(data, crc) == ReadBody(data[20..]))
      && (Read(data, crc).Ok? ==> version == 1 && reserved == 0 && checked)
  {
    ReadBodyErrors(data[20..]);
  }

  lemma ReadBodyErrors(body: Bytes)
    ensures ReadBody(body).Ok? || ReadBody(body) == Err(Truncated) || ReadBody(body) == Err(TrailingGarbage)
  {
    ReadSectionsError(body, 4 * NumMeta(), NumSections());
  }

  /** The body ends too soon exactly when no written body starts it, and goes on too long
      exactly when one starts it and is not all of it. */
  lemma BodyErrors(body: Bytes)
    ensures ReadBody(body) == Err(Truncated) <==> forall a | Writable(a) :: !(Body(a) <= body)
    ensures ReadBody(body) == Err(TrailingGarbage) <==> exists a :: Writable(a) && Body(a) < body
    ensures ReadBody(body).Ok? <==> exists a :: Writable(a) && Body(a) == body
  {
    ReadBodyErrors(body);
    if ReadBody(body).Ok? {
      BodyIsWritten(body);
      assert Writable(ReadBody(body).value) && Body(ReadBody(body).value) == body;
    } else if ReadBody(body) == Err(TrailingGarbage) {
      var a := BodyStarts(body);
      assert Writable(a) && Body(a) < body;
    }
    forall a | Writable(a) && Body(a) <= body
      ensures ReadBody(body) == if Body(a) == body then Ok(a) else Err(TrailingGarbage)
    {
      PrefixBody(a, Body(a), body);
    }
  }

  lemma PrefixBody(a: Artifact, front: Bytes, body: Bytes)
    requires Writable(a) && front == Body(a) && front <= body
    ensures ReadBody(body) == if front == body then Ok(a) else Err(TrailingGarbage)
  {
    var more := body[|front|..];
    assert body == front + more;
    StartedBody(a, front, more);
    assert more == [] ==> front == body;
  }

  lemma StartedBody(a: Artifact, front: Bytes, more: Bytes)
    requires Writable(a) && front == Body(a)
    ensures more == [] ==> ReadBody(front) == Ok(a)
    ensures more != [] ==> ReadBody(front + more) == Err(TrailingGarbage)
  {
    ReadBodyWritten(a);
    if more != [] {
      ReadBodyExtended(front, more);
    }
  }

  lemma BodyStarts(body: Bytes) returns (a: Artifact)
    requires ReadBody(body) == Err(TrailingGarbage)
    ensures Writable(a) && Body(a) < body
  {
    var m, n := NumMeta(), NumSections();
    var (sections, end) := ReadSections(body, 4 * m, n).value;
    SectionsAreFrames(body, 4 * m, n);
    EncodeWordsDecode(body[..4 * m], m);
    a := Artifact(DecodeWords(body[..4 * m], m), sections);
    FrontIsBody(a, body, 4 * m, end);
  }

  lemma FrontIsBody(a: Artifact, body: Bytes, at: nat, end: nat)
    requires Writable(a) && at <= end < |body| && Words(a.meta) == body[..at] && Frames(a.sections) == body[at..end]
    ensures Body(a) < body
  {
    PrefixJoined(body, at, end);
  }

  lemma PrefixJoined(body: Bytes, at: nat, end: nat)
    requires at <= end <= |body|
    ensures body[..at] + body[at..end] == body[..end]
  {
  }

  /** Where section i's length word stands: after the 20 header bytes, the 15 metadata
      words and the sections before it. */
  function SectionAt(sections: seq<Bytes>, i: nat): nat
    requires i <= |sections|
  {
    if i == 0 then 80 else SectionAt(sections, i - 1) + 4 + |sections[i - 1]|
  }

  /** The header: magic, version 1, a zero word, and the checksum's low 32 bits. */
  lemma HeaderLayout(body: Bytes, crc: Checksum)
    ensures var data := Header(body, crc) + body;
      var stored := DecodeU32(data[16..20]);
      && data[..8] == [67, 85, 68, 76, 77, 84, 75, 49] && DecodeU32(data[8..12]) == 1 && DecodeU32(data[12..16]) == 0
      && (stored - crc(body)) % 0x1_0000_0000 == 0 && (0 <= crc(body) < 0x1_0000_0000 ==> stored == crc(body))
      && data[20..] == body
  {
    HeaderFields(body, crc);
    MaskCongruent(crc(body));
  }

  lemma MaskCongruent(m: int)
    ensures (Mask(m) - m) % 0x1_0000_0000 == 0 && (0 <= m < 0x1_0000_0000 ==> Mask(m) == m)
  {
    DivModUnique(-(m / TWO_32), 0, TWO_32);
    assert Mask(m) - m == -(m / TWO_32) * TWO_32 + 0;
  }

  lemma {:induction false} WordsAt(meta: seq<int>, i: nat)
    requires AllFit(meta) && i < |meta|
    ensures DecodeU32(Words(meta)[4 * i..4 * i + 4]) == meta[i]
  {
    if i == 0 {
      DecodeEncode(meta[0]);
      assert Words(meta)[0..4] == U32(meta[0]);
    } else {
      WordsAt(meta[1..], i - 1);
      assert Words(meta)[4 * i..4 * i + 4] == Words(meta[1..])[4 * (i - 1)..4 * (i - 1) + 4];
    }
  }

  lemma SplitStep(sections: seq<Bytes>, i: nat)
    requires i < |sections|
    ensures sections[..i + 1] == sections[..i] + [sections[i]] && sections[i..] == [sections[i]] + sections[i + 1..]
    ensures sections[i..][1..] == sections[i + 1..]
  {
  }

  lemma {:induction false} FramesSplit(sections: seq<Bytes>, i: nat)
    requires Frameable(sections) && i <= |sections|
    ensures Frames(sections) == Frames(sections[..i]) + Frames(sections[i..])
    ensures |Frames(sections[..i])| == SectionAt(sections, i) - 80
  {
    if i == 0 {
      assert sections[0..] == sections;
    } else {
      var s := sections[i - 1];
      SplitStep(sections, i - 1);
      FramesSplit(sections, i - 1);
      FramesSnoc(sections[..i - 1], s);
      ConcatAssoc(Frames(sections[..i - 1]), Frame(s), Frames(sections[i..]));
    }
  }

  lemma SectionIn(front: Bytes, s: Bytes, tail: Bytes, data: Bytes, at: nat)
    requires FitsU32(|s|) && |front| == at && data == front + Frame(s) + tail
    ensures at + 4 + |s| <= |data| && DecodeU32(data[at..at + 4]) == |s| && data[at + 4..at + 4 + |s|] == s
  {
    FrameSlices(front, U32(|s|), s, tail);
    DecodeEncode(|s|);
  }

  lemma DataEnds(before: Bytes, sections: seq<Bytes>, data: Bytes)
    requires Frameable(sections) && |before| == 80 && data == before + Frames(sections)
    ensures |data| == SectionAt(sections, |sections|)
  {
    FramesSplit(sections, |sections|);
    assert sections[..|sections|] == sections;
  }

  /** Section i: its length, then its bytes. */
  lemma SectionFound(before: Bytes, sections: seq<Bytes>, i: nat, data: Bytes, at: nat, s: Bytes)
    requires Frameable(sections) && i < |sections| && |before| == 80 && data == before + Frames(sections)
    requires at == SectionAt(sections, i) && s == sections[i]
    ensures 80 <= at && at + 4 + |s| <= |data|
    ensures DecodeU32(data[at..at + 4]) == |s| && data[at + 4..at + 4 + |s|] == s
  {
    FramesSplit(sections, i);
    SplitStep(sections, i);
    var front, tail := before + Frames(sections[..i]), Frames(sections[i + 1..]);
    ConcatAssoc(before, Frames(sections[..i]), Frame(s) + tail);
    ConcatAssoc(front, Frame(s), tail);
    SectionIn(front, s, tail, data, at);
  }

  lemma MetaLayout(header: Bytes, meta: seq<int>, rest: Bytes, i: nat)
    requires |header| == 20 && AllFit(meta) && i < |meta|
    ensures var data := header + (Words(meta) + rest);
      |data| >= 24 + 4 * i && DecodeU32(data[20 + 4 * i..24 + 4 * i]) == meta[i]
  {
    WordsAt(meta, i);
    assert (header + (Words(meta) + rest))[20 + 4 * i..24 + 4 * i] == Words(meta)[4 * i..4 * i + 4];
  }

  lemma SectionsPlaced(header: Bytes, meta: seq<int>, sections: seq<Bytes>, data: Bytes, j: nat, at: nat, s: Bytes)
    requires |header| == 20 && AllFit(meta) && |meta| == 15 && Frameable(sections) && j < |sections|
    requires data == header + (Words(meta) + Frames(sections)) && at == SectionAt(sections, j) && s == sections[j]
    ensures |data| == SectionAt(sections, |sections|) && 80 <= at && at + 4 + |s| <= |data|
    ensures DecodeU32(data[at..at + 4]) == |s| && data[at + 4..at + 4 + |s|] == s
  {
    ConcatAssoc(header, Words(meta), Frames(sections));
    SectionFound(header + Words(meta), sections, j, data, at, s);
    DataEnds(header + Words(meta), sections, data);
  }

  /** What the writer puts where: the header, fifteen words from offset 20, and ten
      sections from offset 80, each a length word and its bytes. */
  lemma WrittenLayout(a: Artifact, crc: Checksum, data: Bytes, i: nat, j: nat, at: nat, s: Bytes)
    requires Writable(a) && data == Written(a, crc) && i < 15 && j < 10
    requires at == SectionAt(a.sections, j) && s == a.sections[j]
    ensures data == Header(Body(a), crc) + Body(a)
    ensures |data| == SectionAt(a.sections, 10) >= 80 && DecodeU32(data[20 + 4 * i..24 + 4 * i]) == a.meta[i]
    ensures 80 <= at && at + 4 + |s| <= |data|
    ensures DecodeU32(data[at..at + 4]) == |s| && data[at + 4..at + 4 + |s|] == s
  {
    MetaLayout(Header(Body(a), crc), a.meta, Frames(a.sections), i);
    SectionsPlaced(Header(Body(a), crc), a.meta, a.sections, data, j, at, s);
  }

  // ----- the writer ---------------------------------------------------------

  lemma {:induction false} FramesSnoc(sections: seq<Bytes>, s: Bytes)
    requires Frameable(sections) && FitsU32(|s|)
    ensures Frames(sections + [s]) == Frames(sections) + Frame(s)
  {
    if sections == [] {
      assert sections + [s] == [s];
      assert Frames([s]) == Frame(s) + Frames([]);
    } else {
      FramesSnoc(sections[1..], s);
      assert (sections + [s])[1..] == sections[1..] + [s];
    }
  }

  /** A length prefix that does not fit its word is an error. */
  function Section(buf: Bytes, payload: Bytes): Option<Bytes> {
    if FitsU32(|payload|) then Some(buf + Frame(payload)) else None
  }

  method BuildArtifact(a: Artifact, crc: Checksum) returns (data: Option<Bytes>)
    requires |a.meta| == NumMeta() && |a.sections| == NumSections()
    ensures data == if Writable(a) then Some(Written(a, crc)) else None
  {
    if !AllFit(a.meta) {
      return None;
    }
    var body := Words(a.meta);
    for i := 0 to |a.sections|
      invariant Frameable(a.sections[..i]) && body == Words(a.meta) + Frames(a.sections[..i])
    {
      var grown := Section(body, a.sections[i]);
      if grown.None? {
        return None;
      }
      FramesSnoc(a.sections[..i], a.sections[i]);
      assert a.sections[..i + 1] == a.sections[..i] + [a.sections[i]];
      body := grown.value;
    }
    assert a.sections[..|a.sections|] == a.sections;
    data := Some(Header(body, crc) + body);
  }

  // ----- the reader ---------------------------------------------------------

  /** The body under a moving offset. */
  class Reader {
    const body: Bytes
    var off: nat

    constructor (body: Bytes)
      ensures this.body == body && off == 0
    {
      this.body := body;
      off := 0;
    }

    method Take(n: nat) returns (v: Option<Bytes>)
      requires off <= |body|
      modifies this
      ensures old(off) + n > |body| ==> v == None && off == old(off)
      ensures old(off) + n <= |body| ==> off == old(off) + n && v == Some(body[old(off)..off])
    {
      if off + n > |body| {
        return None;
      }
      v := Some(body[off..off + n]);
      off := off + n;
    }

    method TakeSection() returns (s: Option<Bytes>)
      requires off <= |body|
      modifies this
      ensures off <= |body|
      ensures s.None? ==> forall n: nat | n > 0 :: ReadSections(body, old(off), n) == Err(Truncated)
      ensures s.Some? ==> forall n: nat | n > 0 ::
        ReadSections(body, old(off), n) == Prepend([s.value], ReadSections(body, off, n - 1))
    {
      var word := Take(4);
      if word.None? {
        return None;
      }
      s := Take(DecodeU32(word.value));
    }
  }

  lemma PrependTwice(a: seq<Bytes>, b: seq<Bytes>, r: Result<(seq<Bytes>, nat)>)
    ensures Prepend(a, Prepend(b, r)) == Prepend(a + b, r)
  {
    if r.Ok? {
      assert a + (b + r.value.0) == a + b + r.value.0;
    }
  }

  lemma PrependNone(r: Result<(seq<Bytes>, nat)>)
    ensures Prepend([], r) == r
  {
    if r.Ok? {
      assert [] + r.value.0 == r.value.0;
    }
  }

  method TakeSections(reader: Reader, n: nat) returns (sections: Option<seq<Bytes>>)
    requires reader.off <= |reader.body|
    modifies reader
    ensures reader.off <= |reader.body|
    ensures ReadSections(reader.body, old(reader.off), n)
         == if sections.None? then Err(Truncated) else Ok((sections.value, reader.off))
  {
    var taken: seq<Bytes> := [];
    ghost var all := ReadSections(reader.body, reader.off, n);
    PrependNone(all);
    for i := 0 to n
      invariant reader.off <= |reader.body|
      invariant all == Prepend(taken, ReadSections(reader.body, reader.off, n - i))
    {
      var s := reader.TakeSection();
      if s.None? {
        return None;
      }
      PrependTwice(taken, [s.value], ReadSections(reader.body, reader.off, n - i - 1));
      taken := taken + [s.value];
    }
    assert taken + [] == taken;
    sections := Some(taken);
  }

  method ReadFramed(body: Bytes) returns (r: Result<Artifact>)
    ensures r == ReadBody(body)
  {
    var reader := new Reader(body);
    var words := reader.Take(4 * NumMeta());
    if words.None? {
      return Err(Truncated);
    }
    var meta := DecodeWords(words.value, NumMeta());
    var sections := TakeSections(reader, NumSections());
    if sections.None? {
      return Err(Truncated);
    }
    if reader.off != |body| {
      return Err(TrailingGarbage);
    }
    r := Ok(Artifact(meta, sections.value));
  }

  method ReadArtifact(data: Bytes, crc: Checksum) returns (r: Result<Artifact>)
    ensures r == Read(data, crc)
  {
    if |data| < HEADER_SIZE || data[..8] != Magic() {
      return Err(BadMagic);
    }
    var version, reserved, stored := DecodeU32(data[8..12]), DecodeU32(data[12..16]), DecodeU32(data[16..20]);
    if version != VERSION {
      return Err(UnsupportedVersion);
    }
    if reserved != 0 {
      return Err(ReservedNotZero);
    }
    var body := data[20..];
    if Mask(crc(body)) != stored {
      return Err(CrcMismatch);
    }
    r := ReadFramed(body);
  }
}
