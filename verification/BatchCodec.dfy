/** Batches of frames as HTTP bodies (internal/frame/crypto.go). The AEAD and the compressors are
    parameters; the laws the proofs need of them are in `Lawful`. */
module BatchCodec {
  import opened Bytes
  import opened Frames
  import FrameCodec
  import Base64

  const MAX_FRAMES := 0xFFFF
  const COMPRESS_MIN_SIZE := 512
  const SEAL_OVERHEAD := 28  // a 12-byte nonce and a 16-byte tag

  const FLAG_RAW: byte := 0
  const FLAG_FLATE: byte := 1
  const FLAG_ZSTD: byte := 2

  datatype Suite = Suite(
    seal: (bytes, bytes) -> bytes,       // nonce, plaintext
    open: bytes -> Option<bytes>,
    zstd: bytes -> bytes,
    unzstd: bytes -> Option<bytes>,
    inflate: bytes -> Option<bytes>)

  ghost predicate Lawful(c: Suite) {
    && (forall nonce, p :: c.open(c.seal(nonce, p)) == Some(p))
    && (forall nonce, p :: |c.seal(nonce, p)| == |p| + SEAL_OVERHEAD)
    && (forall p :: c.unzstd(c.zstd(p)) == Some(p))
  }

  /** A suite that seals with a fixed prefix and compresses nothing. */
  function PlainSuite(): Suite {
    var pre: bytes := seq(SEAL_OVERHEAD, _ => 0);
    Suite((nonce, p) => pre + p, b => if |b| >= SEAL_OVERHEAD then Some(b[SEAL_OVERHEAD..]) else None,
          p => p, b => Some(b), b => None)
  }

  /** The laws can be met: this suite meets them. */
  lemma LawfulIsPossible()
    ensures Lawful(PlainSuite()) && forall p :: PlainSuite().zstd(p) == p
  {
    var pre: bytes := seq(SEAL_OVERHEAD, _ => 0);
    forall nonce: bytes, p: bytes ensures PlainSuite().open(PlainSuite().seal(nonce, p)) == Some(p) {
      assert (pre + p)[SEAL_OVERHEAD..] == p;
    }
  }

  datatype BatchError =
    | TooManyFrames | BadFrame(cause: FrameCodec.CodecError)
    | BadBase64 | BadSeal | EmptyPlaintext | BadCompression | UnknownFlags | ShortBatch

  // ----- the plaintext -----

  predicate AllWire(fs: seq<Frame>) {
    forall i :: 0 <= i < |fs| ==> FrameCodec.Wire(fs[i])
  }

  function Packed(fs: seq<Frame>): (s: bytes)
    requires AllWire(fs)
  {
    if fs == [] then []
    else
      var raw := FrameCodec.Encode(fs[0]);
      FrameCodec.BigEndian(|raw|, 4) + raw + Packed(fs[1..])
  }

  function Plain(id: ClientID, fs: seq<Frame>): (s: bytes)
    requires AllWire(fs)
  {
    id + FrameCodec.BigEndian(|fs|, 2) + Packed(fs)
  }

  /** The sealed plaintext: compressed when that is attempted and pays off, raw otherwise. */
  function SealInput(c: Suite, plain: bytes): (s: bytes) {
    if |plain| >= COMPRESS_MIN_SIZE && |c.zstd(plain)| < |plain|
    then [FLAG_ZSTD] + c.zstd(plain)
    else [FLAG_RAW] + plain
  }

  function Body(c: Suite, id: ClientID, fs: seq<Frame>, nonce: bytes): (s: bytes)
    requires AllWire(fs)
  {
    Base64.Encode(c.seal(nonce, SealInput(c, Plain(id, fs))))
  }

  method MarshalAll(frames: seq<Frame>) returns (r: Result<seq<bytes>, BatchError>)
    requires forall f <- frames :: f.seqNo < FrameCodec.SEQ_LIMIT
    ensures r.Ok? <==> AllWire(frames)
    ensures r.Ok? ==>
              |r.value| == |frames| && forall i :: 0 <= i < |frames| ==> r.value[i] == FrameCodec.Encode(frames[i])
    ensures r.Err? ==> r.error.BadFrame?
  {
    var marshaled: seq<bytes> := [];
    for i := 0 to |frames|
      invariant |marshaled| == i
      invariant forall j :: 0 <= j < i ==> FrameCodec.Wire(frames[j]) && marshaled[j] == FrameCodec.Encode(frames[j])
    {
      assert frames[i] in frames;
      var raw := FrameCodec.Marshal(frames[i]);
      if raw.Err? {
        return Err(BadFrame(raw.error));
      }
      marshaled := marshaled + [raw.value];
    }
    r := Ok(marshaled);
  }

  lemma PackedStep(fs: seq<Frame>, i: nat)
    requires AllWire(fs) && i < |fs|
    ensures Packed(fs[i..]) == FrameCodec.BigEndian(|FrameCodec.Encode(fs[i])|, 4) + FrameCodec.Encode(fs[i])
            + Packed(fs[i + 1..])
  {
    assert fs[i..][1..] == fs[i + 1..];
  }

  method Pack(id: ClientID, frames: seq<Frame>, marshaled: seq<bytes>) returns (plain: bytes)
    requires AllWire(frames) && |frames| <= MAX_FRAMES && |marshaled| == |frames|
    requires forall i :: 0 <= i < |frames| ==> marshaled[i] == FrameCodec.Encode(frames[i])
    ensures plain == Plain(id, frames)
  {
    TwoBytes(|frames|);
    plain := id + [|frames| / 256, |frames| % 256];
    assert frames[0..] == frames;
    for i := 0 to |marshaled|
      invariant plain + Packed(frames[i..]) == Plain(id, frames)
    {
      var n := |marshaled[i]|;
      SmallBigEndian(n);
      PackedStep(frames, i);
      var entry := [n / 0x100_0000 % 256, n / 0x1_0000 % 256, n / 0x100 % 256, n % 256] + marshaled[i];
      assert plain + (entry + Packed(frames[i + 1..])) == (plain + entry) + Packed(frames[i + 1..]);
      plain := plain + entry;
    }
    assert frames[|frames|..] == [];
  }

  method EncodeBatch(c: Suite, id: ClientID, frames: seq<Frame>, nonce: bytes) returns (r: Result<bytes, BatchError>)
    requires forall f <- frames :: f.seqNo < FrameCodec.SEQ_LIMIT
    ensures r.Ok? <==> |frames| <= MAX_FRAMES && AllWire(frames)
    ensures r.Ok? ==> r.value == Body(c, id, frames, nonce)
    ensures r == Err(TooManyFrames) <==> |frames| > MAX_FRAMES
    ensures Lawful(c) && r.Ok? ==> Contents(c, r.value) == Ok((id, frames))
  {
    if |frames| > MAX_FRAMES {
      return Err(TooManyFrames);
    }
    var marshaled := MarshalAll(frames);
    if marshaled.Err? {
      return Err(marshaled.error);
    }
    var plain := Pack(id, frames, marshaled.value);
    var sealInput := [FLAG_RAW] + plain;
    if |plain| >= COMPRESS_MIN_SIZE {
      var compressed := [FLAG_RAW] + c.zstd(plain);
      if |compressed| - 1 < |plain| {
        compressed := compressed[0 := FLAG_ZSTD];
        assert compressed == [FLAG_ZSTD] + c.zstd(plain);
        sealInput := compressed;
      }
    }
    r := Ok(Base64.Encode(c.seal(nonce, sealInput)));
    if Lawful(c) {
      Base64.NothingIsBlank();
      RoundTrip(c, id, frames, nonce, [], [], []);
      assert [] + r.value + [] + [] == r.value;
    }
  }

  lemma TwoBytes(n: nat)
    requires n < 0x1_0000
    ensures FrameCodec.BigEndian(n, 2) == [n / 256, n % 256]
  {
    assert FrameCodec.BigEndian(n, 2) == FrameCodec.BigEndian(n / 256, 1) + [n % 256];
    assert FrameCodec.BigEndian(n / 256, 1) == FrameCodec.BigEndian(0, 0) + [n / 256];
  }

  lemma SmallBigEndian(n: nat)
    requires n < 0x1_0000_0000
    ensures FrameCodec.BigEndian(n, 4) == [n / 0x100_0000 % 256, n / 0x1_0000 % 256, n / 0x100 % 256, n % 256]
  {
    var a, b, d := n / 256, n / 256 / 256, n / 256 / 256 / 256;
    assert FrameCodec.BigEndian(n, 4) == FrameCodec.BigEndian(a, 3) + [n % 256];
    assert FrameCodec.BigEndian(a, 3) == FrameCodec.BigEndian(b, 2) + [a % 256];
    assert FrameCodec.BigEndian(b, 2) == FrameCodec.BigEndian(d, 1) + [b % 256];
    assert FrameCodec.BigEndian(d, 1) == FrameCodec.BigEndian(d / 256, 0) + [d % 256];
  }

  // ----- decoding -----

  /** What is wrong with an entry that starts with no frame. */
  function Cause(entry: bytes): BatchError {
    match FrameCodec.Fault(entry)
    case Some(e) => BadFrame(e)
    case None => ShortBatch
  }

  /** The frames in a packed section: count entries from offset off, or the first fault met. Bytes after a
      frame inside its entry, and bytes after the last entry, are ignored. */
  ghost function Unpacked(plain: bytes, off: nat, count: nat): (r: Result<seq<Frame>, BatchError>)
    requires off <= |plain|
    decreases count
  {
    if count == 0 then Ok([])
    else if |plain| < off + 4 then Err(ShortBatch)
    else
      var flen := FrameCodec.Value(plain[off..off + 4]);
      if |plain| < off + 4 + flen then Err(ShortBatch)
      else
        var entry := plain[off + 4..off + 4 + flen];
        match FrameCodec.Parse(entry)
        case None => Err(Cause(entry))
        case Some(f) => Prepend([f], Unpacked(plain, off + 4 + flen, count - 1))
  }

  function Prepend(fs: seq<Frame>, tail: Result<seq<Frame>, BatchError>): Result<seq<Frame>, BatchError> {
    match tail
    case Err(e) => Err(e)
    case Ok(rest) => Ok(fs + rest)
  }

  lemma PrependTwice(fs: seq<Frame>, gs: seq<Frame>, tail: Result<seq<Frame>, BatchError>)
    ensures Prepend(fs, Prepend(gs, tail)) == Prepend(fs + gs, tail)
    ensures Prepend([], tail) == tail
  {
    if tail.Ok? {
      assert fs + (gs + tail.value) == (fs + gs) + tail.value;
      assert [] + tail.value == tail.value;
    }
  }

  function Inflated(c: Suite, clear: bytes): (r: Option<bytes>)
    requires clear != []
  {
    if clear[0] == FLAG_RAW then Some(clear[1..])
    else if clear[0] == FLAG_FLATE then c.inflate(clear[1..])
    else if clear[0] == FLAG_ZSTD then c.unzstd(clear[1..])
    else None
  }

  const NO_CLIENT: ClientID := seq(16, i => 0)

  /** What a body carries, or the first thing that is wrong with it. */
  ghost function Contents(c: Suite, body: bytes): (r: Result<(ClientID, seq<Frame>), BatchError>) {
    if body == [] then Ok((NO_CLIENT, []))
    else
      match Base64.Decode(Base64.Trim(body))
      case None => Err(BadBase64)
      case Some(sealed) =>
        match c.open(sealed)
        case None => Err(BadSeal)
        case Some(clear) => if clear == [] then Err(EmptyPlaintext) else Carried(Inflated(c, clear), clear[0])
  }

  ghost function Carried(inflated: Option<bytes>, flags: byte): (r: Result<(ClientID, seq<Frame>), BatchError>) {
    match inflated
    case None => Err(if flags in {FLAG_RAW, FLAG_FLATE, FLAG_ZSTD} then BadCompression else UnknownFlags)
    case Some(plain) =>
      if |plain| < 18 then Err(ShortBatch)
      else
        match Unpacked(plain, 18, FrameCodec.Value(plain[16..18]))
        case Err(e) => Err(e)
        case Ok(fs) => Ok((plain[..16], fs))
  }

  method DecodeBatch(c: Suite, body: bytes) returns (r: Result<(ClientID, seq<Frame>), BatchError>)
    ensures r == Contents(c, body)
  {
    if |body| == 0 {
      return Ok((NO_CLIENT, []));
    }
    var sealed := Base64.Decode(Base64.Trim(body));
    if sealed.None? {
      return Err(BadBase64);
    }
    var clear := c.open(sealed.value);
    if clear.None? {
      return Err(BadSeal);
    }
    if |clear.value| == 0 {
      return Err(EmptyPlaintext);
    }
    var flags := clear.value[0];
    if flags !in {FLAG_RAW, FLAG_FLATE, FLAG_ZSTD} {
      return Err(UnknownFlags);
    }
    var inflated := Inflated(c, clear.value);
    if inflated.None? {
      return Err(BadCompression);
    }
    var plain := inflated.value;
    if |plain| < CLIENT_ID_LEN + 2 {
      return Err(ShortBatch);
    }
    var clientID := plain[..CLIENT_ID_LEN];
    var off := CLIENT_ID_LEN;
    var count := FrameCodec.Value(plain[off..off + 2]);
    off := off + 2;
    var frames := UnpackFrames(plain, off, count);
    if frames.Err? {
      return Err(frames.error);
    }
    r := Ok((clientID, frames.value));
  }

  method UnpackFrames(plain: bytes, start: nat, count: nat) returns (r: Result<seq<Frame>, BatchError>)
    requires start <= |plain|
    ensures r == Unpacked(plain, start, count)
  {
    hide FrameCodec.Value, FrameCodec.Parse, FrameCodec.Fault, FrameCodec.Encode, FrameCodec.Wire;
    var off := start;
    var frames := [];
    ghost var all := Unpacked(plain, off, count);
    PrependTwice([], [], all);
    for i := 0 to count
      invariant 0 <= off <= |plain|
      invariant all == Prepend(frames, Unpacked(plain, off, count - i))
    {
      if |plain| < off + 4 {
        return Err(ShortBatch);
      }
      var flen := FrameCodec.Value(plain[off..off + 4]);
      if |plain| < off + 4 + flen {
        return Err(ShortBatch);
      }
      var f := FrameCodec.Unmarshal(plain[off + 4..off + 4 + flen]);
      if f.Err? {
        return Err(BadFrame(f.error));
      }
      PrependTwice(frames, [f.value.0], Unpacked(plain, off + 4 + flen, count - i - 1));
      frames := frames + [f.value.0];
      off := off + 4 + flen;
    }
    assert frames + [] == frames;
    r := Ok(frames);
  }

  // ----- what decodes -----

  /** Entries laid end to end, each behind its length. */
  function Join(entries: seq<bytes>): bytes {
    if entries == [] then [] else FrameCodec.BigEndian(|entries[0]|, 4) + entries[0] + Join(entries[1..])
  }

  /** The data starts with one entry for each frame, and each entry starts with its frame. */
  ghost predicate Holds(data: bytes, entries: seq<bytes>, fs: seq<Frame>) {
    && |entries| == |fs| && Join(entries) <= data
    && forall i :: 0 <= i < |fs| ==> |entries[i]| < 0x1_0000_0000 && FrameCodec.Parse(entries[i]) == Some(fs[i])
  }

  /** A packed section decodes to these frames if and only if it starts with as many entries as announced, each
      of which starts with its frame. */
  lemma UnpackedIff(plain: bytes, off: nat, count: nat, fs: seq<Frame>)
    requires off <= |plain|
    ensures Unpacked(plain, off, count) == Ok(fs)
            <==> |fs| == count && exists entries: seq<bytes> :: Holds(plain[off..], entries, fs)
  {
    hide Unpacked;
    if Unpacked(plain, off, count) == Ok(fs) {
      var entries := EntriesOf(plain, off, count, fs);
    } else if |fs| == count && exists entries: seq<bytes> :: Holds(plain[off..], entries, fs) {
      var entries: seq<bytes> :| Holds(plain[off..], entries, fs);
      HoldsUnpacks(plain, off, entries, fs);
    }
  }

  lemma {:induction false} EntriesOf(plain: bytes, off: nat, count: nat, fs: seq<Frame>) returns (entries: seq<bytes>)
    requires off <= |plain| && Unpacked(plain, off, count) == Ok(fs)
    ensures |fs| == count && Holds(plain[off..], entries, fs)
    decreases count
  {
    hide FrameCodec.Parse;
    entries := [];
    if count > 0 {
      var flen := FrameCodec.Value(plain[off..off + 4]);
      var next := off + 4 + flen;
      var entry := plain[off + 4..next];
      var rest := EntriesOf(plain, next, count - 1, fs[1..]);
      entries := [entry] + rest;
      FrameCodec.Powers();
      FrameCodec.BigEndianOfValue(plain[off..off + 4]);
      assert plain[off..] == FrameCodec.BigEndian(|entry|, 4) + entry + plain[next..];
      JoinFront(entry, rest, plain[next..]);
    }
  }

  lemma JoinFront(entry: bytes, rest: seq<bytes>, tail: bytes)
    requires Join(rest) <= tail
    ensures Join([entry] + rest) <= FrameCodec.BigEndian(|entry|, 4) + entry + tail
  {
    assert ([entry] + rest)[1..] == rest;
    var front := FrameCodec.BigEndian(|entry|, 4) + entry;
    assert front + tail == front + Join(rest) + tail[|Join(rest)|..];
  }

  lemma Behind(data: bytes, prefix: bytes, entry: bytes, tail: bytes) returns (rest: bytes)
    requires prefix + entry + tail <= data
    ensures data == prefix + entry + rest && tail <= rest
  {
    rest := data[|prefix| + |entry|..];
    assert data == data[..|prefix + entry|] + rest;
  }

  lemma {:induction false} HoldsUnpacks(plain: bytes, off: nat, entries: seq<bytes>, fs: seq<Frame>)
    requires off <= |plain| && Holds(plain[off..], entries, fs)
    ensures Unpacked(plain, off, |fs|) == Ok(fs)
    decreases |fs|
  {
    hide FrameCodec.Parse, FrameCodec.BigEndian, Unpacked;
    if fs == [] {
      UnpackedNone(plain, off);
    } else {
      var entry, prefix := entries[0], FrameCodec.BigEndian(|entries[0]|, 4);
      var rest := Behind(plain[off..], prefix, entry, Join(entries[1..]));
      assert plain == plain[..off] + prefix + entry + rest;
      UnpackEntry(plain, plain[..off], entry, rest, fs[0], |fs| - 1);
      EntryAt(plain, plain[..off], prefix, entry, rest);
      HoldsUnpacks(plain, off + 4 + |entry|, entries[1..], fs[1..]);
      assert fs == [fs[0]] + fs[1..];
    }
  }

  /** One of the three forms in which a plaintext may have been sealed. */
  ghost predicate Carries(c: Suite, clear: bytes, plain: bytes) {
    || clear == [FLAG_RAW] + plain
    || (exists z: bytes :: clear == [FLAG_ZSTD] + z && c.unzstd(z) == Some(plain))
    || (exists z: bytes :: clear == [FLAG_FLATE] + z && c.inflate(z) == Some(plain))
  }

  lemma Uncompressed(c: Suite, clear: bytes, plain: bytes)
    ensures Carries(c, clear, plain) <==> clear != [] && Inflated(c, clear) == Some(plain)
  {
    if clear != [] {
      var z := clear[1..];
      assert clear == [clear[0]] + z;
      if Carries(c, clear, plain) && clear != [FLAG_RAW] + plain {
        var y: bytes :| (clear == [FLAG_ZSTD] + y && c.unzstd(y) == Some(plain))
                        || (clear == [FLAG_FLATE] + y && c.inflate(y) == Some(plain));
        assert y == z;
      }
    }
  }

  /** How a body comes to carry frames: it is the text of a sealed plaintext in one of the three forms, which
      names the client and the count, and holds that many frames. */
  ghost predicate Batch(c: Suite, body: bytes, clear: bytes, plain: bytes, entries: seq<bytes>, id: ClientID,
                        fs: seq<Frame>)
  {
    && Base64.Decode(Base64.Trim(body)).Some? && c.open(Base64.Decode(Base64.Trim(body)).value) == Some(clear)
    && Carries(c, clear, plain)
    && |plain| >= 18 && plain[..16] == id && FrameCodec.Value(plain[16..18]) == |fs|
    && Holds(plain[18..], entries, fs)
  }

  /** A body decodes to a client and frames if and only if it carries them; anything cut off, any entry that
      starts with no frame, and any unknown form is an error. */
  lemma DecodesIff(c: Suite, body: bytes, id: ClientID, fs: seq<Frame>)
    requires body != []
    ensures Contents(c, body) == Ok((id, fs)) <==>
            exists clear, plain, entries :: Batch(c, body, clear, plain, entries, id, fs)
  {
    hide Unpacked, Base64.Decode, Base64.Trim, Carries, Inflated, Holds, FrameCodec.Value;
    if Contents(c, body) == Ok((id, fs)) {
      var clear := c.open(Base64.Decode(Base64.Trim(body)).value).value;
      var plain := Inflated(c, clear).value;
      Uncompressed(c, clear, plain);
      UnpackedIff(plain, 18, FrameCodec.Value(plain[16..18]), fs);
      var entries: seq<bytes> :| Holds(plain[18..], entries, fs);
      assert Batch(c, body, clear, plain, entries, id, fs);
    } else if exists clear, plain, entries :: Batch(c, body, clear, plain, entries, id, fs) {
      var clear, plain, entries :| Batch(c, body, clear, plain, entries, id, fs);
      Uncompressed(c, clear, plain);
      UnpackedIff(plain, 18, |fs|, fs);
      assert false;
    }
  }

  // ----- the round trip -----

  lemma UnpackEntry(plain: bytes, front: bytes, raw: bytes, rest: bytes, f: Frame, count: nat)
    requires |raw| < 0x1_0000_0000 && FrameCodec.Parse(raw) == Some(f)
    requires plain == front + FrameCodec.BigEndian(|raw|, 4) + raw + rest
    ensures Unpacked(plain, |front|, count + 1) == Prepend([f], Unpacked(plain, |front| + 4 + |raw|, count))
  {
    hide FrameCodec.BigEndian, FrameCodec.Value, FrameCodec.Pow256, Prepend;
    var prefix := FrameCodec.BigEndian(|raw|, 4);
    var off := |front|;
    FrameCodec.Powers();
    FrameCodec.ValueOfBigEndian(|raw|, 4);
    EntryAt(plain, front, prefix, raw, rest);
  }

  lemma EntryAt(plain: bytes, front: bytes, prefix: bytes, raw: bytes, rest: bytes)
    requires |prefix| == 4 && plain == front + prefix + raw + rest
    ensures var off := |front|;
            |plain| >= off + 4 + |raw| && plain[off..off + 4] == prefix && plain[off + 4..off + 4 + |raw|] == raw
              && plain[off + 4 + |raw|..] == rest
  {
  }

  /** The plaintext up to the first entry, the entry, and the others. */
  lemma PackedHead(front: bytes, fs: seq<Frame>) returns (prefix: bytes, raw: bytes)
    requires AllWire(fs) && fs != []
    ensures raw == FrameCodec.Encode(fs[0]) && prefix == FrameCodec.BigEndian(|raw|, 4) && |prefix| == 4
            && |raw| < 0x1_0000_0000
    ensures front + Packed(fs) == front + prefix + raw + Packed(fs[1..])
  {
    hide FrameCodec.Encode, FrameCodec.BigEndian;
    raw := FrameCodec.Encode(fs[0]);
    prefix := FrameCodec.BigEndian(|raw|, 4);
    var rest := Packed(fs[1..]);
    assert Packed(fs) == prefix + raw + rest;
    assert front + (prefix + raw + rest) == front + prefix + raw + rest;
  }

  lemma UnpackStep(plain: bytes, front: bytes, raw: bytes, rest: bytes, fs: seq<Frame>)
    requires fs != [] && |raw| < 0x1_0000_0000 && FrameCodec.Parse(raw) == Some(fs[0])
    requires plain == front + FrameCodec.BigEndian(|raw|, 4) + raw + rest
    requires Unpacked(plain, |front| + 4 + |raw|, |fs| - 1) == Ok(fs[1..])
    ensures Unpacked(plain, |front|, |fs|) == Ok(fs)
  {
    hide Unpacked, FrameCodec.Parse, FrameCodec.BigEndian;
    UnpackEntry(plain, front, raw, rest, fs[0], |fs| - 1);
    assert fs == [fs[0]] + fs[1..];
  }

  lemma {:induction false} UnpackedOfPacked(plain: bytes, front: bytes, fs: seq<Frame>)
    requires AllWire(fs) && plain == front + Packed(fs)
    ensures Unpacked(plain, |front|, |fs|) == Ok(fs)
    decreases |fs|
  {
    hide Unpacked, Packed, FrameCodec.Encode, FrameCodec.Parse, FrameCodec.Wire, FrameCodec.BigEndian;
    if fs == [] {
      UnpackedNone(plain, |front|);
    } else {
      var prefix, raw := PackedHead(front, fs);
      ParseOfEncode(fs[0]);
      var next, rest := front + prefix + raw, Packed(fs[1..]);
      assert plain == next + rest;
      assert |next| == |front| + 4 + |raw| && |fs[1..]| == |fs| - 1;
      UnpackedOfPacked(plain, next, fs[1..]);
      UnpackStep(plain, front, raw, rest, fs);
    }
  }

  lemma UnpackedNone(plain: bytes, off: nat)
    requires off <= |plain|
    ensures Unpacked(plain, off, 0) == Ok([])
  {
  }

  lemma ParseOfEncode(f: Frame)
    requires FrameCodec.Wire(f)
    ensures FrameCodec.Parse(FrameCodec.Encode(f)) == Some(f)
  {
    var d := FrameCodec.Encode(f);
    assert FrameCodec.Encode(f) <= d;
    var g: Frame :| FrameCodec.Wire(g) && FrameCodec.Encode(g) <= d && FrameCodec.Parse(d) == Some(g);
    FrameCodec.PrefixFree(f, g, d);
  }

  /** A body decodes to the client and frames it was made from, whether the plaintext was sealed raw, compressed,
      or deflated by an older peer, and whether or not a relay padded the text or put white space around it. */
  lemma AnyFormDecodes(c: Suite, id: ClientID, fs: seq<Frame>, clear: bytes, nonce: bytes, before: bytes, pad: bytes,
        after: bytes)
    requires Lawful(c) && AllWire(fs) && |fs| <= MAX_FRAMES && Carries(c, clear, Plain(id, fs))
    requires Base64.Blank(before) && Base64.Padding(pad) && Base64.Blank(after)
    ensures Contents(c, before + Base64.Encode(c.seal(nonce, clear)) + pad + after) == Ok((id, fs))
  {
    hide Base64.Encode, Base64.Decode, Base64.Trim, Unpacked, Packed;
    var plain := Plain(id, fs);
    var sealed := c.seal(nonce, clear);
    assert |sealed| == |clear| + SEAL_OVERHEAD;
    Base64.DecodeTolerant(before, sealed, pad, after);
    Base64.EncodeLength(sealed);
    assert before + Base64.Encode(sealed) + pad + after != [];
    assert Inflated(c, clear) == Some(plain) by { Uncompressed(c, clear, plain); }
    assert c.open(sealed) == Some(clear);
    PlainParts(id, fs);
    UnpackedOfPacked(plain, plain[..18], fs);
  }

  lemma PlainParts(id: ClientID, fs: seq<Frame>)
    requires AllWire(fs) && |fs| <= MAX_FRAMES
    ensures var plain := Plain(id, fs);
            |plain| >= 18 && plain[..16] == id && FrameCodec.Value(plain[16..18]) == |fs|
              && plain == plain[..18] + Packed(fs)
  {
    FrameCodec.Powers();
    FrameCodec.ValueOfBigEndian(|fs|, 2);
    var front := id + FrameCodec.BigEndian(|fs|, 2);
    assert Plain(id, fs) == front + Packed(fs);
    assert Plain(id, fs)[16..18] == FrameCodec.BigEndian(|fs|, 2);
  }

  /** What EncodeBatch sends is one of the three forms, never longer than the raw one, so it decodes. */
  lemma RoundTrip(c: Suite, id: ClientID, fs: seq<Frame>, nonce: bytes, before: bytes, pad: bytes, after: bytes)
    requires Lawful(c) && AllWire(fs) && |fs| <= MAX_FRAMES
    requires Base64.Blank(before) && Base64.Padding(pad) && Base64.Blank(after)
    ensures Contents(c, before + Body(c, id, fs, nonce) + pad + after) == Ok((id, fs))
    ensures |SealInput(c, Plain(id, fs))| <= |Plain(id, fs)| + 1
  {
    var plain := Plain(id, fs);
    assert c.unzstd(c.zstd(plain)) == Some(plain);
    assert Carries(c, SealInput(c, plain), plain);
    AnyFormDecodes(c, id, fs, SealInput(c, plain), nonce, before, pad, after);
  }

  // ----- sizes -----

  function TotalTarget(fs: seq<Frame>): nat {
    if fs == [] then 0 else |fs[0].target| + TotalTarget(fs[1..])
  }

  lemma {:induction false} PackedLength(fs: seq<Frame>)
    requires AllWire(fs)
    ensures |Packed(fs)| == |Payloads(fs)| + 34 * |fs| + TotalTarget(fs)
  {
    if fs != [] {
      PackedLength(fs[1..]);
    }
  }

  /** An uncompressed batch of n frames without targets and P payload bytes is sealed into
      P + 47 + 34n bytes, and its base64 text fits a 32 MiB cap exactly when those fit 24 MiB. */
  lemma RawBodySize(c: Suite, id: ClientID, fs: seq<Frame>, nonce: bytes)
    requires Lawful(c) && AllWire(fs) && TotalTarget(fs) == 0
    requires SealInput(c, Plain(id, fs)) == [FLAG_RAW] + Plain(id, fs)
    ensures var m := |Payloads(fs)| + 47 + 34 * |fs|;
            && |Body(c, id, fs, nonce)| == Base64.EncodedLen(m)
            && (|Body(c, id, fs, nonce)| <= 32 * 1024 * 1024 <==> m <= 24 * 1024 * 1024)
  {
    PackedLength(fs);
    Base64.EncodeLength(c.seal(nonce, SealInput(c, Plain(id, fs))));
  }
}
