/** The wire format of one frame (internal/frame/frame.go). */
module FrameCodec {
  import opened Bytes
  import opened Frames

  const HEADER_LEN := 30
  const MAX_TARGET_LEN := 255
  const MAX_PAYLOAD_SIZE := 10 * 1024 * 1024
  const SEQ_LIMIT := 0x1_0000_0000_0000_0000

  datatype CodecError =
    | TargetTooLong | PayloadTooLarge                 // Marshal
    | ShortHeader | ShortTarget | OversizePayload | ShortPayload  // Unmarshal

  // ----- big-endian integers -----

  function Pow256(k: nat): (p: nat)
    ensures p > 0
  {
    if k == 0 then 1 else 256 * Pow256(k - 1)
  }

  function BigEndian(n: nat, k: nat): (s: bytes)
    ensures |s| == k
  {
    if k == 0 then [] else BigEndian(n / 256, k - 1) + [n % 256]
  }

  function Value(s: bytes): nat {
    if s == [] then 0 else 256 * Value(s[..|s| - 1]) + s[|s| - 1]
  }

  lemma {:induction false} ValueOfBigEndian(n: nat, k: nat)
    requires n < Pow256(k)
    ensures Value(BigEndian(n, k)) == n
  {
    if k > 0 {
      ValueOfBigEndian(n / 256, k - 1);
      assert BigEndian(n, k)[..k - 1] == BigEndian(n / 256, k - 1);
    }
  }

  lemma {:induction false} BigEndianOfValue(s: bytes)
    ensures Value(s) < Pow256(|s|) && BigEndian(Value(s), |s|) == s
  {
    if s != [] {
      var front := s[..|s| - 1];
      BigEndianOfValue(front);
      assert Value(s) / 256 == Value(front) && Value(s) % 256 == s[|s| - 1];
      assert s == front + [s[|s| - 1]];
    }
  }

  lemma Powers()
    ensures Pow256(2) == 0x1_0000 && Pow256(4) == 0x1_0000_0000 && Pow256(8) == SEQ_LIMIT
  {
    assert Pow256(1) == 256 && Pow256(3) == 0x100_0000 && Pow256(5) == 0x100_0000_0000;
    assert Pow256(6) == 0x1_0000_0000_0000 && Pow256(7) == 0x100_0000_0000_0000;
  }

  // ----- frames -----

  predicate Wire(f: Frame) {
    |f.target| <= MAX_TARGET_LEN && |f.payload| <= MAX_PAYLOAD_SIZE && f.seqNo < SEQ_LIMIT
  }

  function Encode(f: Frame): (s: bytes)
    requires |f.target| <= MAX_TARGET_LEN
    ensures |s| == HEADER_LEN + |f.target| + |f.payload|
  {
    f.id + BigEndian(f.seqNo, 8) + [f.flags] + [|f.target|] + f.target + BigEndian(|f.payload|, 4) + f.payload
  }

  /** What an encoding at the front of d fixes about d. */
  lemma Fields(f: Frame, d: bytes)
    requires Wire(f) && Encode(f) <= d
    ensures var t, p := |f.target|, |f.payload|;
            && |d| >= HEADER_LEN + t + p && d[25] == t && Value(d[26 + t..30 + t]) == p
            && f == Frame(d[..16], Value(d[16..24]), d[24], d[26..26 + t], d[30 + t..30 + t + p])
  {
    var e, t, p := Encode(f), |f.target|, |f.payload|;
    Powers();
    ValueOfBigEndian(f.seqNo, 8);
    ValueOfBigEndian(p, 4);
    assert e == d[..|e|];
    assert d[..16] == f.id;
    assert d[16..24] == BigEndian(f.seqNo, 8);
    assert d[26..26 + t] == f.target;
    assert d[26 + t..30 + t] == BigEndian(p, 4);
    assert d[30 + t..30 + t + p] == f.payload;
  }

  /** The fields read from d encode back to the front of d. */
  lemma Assemble(d: bytes, t: nat, p: nat)
    requires |d| >= HEADER_LEN + t + p && d[25] == t && Value(d[26 + t..30 + t]) == p <= MAX_PAYLOAD_SIZE
    ensures var f := Frame(d[..16], Value(d[16..24]), d[24], d[26..26 + t], d[30 + t..30 + t + p]);
            Wire(f) && Encode(f) == d[..HEADER_LEN + t + p]
  {
    Powers();
    BigEndianOfValue(d[16..24]);
    BigEndianOfValue(d[26 + t..30 + t]);
  }

  /** Encodings are prefix-free: at most one frame starts at the front of any data. */
  lemma PrefixFree(f: Frame, g: Frame, d: bytes)
    requires Wire(f) && Wire(g) && Encode(f) <= d && Encode(g) <= d
    ensures f == g
  {
    Fields(f, d);
    Fields(g, d);
  }

  /** The frame at the front of d, if there is one. */
  ghost function Parse(d: bytes): (r: Option<Frame>)
  {
    if f: Frame :| Wire(f) && Encode(f) <= d then Some(f) else None
  }

  // ----- Marshal and Unmarshal -----

  method PutBigEndian(out: array<byte>, off: nat, n: nat, k: nat)
    requires off + k <= out.Length
    modifies out
    ensures out[..] == old(out[..off]) + BigEndian(n, k) + old(out[off + k..])
  {
    var i, rest := k, n;
    while i > 0
      invariant 0 <= i <= k
      invariant BigEndian(n, k) == BigEndian(rest, i) + out[off + i..off + k]
      invariant out[..off + i] == old(out[..off + i]) && out[off + k..] == old(out[off + k..])
    {
      i := i - 1;
      out[off + i] := rest % 256;
      rest := rest / 256;
    }
    assert out[..] == out[..off] + out[off..off + k] + out[off + k..];
  }

  method Copy(out: array<byte>, off: nat, src: bytes)
    requires off + |src| <= out.Length
    modifies out
    ensures out[..] == old(out[..off]) + src + old(out[off + |src|..])
  {
    for i := 0 to |src|
      invariant out[..] == old(out[..off]) + src[..i] + old(out[off + i..])
    {
      out[off + i] := src[i];
    }
  }

  method Marshal(f: Frame) returns (r: Result<bytes, CodecError>)
    requires f.seqNo < SEQ_LIMIT
    ensures r == if |f.target| > MAX_TARGET_LEN then Err(TargetTooLong)
                 else if |f.payload| > MAX_PAYLOAD_SIZE then Err(PayloadTooLarge)
                 else Ok(Encode(f))
    ensures r.Ok? ==> Parse(r.value) == Some(f)
  {
    if |f.target| > MAX_TARGET_LEN {
      return Err(TargetTooLong);
    }
    if |f.payload| > MAX_PAYLOAD_SIZE {
      return Err(PayloadTooLarge);
    }
    var out := new byte[SESSION_ID_LEN + 8 + 1 + 1 + |f.target| + 4 + |f.payload|](_ => 0);
    var off := 0;
    Copy(out, off, f.id);
    off := off + SESSION_ID_LEN;
    PutBigEndian(out, off, f.seqNo, 8);
    off := off + 8;
    out[off] := f.flags;
    off := off + 1;
    out[off] := |f.target|;
    off := off + 1;
    assert out[..off] == f.id + BigEndian(f.seqNo, 8) + [f.flags] + [|f.target|];
    Copy(out, off, f.target);
    off := off + |f.target|;
    PutBigEndian(out, off, |f.payload|, 4);
    off := off + 4;
    Copy(out, off, f.payload);
    assert out[..] == Encode(f);
    assert Encode(f) <= out[..];
    forall g: Frame | Wire(g) && Encode(g) <= out[..] ensures g == f {
      PrefixFree(f, g, out[..]);
    }
    r := Ok(out[..]);
  }

  /** Succeeds exactly when the data starts with an encoding, and then returns that frame and its length. */
  method Unmarshal(data: bytes) returns (r: Result<(Frame, nat), CodecError>)
    ensures r.Ok? ==> var (f, n) := r.value; Wire(f) && n <= |data| && Encode(f) == data[..n] && Parse(data) == Some(f)
    ensures r.Err? ==> Parse(data) == None
    ensures r.Ok? <==> Fault(data) == None
    ensures r.Err? ==> Fault(data) == Some(r.error)
  {
    if |data| < SESSION_ID_LEN + 8 + 1 + 1 + 4 {
      NoFrame(data);
      return Err(ShortHeader);
    }
    var off := 0;
    var id := data[off..off + SESSION_ID_LEN];
    off := off + SESSION_ID_LEN;
    var seqNo := Value(data[off..off + 8]);
    off := off + 8;
    var flags := data[off];
    off := off + 1;
    var tlen := data[off];
    off := off + 1;
    if |data| < off + tlen + 4 {
      NoFrame(data);
      return Err(ShortTarget);
    }
    var target := data[off..off + tlen];
    off := off + tlen;
    var plen := Value(data[off..off + 4]);
    off := off + 4;
    if plen > MAX_PAYLOAD_SIZE {
      NoFrame(data);
      return Err(OversizePayload);
    }
    if |data| < off + plen {
      NoFrame(data);
      return Err(ShortPayload);
    }
    var payload := data[off..off + plen];
    off := off + plen;
    var f := Frame(id, seqNo, flags, target, payload);
    OneFrame(data, f, off);
    r := Ok((f, off));
  }

  /** Why no frame starts at the front of d. */
  function Fault(d: bytes): Option<CodecError> {
    if |d| < HEADER_LEN then Some(ShortHeader)
    else if |d| < HEADER_LEN + d[25] then Some(ShortTarget)
    else
      var plen := Value(d[26 + d[25]..30 + d[25]]);
      if plen > MAX_PAYLOAD_SIZE then Some(OversizePayload)
      else if |d| < HEADER_LEN + d[25] + plen then Some(ShortPayload)
      else None
  }

  lemma OneFrame(d: bytes, f: Frame, n: nat)
    requires Fault(d) == None
    requires var t := d[25];
             var p := Value(d[26 + t..30 + t]);
             n == HEADER_LEN + t + p
               && f == Frame(d[..16], Value(d[16..24]), d[24], d[26..26 + t], d[30 + t..30 + t + p])
    ensures Wire(f) && n <= |d| && Encode(f) == d[..n] && Parse(d) == Some(f)
  {
    var t := d[25];
    Assemble(d, t, Value(d[26 + t..30 + t]));
    assert Encode(f) <= d;
    var g: Frame :| Wire(g) && Encode(g) <= d && Parse(d) == Some(g);
    PrefixFree(f, g, d);
  }

  lemma NoFrame(d: bytes)
    requires Fault(d).Some?
    ensures Parse(d) == None
  {
    if f: Frame :| Wire(f) && Encode(f) <= d {
      Fields(f, d);
      assert false;
    }
  }
}
