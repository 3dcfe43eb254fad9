/** The plaintext frame exchanged by the two session endpoints (internal/frame/frame.go). */
module Frames {
  import opened Bytes

  const SESSION_ID_LEN := 16
  const CLIENT_ID_LEN := 16

  type SessionID = s: bytes | |s| == 16 witness seq(16, i => 0)
  type ClientID = s: bytes | |s| == 16 witness seq(16, i => 0)

  const FLAG_SYN: byte := 1
  const FLAG_FIN: byte := 2
  const FLAG_ACK: byte := 4
  const FLAG_RST: byte := 8

  datatype Frame = Frame(id: SessionID, seqNo: nat, flags: byte, target: bytes, payload: bytes) {
    predicate IsSyn() { flags % 2 == 1 }
    predicate IsFin() { flags / 2 % 2 == 1 }
    predicate IsRst() { flags / 8 % 2 == 1 }
  }

  /** A reset; it carries number 0. */
  function ResetFrame(id: SessionID, payload: bytes): Frame {
    Frame(id, 0, FLAG_RST, [], payload)
  }

  function Payloads(fs: seq<Frame>): bytes {
    if fs == [] then [] else fs[0].payload + Payloads(fs[1..])
  }

  lemma {:induction false} PayloadsAppend(a: seq<Frame>, b: seq<Frame>)
    ensures Payloads(a + b) == Payloads(a) + Payloads(b)
  {
    if a == [] {
      assert a + b == b;
    } else {
      var rest := a[1..] + b;
      assert (a + b)[1..] == rest && (a + b)[0] == a[0];
      PayloadsAppend(a[1..], b);
      assert Payloads(a + b) == a[0].payload + Payloads(rest);
    }
  }

  lemma PayloadsPrefix(fs: seq<Frame>, n: nat)
    requires n <= |fs|
    ensures Payloads(fs[..n]) <= Payloads(fs)
  {
    PayloadsAppend(fs[..n], fs[n..]);
    assert fs[..n] + fs[n..] == fs;
  }

  /** The frames of one session, in order. */
  function OfId(fs: seq<Frame>, id: SessionID): seq<Frame> {
    if fs == [] then [] else (if fs[0].id == id then [fs[0]] else []) + OfId(fs[1..], id)
  }

  lemma {:induction false} OfIdAppend(a: seq<Frame>, b: seq<Frame>, id: SessionID)
    ensures OfId(a + b, id) == OfId(a, id) + OfId(b, id)
  {
    if a == [] {
      assert a + b == b;
    } else {
      var rest := a[1..] + b;
      var head := if a[0].id == id then [a[0]] else [];
      assert (a + b)[1..] == rest && (a + b)[0] == a[0];
      OfIdAppend(a[1..], b, id);
      assert OfId(a + b, id) == head + OfId(rest, id);
    }
  }

  lemma {:induction false} OfIdAlike(fs: seq<Frame>, own: SessionID, id: SessionID)
    requires forall f <- fs :: f.id == own
    ensures OfId(fs, id) == if id == own then fs else []
  {
    if fs != [] {
      assert fs[0] in fs && fs == [fs[0]] + fs[1..];
      OfIdAlike(fs[1..], own, id);
    }
  }
}
