/** Where the byte budget of a response (internal/exit/exit.go) fails to keep it under the client's cap
    (internal/carrier/client.go). */
module ExitLimits {
  import opened Bytes
  import opened Frames
  import opened Drains
  import opened ExitDrain
  import opened ExitRounds
  import FrameCodec
  import Base64
  import Batch = BatchCodec
  import Tx = SessionTx
  import Runs = SessionRuns

  const RESPONSE_CAP := 32 * 1024 * 1024

  /** A session past its SYN with this many bytes buffered gives them, up to a whole drain, in at most
      eight frames. */
  lemma DrainBytes(t: Tx.Tx, m: nat)
    requires !t.synNeeded && m <= |Tx.Chunks(t.buf, MAX_FRAME_PAYLOAD)|
    ensures m <= |Tx.Pending(t, MAX_FRAME_PAYLOAD)|
    ensures |Payloads(Tx.Pending(t, MAX_FRAME_PAYLOAD)[..m])| == Min(|t.buf|, m * MAX_FRAME_PAYLOAD)
  {
    Runs.PendingPayloads(t, MAX_FRAME_PAYLOAD, m);
    Tx.ChunksBytes(t.buf, MAX_FRAME_PAYLOAD, m);
  }

  /** Its next drain is eight frames with this many bytes. */
  ghost predicate Gives(owed: seq<Frame>, n: nat) {
    |owed| >= 8 && |Payloads(owed[..8])| == n
  }

  lemma BufferGives(t: Tx.Tx)
    requires !t.synNeeded && |t.buf| > 7 * MAX_FRAME_PAYLOAD
    ensures Gives(Tx.Pending(t, MAX_FRAME_PAYLOAD), Min(|t.buf|, OVERSHOOT))
  {
    Tx.ChunksCount(t.buf, MAX_FRAME_PAYLOAD);
    assert (|t.buf| + MAX_FRAME_PAYLOAD - 1) / MAX_FRAME_PAYLOAD >= 8;
    DrainBytes(t, 8);
  }

  /** The first n sessions listed use up eight slots and a whole drain each, and then the budget is gone. */
  lemma {:induction false} ServeBulk<K>(owed: Owed<K>, refs: seq<K>, n: nat, remaining: int, budget: int)
    requires Distinct(refs) && n <= |refs| && (forall id <- refs :: id in owed)
    requires forall i :: 0 <= i < n ==> Gives(owed[refs[i]], OVERSHOOT)
    requires remaining >= 8 * n && (n - 1) * OVERSHOOT < budget <= n * OVERSHOOT
    ensures var r := Serve(owed, refs, remaining, budget);
            |r.frames| == 8 * n && r.budget == budget - n * OVERSHOOT
    decreases n
  {
    if n > 0 {
      var id := refs[0];
      assert Gives(owed[refs[0]], OVERSHOOT);
      assert Share(owed[id], remaining) == 8;
      var owed' := owed[id := owed[id][8..]];
      forall i | 0 <= i < n - 1 ensures Gives(owed'[refs[1..][i]], OVERSHOOT) { assert refs[1..][i] == refs[i + 1]; }
      ServeBulk(owed', refs[1..], n - 1, remaining - 8, budget - OVERSHOOT);
    }
  }

  /** Twelve sessions with two mebibytes each, but for one byte of the oldest. */
  ghost predicate Bulk<K>(txs: Senders<K>, refs: seq<K>) {
    && |refs| >= 12 && Distinct(refs) && (forall id <- refs :: id in txs && !txs[id].synNeeded)
    && |txs[refs[0]].buf| == OVERSHOOT - 1
    && forall i :: 0 < i < 12 ==> |txs[refs[i]].buf| >= OVERSHOOT
  }

  /** They make a response of 24 MiB - 1 payload bytes, with budget left before the last of them. */
  lemma BudgetOverflows<K>(txs: Senders<K>, refs: seq<K>, sessionCount: nat)
    requires Bulk(txs, refs) && sessionCount >= BUSY_SESSION_THRESHOLD
    ensures var r := Serve(OwedIn(txs), refs, BatchCap(sessionCount), MAX_RESPONSE_BYTES);
            |Payloads(r.frames)| == 24 * 1024 * 1024 - 1 && |r.frames| == 96
  {
    var owed := OwedIn(txs);
    var id := refs[0];
    BufferGives(txs[id]);
    assert Share(owed[id], 144) == 8;
    var owed' := owed[id := owed[id][8..]];
    forall i | 0 <= i < 11 ensures Gives(owed'[refs[1..][i]], OVERSHOOT) {
      assert refs[1..][i] == refs[i + 1];
      BufferGives(txs[refs[i + 1]]);
    }
    ServeBulk(owed', refs[1..], 11, 136, MAX_RESPONSE_BYTES - OVERSHOOT + 1);
    ServeCounts(owed, refs, BatchCap(sessionCount), MAX_RESPONSE_BYTES);
  }

  lemma {:induction false} NoTargets(fs: seq<Frame>)
    requires forall f <- fs :: f.target == []
    ensures Batch.TotalTarget(fs) == 0
  {
    if fs != [] {
      assert fs[0] in fs;
      NoTargets(fs[1..]);
    }
  }

  lemma PendingPlain(t: Tx.Tx)
    requires !t.synNeeded && t.next + |t.buf| + 1 <= FrameCodec.SEQ_LIMIT
    ensures forall f <- Tx.Pending(t, MAX_FRAME_PAYLOAD) :: f.target == [] && FrameCodec.Wire(f)
  {
    Runs.PendingPayloadCap(t, MAX_FRAME_PAYLOAD);
    Tx.ChunksCount(t.buf, MAX_FRAME_PAYLOAD);
    assert |Tx.Chunks(t.buf, MAX_FRAME_PAYLOAD)| <= |t.buf|;
  }

  lemma BodyTooLong(suite: Batch.Suite, owner: ClientID, fs: seq<Frame>, nonce: bytes)
    requires Batch.Lawful(suite) && |fs| == 96 && |Payloads(fs)| == 24 * 1024 * 1024 - 1
    requires forall f <- fs :: f.target == [] && FrameCodec.Wire(f)
    requires Batch.SealInput(suite, Batch.Plain(owner, fs)) == [Batch.FLAG_RAW] + Batch.Plain(owner, fs)
    ensures |Batch.Body(suite, owner, fs, nonce)| > RESPONSE_CAP
  {
    NoTargets(fs);
    Batch.RawBodySize(suite, owner, fs, nonce);
  }

  /** The response that such sessions of one client make, among 24 or more, stays under its budget check at
      every step, and the client drops it once it is encoded, if compression does not shorten it. */
  lemma ResponseOverflows<K>(txs: Senders<K>, refs: seq<K>, sessionCount: nat, owner: ClientID, suite: Batch.Suite,
                             nonce: bytes)
    requires Bulk(txs, refs) && sessionCount >= BUSY_SESSION_THRESHOLD && Batch.Lawful(suite)
    requires forall id <- refs :: txs[id].next + |txs[id].buf| + 1 <= FrameCodec.SEQ_LIMIT
    ensures var fs := Serve(OwedIn(txs), refs, BatchCap(sessionCount), MAX_RESPONSE_BYTES).frames;
            && Batch.AllWire(fs) && |fs| <= Batch.MAX_FRAMES
            && var plain := Batch.Plain(owner, fs);
               |suite.zstd(plain)| >= |plain| ==> |Batch.Body(suite, owner, fs, nonce)| > RESPONSE_CAP
  {
    hide Serve, Tx.Pending, FrameCodec.Wire, Batch.Body, Batch.Lawful;
    var fs := Serve(OwedIn(txs), refs, BatchCap(sessionCount), MAX_RESPONSE_BYTES).frames;
    BudgetOverflows(txs, refs, sessionCount);
    forall f <- fs ensures f.target == [] && FrameCodec.Wire(f) {
      ServeFrom(OwedIn(txs), refs, BatchCap(sessionCount), MAX_RESPONSE_BYTES, f);
      var id :| id in refs && f in OwedIn(txs)[id];
      PendingPlain(txs[id]);
    }
    var plain := Batch.Plain(owner, fs);
    if |suite.zstd(plain)| >= |plain| {
      BodyTooLong(suite, owner, fs, nonce);
    }
  }
}
