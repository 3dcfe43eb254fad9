/** The sending half of a session (internal/session/session.go), as a value and its transitions.
    What a drain emits is described by `Pending`, the list of every frame still owed; a drain
    capped at k frames takes a prefix of that list. */
module SessionTx {
  import opened Bytes
  import opened Frames

  const TX_BUF_HIGH_WATER := 8 * 1024 * 1024
  const SESSION_FINAL_TIMEOUT := 30_000_000_000

  /** Times are nanoseconds; 0 stands for Go's zero time. */
  datatype Tx = Tx(
    id: SessionID,
    target: bytes,
    buf: bytes,
    next: nat,
    synNeeded: bool,
    closeReq: bool,
    finSent: bool,
    finSentAt: nat,
    queuedAt: nat)

  function Fresh(id: SessionID, target: bytes, needsSyn: bool, now: nat): Tx {
    Tx(id, target, [], 0, needsSyn, false, false, 0, if needsSyn then now else 0)
  }

  predicate HasPending(t: Tx) {
    t.synNeeded || |t.buf| > 0 || (t.closeReq && !t.finSent)
  }

  // ----- writers -----

  predicate Blocked(t: Tx) {
    |t.buf| > TX_BUF_HIGH_WATER && !t.closeReq
  }

  function Stamp(t: Tx, now: nat): Tx {
    if t.queuedAt == 0 then t.(queuedAt := now) else t
  }

  function Enqueue(t: Tx, data: bytes, now: nat): Tx {
    if t.closeReq then t else Stamp(t.(buf := t.buf + data), now)
  }

  function EnqueueInitial(t: Tx, data: bytes, now: nat): Tx {
    if t.synNeeded then Stamp(t.(buf := data + t.buf), now) else Enqueue(t, data, now)
  }

  function Close(t: Tx, now: nat): Tx {
    Stamp(t.(closeReq := true), now)
  }

  // ----- the frames still owed -----

  function Chunks(b: bytes, cap: nat): (cs: seq<bytes>)
    requires cap > 0
  {
    if b == [] then []
    else if |b| <= cap then [b]
    else [b[..cap]] + Chunks(b[cap..], cap)
  }

  /** Payloads of the frames owed before any FIN; a SYN is owed even with nothing to carry. */
  function Bodies(t: Tx, cap: nat): (cs: seq<bytes>)
    requires cap > 0
  {
    if t.synNeeded && t.buf == [] then [[]] else Chunks(t.buf, cap)
  }

  function DataFrame(t: Tx, i: nat, payload: bytes): Frame {
    if t.synNeeded && i == 0
    then Frame(t.id, t.next + i, FLAG_SYN, t.target, payload)
    else Frame(t.id, t.next + i, 0, [], payload)
  }

  function FinFrame(t: Tx, i: nat): Frame {
    Frame(t.id, t.next + i, FLAG_FIN, [], [])
  }

  function Pending(t: Tx, cap: nat): (fs: seq<Frame>)
    requires cap > 0
  {
    var bs := Bodies(t, cap);
    seq(|bs|, i requires 0 <= i < |bs| => DataFrame(t, i, bs[i]))
      + if t.closeReq && !t.finSent then [FinFrame(t, |bs|)] else []
  }

  /** The state once the first m owed frames have left. */
  function Drained(t: Tx, cap: nat, m: nat, now: nat): Tx
    requires cap > 0 && m <= |Pending(t, cap)|
  {
    var bs := Bodies(t, cap);
    var fin := t.closeReq && !t.finSent && m > |bs|;
    t.(buf := Concat(bs[Min(m, |bs|)..]),
       next := t.next + m,
       synNeeded := t.synNeeded && m == 0,
       finSent := t.finSent || fin,
       finSentAt := if fin then now else t.finSentAt,
       queuedAt := if m > 0 && m == |Pending(t, cap)| then 0 else t.queuedAt)
  }

  /** The effective chunk size: a non-positive maxPayload means one chunk. */
  function ChunkCap(t: Tx, maxPayload: int): (cap: nat)
    ensures cap > 0
  {
    if maxPayload > 0 then maxPayload else if |t.buf| > 0 then |t.buf| else 1
  }

  /** How many frames one drain emits. */
  function Quota(t: Tx, cap: nat, maxFrames: int): (m: nat)
    requires cap > 0
    ensures m <= |Pending(t, cap)|
  {
    if maxFrames <= 0 then |Pending(t, cap)| else Min(maxFrames, |Pending(t, cap)|)
  }

  // ----- chunking facts -----

  lemma {:induction false} ChunksCover(b: bytes, cap: nat)
    requires cap > 0
    ensures Concat(Chunks(b, cap)) == b
    ensures forall c <- Chunks(b, cap) :: 0 < |c| <= cap
  {
    if |b| > cap {
      ChunksCover(b[cap..], cap);
      assert b == b[..cap] + b[cap..];
      assert Chunks(b, cap)[1..] == Chunks(b[cap..], cap);
    } else if b != [] {
      assert Concat([b]) == b + Concat([]);
    }
  }

  /** The first m chunks hold m times the cap, or the whole buffer. */
  lemma {:induction false} ChunksBytes(b: bytes, cap: nat, m: nat)
    requires cap > 0 && m <= |Chunks(b, cap)|
    ensures |Concat(Chunks(b, cap)[..m])| == Min(|b|, m * cap)
  {
    var cs := Chunks(b, cap);
    if m > 0 {
      assert cs[..m][0] == cs[0] && cs[..m][1..] == cs[1..][..m - 1];
      if |b| <= cap {
        assert cs == [b] && m == 1;
        assert Concat(cs[..m]) == b + Concat([]);
      } else {
        assert cs[1..] == Chunks(b[cap..], cap);
        ChunksBytes(b[cap..], cap, m - 1);
        assert m * cap == cap + (m - 1) * cap;
      }
    }
  }

  lemma QuotientUnique(x: nat, d: nat, q: int, r: int)
    requires d > 0 && 0 <= r < d && x == d * q + r
    ensures x / d == q
  {
    var k := x / d - q;
    assert x == d * (x / d) + x % d;
    assert d * k == d * (x / d) - d * q;
    assert k >= 1 ==> d * k >= d;
    assert k <= -1 ==> d * k + d <= 0;
  }

  lemma DivideByItself(n: nat, d: nat)
    requires d > 0
    ensures (n + d) / d == n / d + 1
  {
    var q, r := n / d, n % d;
    assert n == d * q + r;
    assert d * (q + 1) == d * q + d;
    QuotientUnique(n + d, d, q + 1, r);
  }

  /** The frame count is the ceiling of the buffer size over the chunk size. */
  lemma {:induction false} ChunksCount(b: bytes, cap: nat)
    requires cap > 0
    ensures |Chunks(b, cap)| == (|b| + cap - 1) / cap
  {
    if |b| > cap {
      ChunksCount(b[cap..], cap);
      DivideByItself(|b| - 1, cap);
    } else if b != [] {
      DivideByItself(|b| - 1, cap);
      assert (|b| - 1) / cap == 0;
    }
  }

  /** Dropping the first m chunks and chunking what is left gives the other chunks. */
  lemma {:induction false} ChunksSuffix(b: bytes, cap: nat, m: nat)
    requires cap > 0 && m <= |Chunks(b, cap)|
    ensures Chunks(Concat(Chunks(b, cap)[m..]), cap) == Chunks(b, cap)[m..]
  {
    var cs := Chunks(b, cap);
    if m == 0 {
      ChunksCover(b, cap);
      assert cs[0..] == cs;
    } else if |b| <= cap {
      assert cs[m..] == [];
    } else {
      ChunksSuffix(b[cap..], cap, m - 1);
      assert cs[m..] == Chunks(b[cap..], cap)[m - 1..];
    }
  }

  /** The next chunk is what `txBuf[:n]` holds, and `txBuf[n:]` holds the rest. */
  lemma ChunkAt(b: bytes, cap: nat, j: nat)
    requires cap > 0 && j <= |Chunks(b, cap)|
    ensures var rest := Concat(Chunks(b, cap)[j..]);
            (rest == [] <==> j == |Chunks(b, cap)|)
            && (rest != [] ==> var n := Min(|rest|, cap);
                               rest[..n] == Chunks(b, cap)[j] && rest[n..] == Concat(Chunks(b, cap)[j + 1..]))
  {
    var cs := Chunks(b, cap);
    var rest := Concat(cs[j..]);
    ChunksSuffix(b, cap, j);
    if j < |cs| {
      ChunksCover(b, cap);
      assert cs[j] in cs;
      assert rest == cs[j] + Concat(cs[j..][1..]);
      assert cs[j..][1..] == cs[j + 1..];
      if |rest| > cap {
        assert Chunks(rest, cap)[0] == rest[..cap];
      } else {
        assert Chunks(rest, cap) == [rest];
      }
    }
  }

  // ----- limited drains refine unlimited ones -----

  lemma BodiesCover(t: Tx, cap: nat)
    requires cap > 0
    ensures Concat(Bodies(t, cap)) == t.buf
    ensures forall c <- Bodies(t, cap) :: |c| <= cap
  {
    ChunksCover(t.buf, cap);
    if t.synNeeded && t.buf == [] {
      assert Concat([[]]) == [] + Concat([]);
    }
  }

  lemma BodiesSuffix(t: Tx, cap: nat, m: nat, now: nat)
    requires cap > 0 && m <= |Pending(t, cap)|
    ensures var k := Min(m, |Bodies(t, cap)|);
            Bodies(Drained(t, cap, m, now), cap) == Bodies(t, cap)[k..]
  {
    var bs := Bodies(t, cap);
    var k := Min(m, |bs|);
    if t.synNeeded && t.buf == [] {
      if m == 0 {
        assert bs[0..] == [[]];
        assert Concat([[]]) == [] + Concat([]);
      } else {
        assert bs[k..] == [];
      }
    } else {
      ChunksSuffix(t.buf, cap, k);
      if m == 0 { BodiesCover(t, cap); assert bs[0..] == bs; }
    }
  }

  /** What is still owed after a partial drain is exactly the rest of what was owed before it. */
  lemma PendingAfterDrain(t: Tx, cap: nat, m: nat, now: nat)
    requires cap > 0 && m <= |Pending(t, cap)|
    ensures Pending(Drained(t, cap, m, now), cap) == Pending(t, cap)[m..]
  {
    BodiesSuffix(t, cap, m, now);
  }

  /** The remaining frame count N: ceiling division, the SYN riding on the first chunk, plus a FIN. */
  lemma PendingCount(t: Tx, cap: nat)
    requires cap > 0
    ensures |Pending(t, cap)|
         == (if t.synNeeded && t.buf == [] then 1 else (|t.buf| + cap - 1) / cap)
          + (if t.closeReq && !t.finSent then 1 else 0)
    ensures Pending(t, cap) != [] <==> HasPending(t)
  {
    ChunksCount(t.buf, cap);
  }

  lemma DrainTwiceState(t: Tx, cap: nat, a: nat, b: nat, now: nat)
    requires cap > 0 && a + b <= |Pending(t, cap)| && b > 0
    ensures var t1 := Drained(t, cap, a, now);
            b <= |Pending(t1, cap)| && Drained(t1, cap, b, now) == Drained(t, cap, a + b, now)
  {
    PendingAfterDrain(t, cap, a, now);
    BodiesSuffix(t, cap, a, now);
    var bs := Bodies(t, cap);
    var k := Min(a, |bs|);
    assert bs[k..][Min(b, |bs| - k)..] == bs[Min(a + b, |bs|)..];
  }

  /** Draining a frames and then b gives the frames, and the state, of draining a + b at once. */
  lemma DrainTwice(t: Tx, cap: nat, a: nat, b: nat, now: nat)
    requires cap > 0 && a + b <= |Pending(t, cap)|
    ensures var t1 := Drained(t, cap, a, now);
            && |Pending(t1, cap)| == |Pending(t, cap)| - a
            && Pending(t, cap)[..a] + Pending(t1, cap)[..b] == Pending(t, cap)[..a + b]
            && (b > 0 ==> Drained(t1, cap, b, now) == Drained(t, cap, a + b, now))
  {
    hide Drained, Pending;
    PendingAfterDrain(t, cap, a, now);
    if b > 0 {
      DrainTwiceState(t, cap, a, b, now);
    }
  }

  /** A session keeps its place in the queue until it is drained completely: neither a partial drain nor
      any write or close moves the time it queued at. */
  lemma QueueTimeStays(t: Tx, cap: nat, m: nat, data: bytes, now: nat)
    requires cap > 0 && m <= |Pending(t, cap)| && t.queuedAt != 0
    ensures Drained(t, cap, m, now).queuedAt == t.queuedAt <==> m == 0 || m < |Pending(t, cap)|
    ensures Enqueue(t, data, now).queuedAt == EnqueueInitial(t, data, now).queuedAt == Close(t, now).queuedAt
            == t.queuedAt
  {
  }
}
