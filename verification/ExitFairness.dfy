/** What the drain order of the server (internal/exit/exit.go, drainAll) means for one session over many
    responses. K stands for session identifiers; a round starts from the sending halves of the client's
    sessions and a queue by age, and between rounds writers add what they like. */
module ExitFairness {
  import opened Bytes
  import opened Frames
  import opened Drains
  import opened ExitDrain
  import opened ExitRounds
  import Tx = SessionTx
  import Runs = SessionRuns

  /** refs lists the client's ready sessions, oldest queue first; a session that owes something is ready. */
  ghost predicate ByAge<K>(txs: Senders<K>, refs: seq<K>) {
    && Distinct(refs) && (forall id <- refs :: id in txs)
    && (forall id <- txs :: Tx.HasPending(txs[id]) ==> id in refs)
    && (forall i, j :: 0 <= i < j < |refs| ==>
         refs[i] in txs && refs[j] in txs && txs[refs[i]].queuedAt <= txs[refs[j]].queuedAt)
  }

  /** Whatever writers did to a session since. */
  ghost predicate Written(t: Tx.Tx, t': Tx.Tx) {
    exists es: seq<Runs.TxEvent> :: (forall e <- es :: !e.Drain?) && t' == Runs.Run(Runs.Sender(t, [], []), es).tx
  }

  /** A response, and then writes; sessions may come, and others go. */
  ghost predicate Passes<K>(txs: Senders<K>, mid: Senders<K>, txs': Senders<K>, refs: seq<K>, slots: int, budget: int,
        now: nat) {
    && Answered(txs, mid, refs, slots, budget, now)
    && forall id <- mid :: id in txs' ==> Written(mid[id], txs'[id])
  }

  ghost predicate Serves<K>(txs: Senders<K>, refs: seq<K>, slots: int, budget: int, id: K) {
    (forall r <- refs :: r in txs) && id in txs && id in Serve(OwedIn(txs), refs, slots, budget).owed
    && Serve(OwedIn(txs), refs, slots, budget).owed[id] != OwedIn(txs)[id]
  }

  // ----- one round -----

  lemma {:induction false} WritesKeep(s: Runs.Sender, es: seq<Runs.TxEvent>)
    requires forall e <- es :: !e.Drain?
    requires s.tx.queuedAt != 0 && Tx.HasPending(s.tx)
    ensures Runs.Run(s, es).tx.queuedAt == s.tx.queuedAt && Tx.HasPending(Runs.Run(s, es).tx)
    decreases |es|
  {
    if es != [] {
      assert es[0] in es;
      WritesKeep(Runs.Next(s, es[0]), es[1..]);
    }
  }

  /** Writes move neither the place in the queue of a session that owes something, nor the fact that it does. */
  lemma WrittenKeeps(t: Tx.Tx, t': Tx.Tx)
    requires Written(t, t') && t.queuedAt != 0 && Tx.HasPending(t)
    ensures t'.queuedAt == t.queuedAt && Tx.HasPending(t')
  {
    var es: seq<Runs.TxEvent> :| (forall e <- es :: !e.Drain?) && t' == Runs.Run(Runs.Sender(t, [], []), es).tx;
    WritesKeep(Runs.Sender(t, [], []), es);
  }

  /** A session keeps its place through a response that does not drain it completely. */
  lemma PlaceKept<K>(txs: Senders<K>, txs': Senders<K>, refs: seq<K>, slots: int, budget: int, now: nat, id: K)
    requires Answered(txs, txs', refs, slots, budget, now) && Distinct(refs)
    requires id in txs && txs[id].queuedAt != 0 && Tx.HasPending(txs[id])
    requires |Tx.Pending(txs[id], MAX_FRAME_PAYLOAD)| > MAX_DRAIN_FRAMES_PER_SESSION
             || !Serves(txs, refs, slots, budget, id)
    ensures id in txs' && txs'[id].queuedAt == txs[id].queuedAt && Tx.HasPending(txs'[id])
  {
    var t := txs[id];
    var owed := OwedIn(txs);
    ServeShare(owed, refs, slots, budget, id);
    var m := |owed[id]| - |Serve(owed, refs, slots, budget).owed[id]|;
    Tx.QueueTimeStays(t, MAX_FRAME_PAYLOAD, m, [], now);
    Tx.PendingAfterDrain(t, MAX_FRAME_PAYLOAD, m, now);
    Tx.PendingCount(t, MAX_FRAME_PAYLOAD);
    Tx.PendingCount(Tx.Drained(t, MAX_FRAME_PAYLOAD, m, now), MAX_FRAME_PAYLOAD);
  }

  /** Sessions that owe eight frames or more take eight slots each. */
  lemma {:induction false} EldersFill<K>(owed: Owed<K>, refs: seq<K>, j: nat, elders: set<K>)
    requires Distinct(refs) && (forall id <- refs :: id in owed) && j <= |refs|
    requires forall e <- elders :: e in refs[..j] && |owed[e]| >= MAX_DRAIN_FRAMES_PER_SESSION
    ensures 8 * |elders| <= AheadFrames(owed, refs, j)
    decreases j
  {
    if j == 0 {
      assert elders == {};
    } else {
      var rest := elders - {refs[0]};
      forall e <- rest ensures e in refs[1..][..j - 1] {
        var i :| 0 <= i < j && refs[i] == e;
        assert refs[1..][i - 1] == e;
      }
      EldersFill(owed, refs[1..], j - 1, rest);
      if refs[0] in elders {
        assert |elders| == |rest| + 1;
      } else {
        assert elders == rest;
      }
    }
  }

  // ----- starving -----

  /** Some sessions that queued before `young` fill every batch of this size. */
  ghost predicate Blocked<K>(txs: Senders<K>, elders: set<K>, young: K, slots: int) {
    && young in txs && Tx.HasPending(txs[young]) && txs[young].queuedAt > 0 && slots <= 8 * |elders|
    && forall e <- elders :: e in txs && 0 < txs[e].queuedAt < txs[young].queuedAt
         && |Tx.Pending(txs[e], MAX_FRAME_PAYLOAD)| > MAX_DRAIN_FRAMES_PER_SESSION
  }

  lemma BlockedRound<K>(txs: Senders<K>, refs: seq<K>, slots: int, budget: int, elders: set<K>, young: K)
    requires ByAge(txs, refs) && Blocked(txs, elders, young, slots)
    ensures !Serves(txs, refs, slots, budget, young)
  {
    var owed := OwedIn(txs);
    Tx.PendingCount(txs[young], MAX_FRAME_PAYLOAD);
    var j :| 0 <= j < |refs| && refs[j] == young;
    forall e <- elders ensures e in refs[..j] {
      Tx.PendingCount(txs[e], MAX_FRAME_PAYLOAD);
      var i :| 0 <= i < |refs| && refs[i] == e;
      assert i < j;
    }
    EldersFill(owed, refs, j, elders);
    ServedIff(owed, refs, slots, budget, j);
  }

  lemma PlaceKeptNext<K>(txs: Senders<K>, mid: Senders<K>, txs': Senders<K>, refs: seq<K>, slots: int, budget: int,
        now: nat, id: K)
    requires Passes(txs, mid, txs', refs, slots, budget, now) && Distinct(refs)
    requires id in txs && txs[id].queuedAt != 0 && Tx.HasPending(txs[id]) && id in txs'
    requires |Tx.Pending(txs[id], MAX_FRAME_PAYLOAD)| > MAX_DRAIN_FRAMES_PER_SESSION
             || !Serves(txs, refs, slots, budget, id)
    ensures txs'[id].queuedAt == txs[id].queuedAt && Tx.HasPending(txs'[id])
  {
    hide Tx.HasPending, Tx.Pending, Serves, Written;
    PlaceKept(txs, mid, refs, slots, budget, now, id);
    WrittenKeeps(mid[id], txs'[id]);
  }

  /** What elders and young keep from one round to the next. */
  lemma BlockedNext<K>(txs: Senders<K>, mid: Senders<K>, txs': Senders<K>, refs: seq<K>, slots: int, budget: int,
        now: nat, elders: set<K>, young: K)
    requires ByAge(txs, refs) && Blocked(txs, elders, young, slots) && Passes(txs, mid, txs', refs, slots, budget, now)
    requires young in txs' && forall e <- elders :: e in txs'
    ensures txs'[young].queuedAt == txs[young].queuedAt && Tx.HasPending(txs'[young])
    ensures forall e <- elders :: txs'[e].queuedAt == txs[e].queuedAt
  {
    hide Tx.HasPending, Tx.Pending, Serves, Passes;
    BlockedRound(txs, refs, slots, budget, elders, young);
    PlaceKeptNext(txs, mid, txs', refs, slots, budget, now, young);
    forall e <- elders ensures txs'[e].queuedAt == txs[e].queuedAt {
      Tx.PendingCount(txs[e], MAX_FRAME_PAYLOAD);
      PlaceKeptNext(txs, mid, txs', refs, slots, budget, now, e);
    }
  }

  /** What happened from round to round. */
  datatype Response<!K> = Response(txs: Senders<K>, refs: seq<K>, slots: int, budget: int, mid: Senders<K>, now: nat)

  ghost predicate History<K>(rs: seq<Response<K>>) {
    && (forall k :: 0 <= k < |rs| ==> ByAge(rs[k].txs, rs[k].refs))
    && (forall k :: 0 <= k < |rs| - 1 ==>
         Passes(rs[k].txs, rs[k].mid, rs[k + 1].txs, rs[k].refs, rs[k].slots, rs[k].budget, rs[k].now))
  }

  /** The elders are busy in round r: refilled to more than one drain each, and enough to fill its slots. */
  ghost predicate Busy<K>(r: Response<K>, elders: set<K>, young: K) {
    && young in r.txs && r.slots <= 8 * |elders|
    && forall e <- elders :: e in r.txs && |Tx.Pending(r.txs[e], MAX_FRAME_PAYLOAD)| > MAX_DRAIN_FRAMES_PER_SESSION
  }

  /** Age order alone starves: sessions that queued before another one, and that their writers keep refilling
      to more than one drain, stay ahead of it in every queue, and it is never served. */
  lemma {:induction false} Starves<K>(rs: seq<Response<K>>, elders: set<K>, young: K, n: nat)
    requires History(rs) && n < |rs| && forall k :: 0 <= k < |rs| ==> Busy(rs[k], elders, young)
    requires Blocked(rs[0].txs, elders, young, rs[0].slots)
    ensures !Serves(rs[n].txs, rs[n].refs, rs[n].slots, rs[n].budget, young)
    ensures Blocked(rs[n].txs, elders, young, rs[n].slots)
    ensures rs[n].txs[young].queuedAt == rs[0].txs[young].queuedAt
  {
    hide Tx.HasPending, Tx.Pending, Serves, ByAge, Passes;
    if n > 0 {
      Starves(rs, elders, young, n - 1);
      var r := rs[n - 1];
      assert Busy(rs[n - 1], elders, young) && Busy(rs[n], elders, young);
      BlockedNext(r.txs, r.mid, rs[n].txs, r.refs, r.slots, r.budget, r.now, elders, young);
    }
    BlockedRound(rs[n].txs, rs[n].refs, rs[n].slots, rs[n].budget, elders, young);
  }

  // ----- a server on which it happens -----

  const YOUNG: nat := 6
  const FILL := 9 * MAX_FRAME_PAYLOAD

  function Six(): set<nat> {
    {0, 1, 2, 3, 4, 5}
  }

  function Queue(): seq<nat> {
    [0, 1, 2, 3, 4, 5, 6]
  }

  lemma QueueFacts()
    ensures |Six()| == YOUNG && forall k :: k in Six() <==> 0 <= k < YOUNG
    ensures |Queue()| == YOUNG + 1 && forall i :: 0 <= i <= YOUNG ==> Queue()[i] == i
  {
  }

  ghost predicate Full9(t: Tx.Tx) {
    !t.synNeeded && !t.closeReq && |t.buf| == FILL
  }

  /** Six sessions with nine full frames each, and a younger one. */
  ghost predicate Crowded(txs: Senders<nat>) {
    && txs.Keys == Six() + {YOUNG}
    && (forall e <- Six() :: txs[e].queuedAt == 1 && Full9(txs[e]))
    && txs[YOUNG].queuedAt == 2 && Tx.HasPending(txs[YOUNG])
  }

  lemma FullOwes(t: Tx.Tx)
    requires Full9(t)
    ensures |Tx.Pending(t, MAX_FRAME_PAYLOAD)| > MAX_DRAIN_FRAMES_PER_SESSION
  {
    Tx.ChunksCount(t.buf, MAX_FRAME_PAYLOAD);
  }

  lemma CrowdedBlocks(txs: Senders<nat>)
    requires Crowded(txs)
    ensures Blocked(txs, Six(), YOUNG, MAX_DRAIN_FRAMES_PER_BATCH)
    ensures forall e <- Six() :: |Tx.Pending(txs[e], MAX_FRAME_PAYLOAD)| > MAX_DRAIN_FRAMES_PER_SESSION
    ensures ByAge(txs, Queue())
  {
    hide Full9, Tx.Pending, Tx.HasPending, Six, Queue;
    QueueFacts();
    forall e <- Six() ensures |Tx.Pending(txs[e], MAX_FRAME_PAYLOAD)| > MAX_DRAIN_FRAMES_PER_SESSION {
      FullOwes(txs[e]);
    }
    forall id <- txs ensures id in Queue() { assert Queue()[id] == id; }
  }

  function Refilled(t: Tx.Tx, now: nat): Tx.Tx {
    Tx.Enqueue(t, seq(if |t.buf| <= FILL then FILL - |t.buf| else 0, _ => 0), now)
  }

  lemma Fills(t: Tx.Tx, m: nat, now: nat)
    requires Full9(t) && m <= |Tx.Pending(t, MAX_FRAME_PAYLOAD)|
    ensures Full9(Refilled(Tx.Drained(t, MAX_FRAME_PAYLOAD, m, now), now))
  {
    hide Tx.Pending;
    Runs.DrainConserves(t, MAX_FRAME_PAYLOAD, m, now);
  }

  lemma WritesAllowed(t: Tx.Tx, data: bytes, now: nat)
    ensures Written(t, t) && Written(t, Tx.Enqueue(t, data, now))
  {
    var s, es := Runs.Sender(t, [], []), [Runs.Write(data, now)];
    assert Runs.Run(s, []).tx == t;
    assert es[1..] == [] && Runs.Run(s, es).tx == Tx.Enqueue(t, data, now);
  }

  ghost function Left<K>(txs: Senders<K>, refs: seq<K>, slots: int, budget: int): Owed<K>
    requires forall id <- refs :: id in txs
  {
    Serve(OwedIn(txs), refs, slots, budget).owed
  }

  /** What a response leaves of every session. */
  lemma Answers<K>(txs: Senders<K>, refs: seq<K>, slots: int, budget: int, now: nat) returns (mid: Senders<K>)
    requires Distinct(refs) && forall id <- refs :: id in txs
    ensures Answered(txs, mid, refs, slots, budget, now)
    ensures forall id <- txs :: id in mid && exists m: nat ::
              m <= |Tx.Pending(txs[id], MAX_FRAME_PAYLOAD)| && mid[id] == Tx.Drained(txs[id], MAX_FRAME_PAYLOAD, m, now)
  {
    hide Tx.Pending, Serve, Tx.Drained;
    var owed, left := OwedIn(txs), Left(txs, refs, slots, budget);
    forall id <- txs ensures id in left && |left[id]| <= |owed[id]| { ServeShare(owed, refs, slots, budget, id); }
    mid := map id | id in txs :: Tx.Drained(txs[id], MAX_FRAME_PAYLOAD, |owed[id]| - |left[id]|, now);
    forall id <- txs
      ensures exists m: nat :: m <= |Tx.Pending(txs[id], MAX_FRAME_PAYLOAD)|
                && mid[id] == Tx.Drained(txs[id], MAX_FRAME_PAYLOAD, m, now)
    {
      var m: nat := |owed[id]| - |left[id]|;
      assert m <= |Tx.Pending(txs[id], MAX_FRAME_PAYLOAD)|;
    }
  }

  /** A response, after which the writers of the six fill up again what it took. */
  lemma CrowdedAgain(txs: Senders<nat>, now: nat) returns (r: Response<nat>, txs': Senders<nat>)
    requires Crowded(txs)
    ensures Crowded(txs') && r.txs == txs && r.slots == MAX_DRAIN_FRAMES_PER_BATCH && ByAge(r.txs, r.refs)
    ensures Passes(r.txs, r.mid, txs', r.refs, r.slots, r.budget, r.now)
  {
    hide Six, Queue, Tx.Pending, Tx.HasPending, Tx.Drained, Written, Refilled, Full9, Answered, ByAge, Blocked;
    QueueFacts();
    CrowdedBlocks(txs);
    var slots, budget := MAX_DRAIN_FRAMES_PER_BATCH, MAX_RESPONSE_BYTES;
    QueueIn(txs);
    var mid := Answers(txs, Queue(), slots, budget, now);
    txs' := map id | id in mid :: if id in Six() then Refilled(mid[id], now) else mid[id];
    forall id <- mid ensures Written(mid[id], txs'[id]) { RefillsAllowed(mid[id], now); }
    AnsweredKeys(txs, mid, Queue(), slots, budget, now);
    BlockedNext(txs, mid, txs', Queue(), slots, budget, now, Six(), YOUNG);
    forall e <- Six() ensures Full9(txs'[e]) {
      var m: nat :| m <= |Tx.Pending(txs[e], MAX_FRAME_PAYLOAD)|
        && mid[e] == Tx.Drained(txs[e], MAX_FRAME_PAYLOAD, m, now);
      Fills(txs[e], m, now);
    }
    r := Response(txs, Queue(), slots, budget, mid, now);
  }

  lemma QueueIn(txs: Senders<nat>)
    requires ByAge(txs, Queue())
    ensures Distinct(Queue()) && forall id <- Queue() :: id in txs
  {
  }

  lemma AnsweredKeys(txs: Senders<nat>, mid: Senders<nat>, refs: seq<nat>, slots: int, budget: int, now: nat)
    requires Answered(txs, mid, refs, slots, budget, now)
    ensures mid.Keys == txs.Keys
  {
  }

  lemma RefillsAllowed(t: Tx.Tx, now: nat)
    ensures Written(t, t) && Written(t, Refilled(t, now))
  {
    WritesAllowed(t, seq(if |t.buf| <= FILL then FILL - |t.buf| else 0, _ => 0), now);
  }

  lemma SomeCrowd() returns (txs: Senders<nat>)
    ensures Crowded(txs) && forall id <- txs :: !Tx.Blocked(txs[id])
  {
    var id: SessionID := seq(16, _ => 0);
    var full: bytes := seq(FILL, _ => 0);
    txs := map e | e in Six() + {YOUNG} ::
      if e in Six() then Tx.Tx(id, [], full, 0, false, false, false, 0, 1)
      else Tx.Tx(id, [], [0], 0, false, false, false, 0, 2);
  }

  lemma {:induction false} Crowds(n: nat, txs: Senders<nat>) returns (rs: seq<Response<nat>>)
    requires Crowded(txs)
    ensures |rs| == n + 1 && History(rs) && rs[0].txs == txs
    ensures forall k :: 0 <= k <= n ==> Crowded(rs[k].txs) && rs[k].slots == MAX_DRAIN_FRAMES_PER_BATCH
  {
    hide Crowded, Passes, ByAge;
    var r, txs' := CrowdedAgain(txs, 1);
    rs := [r];
    if n > 0 {
      var rest := Crowds(n - 1, txs');
      rs := [r] + rest;
    }
  }

  /** It happens, and for any number of rounds: six sessions that never go over the high-water mark, and behind
      them one that owes a byte and is not served. */
  lemma StarvesForLong(n: nat) returns (rs: seq<Response<nat>>)
    ensures |rs| == n + 1 && History(rs)
    ensures forall k :: 0 <= k <= n ==> forall e <- Six() :: e in rs[k].txs && !Tx.Blocked(rs[k].txs[e])
    ensures forall k :: 0 <= k <= n ==>
              Busy(rs[k], Six(), YOUNG) && Tx.HasPending(rs[k].txs[YOUNG])
              && !Serves(rs[k].txs, rs[k].refs, rs[k].slots, rs[k].budget, YOUNG)
  {
    hide Passes, ByAge, Serves, History, Tx.HasPending, Tx.Pending, Blocked, Busy;
    var txs := SomeCrowd();
    rs := Crowds(n, txs);
    forall k | 0 <= k <= n ensures Busy(rs[k], Six(), YOUNG) { CrowdIsBusy(rs[k]); }
    CrowdedBlocks(txs);
    forall k | 0 <= k <= n ensures !Serves(rs[k].txs, rs[k].refs, rs[k].slots, rs[k].budget, YOUNG) {
      Starves(rs, Six(), YOUNG, k);
    }
  }

  lemma CrowdIsBusy(r: Response<nat>)
    requires Crowded(r.txs) && r.slots == MAX_DRAIN_FRAMES_PER_BATCH
    ensures Busy(r, Six(), YOUNG)
  {
    CrowdedBlocks(r.txs);
  }

  // ----- being served -----

  /** The sessions that stand no later in the queue than `young`, and owe something. */
  ghost predicate Elder<K>(txs: Senders<K>, young: K, id: K) {
    id in txs && young in txs && id != young && Tx.HasPending(txs[id]) && txs[id].queuedAt <= txs[young].queuedAt
  }

  ghost function Ahead<K>(txs: Senders<K>, young: K, id: K): nat {
    if Elder(txs, young, id) then |Tx.Pending(txs[id], MAX_FRAME_PAYLOAD)| else 0
  }

  /** The frames owed before the turn of `young`. */
  ghost function Work<K>(txs: Senders<K>, young: K, ids: seq<K>): nat {
    if ids == [] then 0 else Ahead(txs, young, ids[0]) + Work(txs, young, ids[1..])
  }

  lemma {:induction false} WorkShrinks<K>(txs: Senders<K>, txs': Senders<K>, young: K, ids: seq<K>, e: K)
    requires forall id <- ids :: Ahead(txs', young, id) <= Ahead(txs, young, id)
    ensures Work(txs', young, ids) <= Work(txs, young, ids)
    ensures e in ids && Ahead(txs', young, e) < Ahead(txs, young, e) ==> Work(txs', young, ids) < Work(txs, young, ids)
  {
    if ids != [] {
      assert ids[0] in ids;
      WorkShrinks(txs, txs', young, ids[1..], e);
      assert ids == [ids[0]] + ids[1..];
    }
  }

  /** Nobody else got in before `young`, and nobody before it wrote more. */
  ghost predicate NoRefill<K>(r: Response<K>, txs': Senders<K>, young: K) {
    forall id <- txs' :: Elder(txs', young, id) ==> Elder(r.txs, young, id) && id in r.mid && txs'[id] == r.mid[id]
  }

  /** If `young` is passed over, some elder is served, and it is the first of those that owe something. */
  lemma {:induction false} SomeElderServed<K>(owed: Owed<K>, refs: seq<K>, slots: int, budget: int, j: nat)
      returns (i: nat)
    requires Distinct(refs) && (forall id <- refs :: id in owed) && j < |refs| && owed[refs[j]] != [] && slots > 0
             && budget > 0
    requires refs[j] in Serve(owed, refs, slots, budget).owed
             && Serve(owed, refs, slots, budget).owed[refs[j]] == owed[refs[j]]
    ensures i < j && owed[refs[i]] != [] && refs[i] in Serve(owed, refs, slots, budget).owed
    ensures Serve(owed, refs, slots, budget).owed[refs[i]] != owed[refs[i]]
  {
    i := 0;
    while i < j && owed[refs[i]] == []
      invariant i <= j && AheadFrames(owed, refs, i) == 0 && AheadBytes(owed, refs, i) == 0
    {
      AheadMore(owed, refs, i);
      i := i + 1;
    }
    ServedIff(owed, refs, slots, budget, i);
  }

  lemma {:induction false} AheadMore<K>(owed: Owed<K>, refs: seq<K>, i: nat)
    requires i < |refs| && (forall id <- refs :: id in owed)
    ensures AheadFrames(owed, refs, i + 1) == AheadFrames(owed, refs, i) + Full(owed[refs[i]])
    ensures AheadBytes(owed, refs, i + 1)
            == AheadBytes(owed, refs, i) + |Payloads(owed[refs[i]][..Full(owed[refs[i]])])|
    decreases i
  {
    if i > 0 {
      AheadMore(owed, refs[1..], i - 1);
    }
  }

  /** What a response leaves of an elder. */
  lemma AheadAfter<K>(r: Response<K>, txs': Senders<K>, young: K, id: K)
    requires Passes(r.txs, r.mid, txs', r.refs, r.slots, r.budget, r.now) && Distinct(r.refs)
             && NoRefill(r, txs', young)
    ensures Ahead(txs', young, id) <= Ahead(r.txs, young, id)
    ensures Serves(r.txs, r.refs, r.slots, r.budget, id) && Elder(r.txs, young, id) ==>
            Ahead(txs', young, id) < Ahead(r.txs, young, id)
  {
    hide Serve, Tx.Pending, Tx.HasPending, Tx.Drained;
    if Elder(r.txs, young, id) {
      var t, owed := r.txs[id], OwedIn(r.txs);
      var left := Serve(owed, r.refs, r.slots, r.budget).owed;
      ServeShare(owed, r.refs, r.slots, r.budget, id);
      var m := |owed[id]| - |left[id]|;
      Tx.PendingAfterDrain(t, MAX_FRAME_PAYLOAD, m, r.now);
      Tx.PendingCount(t, MAX_FRAME_PAYLOAD);
      assert m == 0 ==> left[id] == owed[id];
      assert r.mid[id] == Tx.Drained(t, MAX_FRAME_PAYLOAD, m, r.now);
      assert |Tx.Pending(r.mid[id], MAX_FRAME_PAYLOAD)| == |owed[id]| - m;
    }
  }

  /** A round that passes `young` over shortens the work before it. */
  lemma PassedOver<K>(r: Response<K>, txs': Senders<K>, young: K, ids: seq<K>)
    requires ByAge(r.txs, r.refs) && Passes(r.txs, r.mid, txs', r.refs, r.slots, r.budget, r.now)
             && NoRefill(r, txs', young)
    requires r.slots > 0 && r.budget > 0 && young in r.txs && young in txs'
    requires Tx.HasPending(r.txs[young]) && r.txs[young].queuedAt > 0
             && !Serves(r.txs, r.refs, r.slots, r.budget, young)
    requires forall id :: id in r.txs && Elder(r.txs, young, id) ==> id in ids
    ensures txs'[young].queuedAt == r.txs[young].queuedAt && Tx.HasPending(txs'[young])
    ensures Work(txs', young, ids) < Work(r.txs, young, ids)
    ensures forall id :: id in txs' && Elder(txs', young, id) ==> id in ids
  {
    hide Serve, Tx.Pending, Tx.HasPending, Passes, Ahead, Work;
    var owed := OwedIn(r.txs);
    PlaceKeptNext(r.txs, r.mid, txs', r.refs, r.slots, r.budget, r.now, young);
    Tx.PendingCount(r.txs[young], MAX_FRAME_PAYLOAD);
    var j: nat :| j < |r.refs| && r.refs[j] == young;
    ServeShare(owed, r.refs, r.slots, r.budget, young);
    var i := SomeElderServed(owed, r.refs, r.slots, r.budget, j);
    var e := r.refs[i];
    Tx.PendingCount(r.txs[e], MAX_FRAME_PAYLOAD);
    assert Elder(r.txs, young, e) && Serves(r.txs, r.refs, r.slots, r.budget, e);
    forall id <- ids ensures Ahead(txs', young, id) <= Ahead(r.txs, young, id) { AheadAfter(r, txs', young, id); }
    AheadAfter(r, txs', young, e);
    WorkShrinks(r.txs, txs', young, ids, e);
  }

  /** Before round n no response served `young`. */
  ghost predicate Waiting<K>(rs: seq<Response<K>>, young: K, n: nat)
    requires n <= |rs|
  {
    forall k :: 0 <= k < n ==> !Serves(rs[k].txs, rs[k].refs, rs[k].slots, rs[k].budget, young)
  }

  ghost predicate Undelayed<K>(rs: seq<Response<K>>, young: K) {
    && (forall k :: 0 <= k < |rs| ==> young in rs[k].txs && rs[k].slots > 0 && rs[k].budget > 0)
    && (forall k :: 0 <= k < |rs| - 1 ==> NoRefill(rs[k], rs[k + 1].txs, young))
  }

  lemma {:induction false} WorkLeft<K>(rs: seq<Response<K>>, young: K, ids: seq<K>, n: nat)
    requires History(rs) && Undelayed(rs, young) && n < |rs| && Waiting(rs, young, n)
    requires Tx.HasPending(rs[0].txs[young]) && rs[0].txs[young].queuedAt > 0
    requires forall id :: id in rs[0].txs && Elder(rs[0].txs, young, id) ==> id in ids
    ensures Tx.HasPending(rs[n].txs[young]) && rs[n].txs[young].queuedAt > 0
    ensures Work(rs[n].txs, young, ids) + n <= Work(rs[0].txs, young, ids)
    ensures forall id :: id in rs[n].txs && Elder(rs[n].txs, young, id) ==> id in ids
  {
    hide Tx.HasPending, Serves, ByAge, Passes, Work, Elder, NoRefill;
    if n > 0 {
      WorkLeft(rs, young, ids, n - 1);
      PassedOver(rs[n - 1], rs[n].txs, young, ids);
    }
  }

  /** If nothing is added before its turn, a session that owes something is served no later than after as
      many rounds as frames were owed before it. */
  lemma ServedInTime<K>(rs: seq<Response<K>>, young: K, ids: seq<K>)
    requires History(rs) && Undelayed(rs, young) && |rs| > 0
    requires Tx.HasPending(rs[0].txs[young]) && rs[0].txs[young].queuedAt > 0
    requires forall id :: id in rs[0].txs && Elder(rs[0].txs, young, id) ==> id in ids
    requires |rs| > Work(rs[0].txs, young, ids) + 1
    ensures !Waiting(rs, young, Work(rs[0].txs, young, ids) + 1)
  {
    hide Tx.HasPending, Serves, ByAge, Passes, Work, Elder, NoRefill, History, Undelayed, Waiting;
    var n := Work(rs[0].txs, young, ids) + 1;
    if Waiting(rs, young, n) {
      WorkLeft(rs, young, ids, n);
    }
  }

  /** For any one round the condition is exact. */
  lemma WaitsIff<K>(r: Response<K>, young: K, j: nat)
    requires ByAge(r.txs, r.refs) && j < |r.refs| && r.refs[j] == young && Tx.HasPending(r.txs[young])
    ensures Serves(r.txs, r.refs, r.slots, r.budget, young)
       <==> AheadFrames(OwedIn(r.txs), r.refs, j) < r.slots && AheadBytes(OwedIn(r.txs), r.refs, j) < r.budget
  {
    Tx.PendingCount(r.txs[young], MAX_FRAME_PAYLOAD);
    ServedIff(OwedIn(r.txs), r.refs, r.slots, r.budget, j);
  }
}
