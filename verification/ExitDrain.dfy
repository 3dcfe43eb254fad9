/** How the server packs one response (internal/exit/exit.go, drainAll): the sessions of one client,
    oldest queue first, under a frame cap, a per-session cap and a byte budget. A session is seen here
    only through the frames it owes; K stands for session identifiers. */
module ExitDrain {
  import opened Bytes
  import opened Frames
  import opened Drains

  const MAX_RESPONSE_BYTES := 22 * 1024 * 1024

  /** The most one session can add to a response: its whole drain. */
  const OVERSHOOT := MAX_DRAIN_FRAMES_PER_SESSION * MAX_FRAME_PAYLOAD

  datatype Round<!K> = Round(frames: seq<Frame>, owed: Owed<K>, remaining: int, budget: int)

  function Serve<K(==)>(owed: Owed<K>, refs: seq<K>, remaining: int, budget: int): (r: Round<K>)
    requires forall id <- refs :: id in owed
    decreases |refs|
  {
    if refs == [] || remaining <= 0 || budget <= 0 then Round([], owed, remaining, budget)
    else
      var id := refs[0];
      var m := Share(owed[id], remaining);
      var fs := owed[id][..m];
      var rest := Serve(owed[id := owed[id][m..]], refs[1..], remaining - m, budget - |Payloads(fs)|);
      Round(fs + rest.frames, rest.owed, rest.remaining, rest.budget)
  }

  /** One turn of it, or its end. */
  lemma ServeTurn<K>(owed: Owed<K>, refs: seq<K>, remaining: int, budget: int)
    requires forall id <- refs :: id in owed
    ensures refs == [] || remaining <= 0 || budget <= 0 ==>
              Serve(owed, refs, remaining, budget) == Round([], owed, remaining, budget)
    ensures refs != [] && remaining > 0 && budget > 0 ==>
              var m := Share(owed[refs[0]], remaining);
              var fs := owed[refs[0]][..m];
              var rest := Serve(owed[refs[0] := owed[refs[0]][m..]], refs[1..], remaining - m, budget - |Payloads(fs)|);
              Serve(owed, refs, remaining, budget)
                == Round(fs + rest.frames, rest.owed, rest.remaining, rest.budget)
  {
    hide Payloads, Share;
  }

  /** The loop over the list, about to serve number i: the frames so far, followed by what the rest of
      the list yields from here, are the whole response. */
  ghost predicate Serving<K>(was: Owed<K>, order: seq<K>, slots: int, budget: int,
                             i: nat, frames: seq<Frame>, owed: Owed<K>, remaining: int, left: int)
  {
    && Distinct(order) && i <= |order| && owed.Keys == was.Keys && (forall id <- order :: id in was)
    && (forall j :: i <= j < |order| ==> owed[order[j]] == was[order[j]])
    && var all, rest := Serve(was, order, slots, budget), Serve(owed, order[i..], remaining, left);
       frames + rest.frames == all.frames && rest.owed == all.owed
  }

  lemma ServingStart<K>(was: Owed<K>, order: seq<K>, slots: int, budget: int)
    requires Distinct(order) && forall id <- order :: id in was
    ensures Serving(was, order, slots, budget, 0, [], was, slots, budget)
  {
    assert order[0..] == order;
  }

  lemma ServingTurn<K>(was: Owed<K>, order: seq<K>, slots: int, budget: int,
                       i: nat, frames: seq<Frame>, owed: Owed<K>, remaining: int, left: int)
    requires Serving(was, order, slots, budget, i, frames, owed, remaining, left)
    requires i < |order| && remaining > 0 && left > 0
    ensures order[i] in owed && order[i] in was && owed[order[i]] == was[order[i]]
    ensures var id := order[i];
            var m := Share(was[id], remaining);
            var fs := was[id][..m];
            Serving(was, order, slots, budget, i + 1, frames + fs, owed[id := was[id][m..]],
                    remaining - m, left - |Payloads(fs)|)
  {
    var id := order[i];
    assert id in order;
    var m := Share(was[id], remaining);
    var fs := was[id][..m];
    assert order[i..][1..] == order[i + 1..];
    var rest := Serve(owed[id := was[id][m..]], order[i + 1..], remaining - m, left - |Payloads(fs)|);
    assert (frames + fs) + rest.frames == frames + (fs + rest.frames);
  }

  lemma ServingDone<K>(was: Owed<K>, order: seq<K>, slots: int, budget: int,
                       i: nat, frames: seq<Frame>, owed: Owed<K>, remaining: int, left: int)
    requires Serving(was, order, slots, budget, i, frames, owed, remaining, left)
    requires i == |order| || remaining <= 0 || left <= 0
    ensures (forall id <- order :: id in was) && var all := Serve(was, order, slots, budget);
            owed == all.owed && frames == all.frames
  {
  }

  /** What a drain of this list made of the sessions, and the frames it returned. */
  ghost predicate ServedAs<K>(was: Owed<K>, table: Owed<K>, refs: seq<K>, slots: int, budget: int, frames: seq<Frame>) {
    && (forall id <- refs :: id in was)
    && var r := Serve(was, refs, slots, budget); table == r.owed && frames == r.frames
  }

  /** No frame a session owes is larger than the frame cap. */
  ghost predicate Capped<K>(owed: Owed<K>) {
    forall id <- owed, i :: 0 <= i < |owed[id]| ==> |owed[id][i].payload| <= MAX_FRAME_PAYLOAD
  }

  // ----- the bookkeeping of one response -----

  /** A session was served exactly if it now owes something else: then its first reply is no longer
      due and its activity is fresh. */
  ghost predicate Booked<K>(was: Owed<K>, table: Owed<K>, first: set<K>, first': set<K>,
                             activity: map<K, nat>, activity': map<K, nat>, now: nat)
  {
    && was.Keys == table.Keys && activity.Keys == was.Keys && activity'.Keys == was.Keys && first <= was.Keys
    && first' <= first && (forall id <- first :: id in first' <==> table[id] == was[id])
    && (forall id <- was :: activity'[id] == if table[id] == was[id] then activity[id] else now)
  }

  lemma BookServed<K>(was: Owed<K>, table: Owed<K>, first: set<K>, first': set<K>,
                      activity: map<K, nat>, activity': map<K, nat>, now: nat, id: K, m: nat)
    requires Booked(was, table, first, first', activity, activity', now)
    requires id in was && table[id] == was[id] && m <= |was[id]|
    ensures m > 0 ==> Booked(was, table[id := was[id][m..]], first, first' - {id}, activity, activity'[id := now], now)
    ensures m == 0 ==> Booked(was, table[id := was[id][m..]], first, first', activity, activity', now)
  {
    assert |was[id][m..]| == |was[id]| - m;
    if m == 0 {
      assert was[id][m..] == was[id];
      assert table[id := was[id][m..]] == table;
    }
  }

  // ----- caps -----

  lemma {:induction false} PayloadsBound(fs: seq<Frame>, cap: nat)
    requires forall i :: 0 <= i < |fs| ==> |fs[i].payload| <= cap
    ensures |Payloads(fs)| <= cap * |fs|
  {
    if fs != [] {
      PayloadsBound(fs[1..], cap);
      assert cap * |fs| == cap * |fs[1..]| + cap by { assert |fs| == |fs[1..]| + 1; }
    }
  }

  /** The slots and the budget a response uses up are its frames and its payload bytes. */
  lemma {:induction false} ServeCounts<K>(owed: Owed<K>, refs: seq<K>, remaining: int, budget: int)
    requires forall id <- refs :: id in owed
    ensures var r := Serve(owed, refs, remaining, budget);
            && (remaining >= 0 ==> r.remaining >= 0)
            && |r.frames| == remaining - r.remaining
            && |Payloads(r.frames)| == budget - r.budget
    decreases |refs|
  {
    hide Serve, Share, Payloads;
    ServeTurn(owed, refs, remaining, budget);
    NoPayloads();
    if refs != [] && remaining > 0 && budget > 0 {
      var id := refs[0];
      var m := Share(owed[id], remaining);
      var fs := owed[id][..m];
      var owed' := owed[id := owed[id][m..]];
      ServeCounts(owed', refs[1..], remaining - m, budget - |Payloads(fs)|);
      PayloadsAppend(fs, Serve(owed', refs[1..], remaining - m, budget - |Payloads(fs)|).frames);
    }
  }

  lemma NoPayloads()
    ensures Payloads([]) == []
  {
  }

  lemma ShareBytes(owed: seq<Frame>, remaining: int)
    requires forall i :: 0 <= i < |owed| ==> |owed[i].payload| <= MAX_FRAME_PAYLOAD
    ensures |Payloads(owed[..Share(owed, remaining)])| <= OVERSHOOT
  {
    PayloadsBound(owed[..Share(owed, remaining)], MAX_FRAME_PAYLOAD);
  }

  lemma CappedRest<K>(owed: Owed<K>, id: K, m: nat)
    requires Capped(owed) && id in owed && m <= |owed[id]|
    ensures Capped(owed[id := owed[id][m..]])
  {
  }

  lemma {:induction false} BudgetLeft<K>(owed: Owed<K>, refs: seq<K>, remaining: int, budget: int)
    requires Capped(owed) && budget > 0 && forall id <- refs :: id in owed
    ensures Serve(owed, refs, remaining, budget).budget > -OVERSHOOT
    decreases |refs|
  {
    hide Capped, Serve, Share, Payloads;
    ServeTurn(owed, refs, remaining, budget);
    if refs != [] && remaining > 0 {
      var id := refs[0];
      var m := Share(owed[id], remaining);
      var left := budget - |Payloads(owed[id][..m])|;
      assert left > -OVERSHOOT by {
        CappedAt(owed, id);
        ShareBytes(owed[id], remaining);
      }
      var owed' := owed[id := owed[id][m..]];
      if left > 0 {
        CappedRest(owed, id, m);
        BudgetLeft(owed', refs[1..], remaining - m, left);
      } else {
        ServeTurn(owed', refs[1..], remaining - m, left);
      }
    }
  }

  lemma CappedAt<K>(owed: Owed<K>, id: K)
    requires Capped(owed) && id in owed
    ensures forall i :: 0 <= i < |owed[id]| ==> |owed[id][i].payload| <= MAX_FRAME_PAYLOAD
  {
  }

  /** A response stays under its frame cap, and goes past its byte budget by less than one session's
      whole drain; without budget nothing is drained. */
  lemma ServeBounds<K>(owed: Owed<K>, refs: seq<K>, remaining: nat, budget: int)
    requires Capped(owed) && forall id <- refs :: id in owed
    ensures var r := Serve(owed, refs, remaining, budget);
            && |r.frames| <= remaining
            && (budget > 0 ==> |Payloads(r.frames)| < budget + OVERSHOOT)
            && (budget <= 0 ==> r.frames == [])
  {
    ServeCounts(owed, refs, remaining, budget);
    if budget > 0 {
      BudgetLeft(owed, refs, remaining, budget);
    }
  }

  // ----- conservation and progress -----

  function Total<K(==)>(owed: Owed<K>, ids: seq<K>): nat
    requires forall id <- ids :: id in owed
  {
    if ids == [] then 0 else |owed[ids[0]]| + Total(owed, ids[1..])
  }

  lemma {:induction false} TotalUpdate<K>(owed: Owed<K>, ids: seq<K>, id: K, fs: seq<Frame>)
    requires Distinct(ids) && (forall i <- ids :: i in owed) && id in owed
    ensures Total(owed[id := fs], ids) == Total(owed, ids) + if id in ids then |fs| - |owed[id]| else 0
    decreases |ids|
  {
    if ids != [] {
      TotalUpdate(owed, ids[1..], id, fs);
      assert ids == [ids[0]] + ids[1..];
    }
  }

  /** What leaves in a response is exactly what the sessions stop owing. */
  lemma {:induction false} ServeConserves<K>(owed: Owed<K>, refs: seq<K>, ids: seq<K>, remaining: int, budget: int)
    requires Distinct(ids) && (forall i <- ids :: i in owed) && forall id <- refs :: id in ids
    ensures var r := Serve(owed, refs, remaining, budget);
            r.owed.Keys == owed.Keys && Total(r.owed, ids) == Total(owed, ids) - |r.frames|
    decreases |refs|
  {
    hide Serve, Share, Payloads, Total;
    ServeTurn(owed, refs, remaining, budget);
    if refs != [] && remaining > 0 && budget > 0 {
      var id := refs[0];
      var m := Share(owed[id], remaining);
      TotalUpdate(owed, ids, id, owed[id][m..]);
      ServeConserves(owed[id := owed[id][m..]], refs[1..], ids, remaining - m, budget - |Payloads(owed[id][..m])|);
    }
  }

  /** A response with room and budget takes something whenever a ready session owes something. */
  lemma {:induction false} ServeProgress<K>(owed: Owed<K>, refs: seq<K>, remaining: int, budget: int, id: K)
    requires forall i <- refs :: i in owed
    requires remaining > 0 && budget > 0 && id in refs && owed[id] != []
    ensures Serve(owed, refs, remaining, budget).frames != []
    decreases |refs|
  {
    if owed[refs[0]] == [] {
      assert refs == [refs[0]] + refs[1..];
      assert owed[refs[0] := []] == owed;
      ServeProgress(owed, refs[1..], remaining, budget, id);
    }
  }

  // ----- who is served -----

  /** Sessions that are not listed are untouched. */
  lemma {:induction false} ServeOthers<K>(owed: Owed<K>, refs: seq<K>, remaining: int, budget: int, id: K)
    requires (forall i <- refs :: i in owed) && id !in refs
    ensures var r := Serve(owed, refs, remaining, budget);
            r.owed.Keys == owed.Keys && (id in owed ==> r.owed[id] == owed[id])
    decreases |refs|
  {
    if refs != [] && remaining > 0 && budget > 0 {
      var i := refs[0];
      var m := Share(owed[i], remaining);
      ServeOthers(owed[i := owed[i][m..]], refs[1..], remaining - m, budget - |Payloads(owed[i][..m])|, id);
    }
  }

  /** A session is served only after every one listed before it got its full share: eight frames, or
      all it owed. */
  lemma {:induction false} ServeInOrder<K>(owed: Owed<K>, refs: seq<K>, remaining: int, budget: int, i: nat, j: nat)
    requires Distinct(refs) && (forall id <- refs :: id in owed) && i < j < |refs|
    ensures var r := Serve(owed, refs, remaining, budget);
            && refs[i] in r.owed && refs[j] in r.owed
            && (r.owed[refs[j]] != owed[refs[j]] ==>
                  r.owed[refs[i]] == owed[refs[i]][Min(MAX_DRAIN_FRAMES_PER_SESSION, |owed[refs[i]]|)..])
    decreases |refs|
  {
    if remaining > 0 && budget > 0 {
      var id := refs[0];
      var m := Share(owed[id], remaining);
      var owed' := owed[id := owed[id][m..]];
      var left := budget - |Payloads(owed[id][..m])|;
      assert refs[1..][j - 1] == refs[j];
      if i > 0 {
        assert refs[1..][i - 1] == refs[i];
        ServeInOrder(owed', refs[1..], remaining - m, left, i - 1, j - 1);
      } else {
        ServeOthers(owed', refs[1..], remaining - m, left, id);
      }
    }
  }

  /** Every frame of a response comes from a listed session. */
  lemma {:induction false} ServeFrom<K>(owed: Owed<K>, refs: seq<K>, remaining: int, budget: int, f: Frame)
    requires (forall i <- refs :: i in owed) && f in Serve(owed, refs, remaining, budget).frames
    ensures exists id <- refs :: f in owed[id]
    decreases |refs|
  {
    var id := refs[0];
    var m := Share(owed[id], remaining);
    if f in owed[id][..m] {
      assert id in refs && f in owed[id];
    } else {
      var owed' := owed[id := owed[id][m..]];
      ServeFrom(owed', refs[1..], remaining - m, budget - |Payloads(owed[id][..m])|, f);
      var i :| i in refs[1..] && f in owed'[i];
      assert i in refs && f in owed[i];
    }
  }

  // ----- exactly who is served -----

  /** What a session gets when neither slots nor budget run out. */
  function Full(owed: seq<Frame>): (m: nat)
    ensures m <= |owed| && m <= MAX_DRAIN_FRAMES_PER_SESSION && (owed != [] ==> m > 0)
  {
    Min(MAX_DRAIN_FRAMES_PER_SESSION, |owed|)
  }

  /** The slots that the first j sessions listed would take in full. */
  function AheadFrames<K(==)>(owed: Owed<K>, refs: seq<K>, j: nat): (n: nat)
    requires j <= |refs| && forall id <- refs :: id in owed
    decreases j
  {
    if j == 0 then 0 else Full(owed[refs[0]]) + AheadFrames(owed, refs[1..], j - 1)
  }

  function AheadBytes<K(==)>(owed: Owed<K>, refs: seq<K>, j: nat): (n: nat)
    requires j <= |refs| && forall id <- refs :: id in owed
    decreases j
  {
    if j == 0 then 0 else |Payloads(owed[refs[0]][..Full(owed[refs[0]])])| + AheadBytes(owed, refs[1..], j - 1)
  }

  lemma {:induction false} AheadAlike<K>(owed: Owed<K>, owed': Owed<K>, refs: seq<K>, j: nat)
    requires j <= |refs| && forall id <- refs :: id in owed && id in owed' && owed'[id] == owed[id]
    ensures AheadFrames(owed', refs, j) == AheadFrames(owed, refs, j)
            && AheadBytes(owed', refs, j) == AheadBytes(owed, refs, j)
    decreases j
  {
    if j > 0 {
      assert refs[0] in refs;
      AheadAlike(owed, owed', refs[1..], j - 1);
    }
  }

  /** A listed session that owes something is served if and only if the full shares of the sessions listed
      before it leave a slot, and their bytes leave some budget. */
  lemma {:induction false} ServedIff<K>(owed: Owed<K>, refs: seq<K>, slots: int, budget: int, j: nat)
    requires Distinct(refs) && (forall id <- refs :: id in owed) && j < |refs| && owed[refs[j]] != []
    ensures var r := Serve(owed, refs, slots, budget);
            && refs[j] in r.owed
            && (r.owed[refs[j]] != owed[refs[j]] <==>
                 AheadFrames(owed, refs, j) < slots && AheadBytes(owed, refs, j) < budget)
    decreases |refs|
  {
    if slots > 0 && budget > 0 {
      var id, rest := refs[0], refs[1..];
      var m := Share(owed[id], slots);
      var owed' := owed[id := owed[id][m..]];
      var left := budget - |Payloads(owed[id][..m])|;
      if j == 0 {
        ServeOthers(owed', rest, slots - m, left, id);
        assert |owed[id][m..]| < |owed[id]|;
      } else {
        assert rest[j - 1] == refs[j] && id !in rest;
        AheadAlike(owed, owed', rest, j - 1);
        ServedIff(owed', rest, slots - m, left, j - 1);
      }
    }
  }

  /** Whatever a session gives is the first of what it owes, eight frames at most. */
  lemma {:induction false} ServeShare<K>(owed: Owed<K>, refs: seq<K>, slots: int, budget: int, id: K)
    requires Distinct(refs) && (forall k <- refs :: k in owed) && id in owed
    ensures var r := Serve(owed, refs, slots, budget);
            && r.owed.Keys == owed.Keys && |owed[id]| - MAX_DRAIN_FRAMES_PER_SESSION <= |r.owed[id]| <= |owed[id]|
            && r.owed[id] == owed[id][|owed[id]| - |r.owed[id]|..]
    decreases |refs|
  {
    if refs != [] && slots > 0 && budget > 0 {
      var k := refs[0];
      var m := Share(owed[k], slots);
      var owed' := owed[k := owed[k][m..]];
      var left := budget - |Payloads(owed[k][..m])|;
      if k == id {
        ServeOthers(owed', refs[1..], slots - m, left, id);
      } else {
        ServeShare(owed', refs[1..], slots - m, left, id);
      }
    }
  }
}
