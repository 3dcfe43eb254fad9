/** How the client packs one request (internal/carrier/client.go, drainAll): two passes over its ready
    sessions, oldest queue first; the first pass takes only sessions whose SYN is unsent. A session is
    seen here only through the frames it owes; K stands for session identifiers. */
module CarrierDrain {
  import opened Bytes
  import opened Frames
  import opened Drains

  /** A request being packed: who is in flight, who is still marked ready, whom this request drained. */
  datatype Packing<!K> = Packing(
    frames: seq<Frame>,
    owed: Owed<K>,
    flying: set<K>,
    ready: set<K>,
    drained: seq<K>,
    remaining: nat)

  /** One call of the closure `drain`: `syn` holds the sessions whose SYN is unsent. */
  function Turn<K(==)>(p: Packing<K>, id: K, syn: set<K>, synOnly: bool): (p': Packing<K>)
    requires id in p.owed
    ensures p'.owed.Keys == p.owed.Keys
  {
    if p.remaining == 0 || id in p.flying || (synOnly && id !in syn) then p
    else
      var m := Share(p.owed[id], p.remaining);
      if m == 0 then p.(ready := p.ready - {id})
      else Packing(p.frames + p.owed[id][..m], p.owed[id := p.owed[id][m..]], p.flying + {id}, p.ready - {id},
                   p.drained + [id], p.remaining - m)
  }

  /** The first i calls of a pass. */
  function Pass<K(==)>(p: Packing<K>, refs: seq<K>, i: nat, syn: set<K>, synOnly: bool): (p': Packing<K>)
    requires i <= |refs| && forall id <- refs :: id in p.owed
    ensures p'.owed.Keys == p.owed.Keys
  {
    if i == 0 then p else Turn(Pass(p, refs, i - 1, syn, synOnly), refs[i - 1], syn, synOnly)
  }

  lemma PassStart<K>(p: Packing<K>, refs: seq<K>, syn: set<K>, synOnly: bool)
    requires forall id <- refs :: id in p.owed
    ensures Pass(p, refs, 0, syn, synOnly) == p
  {
  }

  lemma PassTurn<K>(p: Packing<K>, refs: seq<K>, i: nat, syn: set<K>, synOnly: bool)
    requires i < |refs| && forall id <- refs :: id in p.owed
    ensures Pass(p, refs, i + 1, syn, synOnly) == Turn(Pass(p, refs, i, syn, synOnly), refs[i], syn, synOnly)
  {
  }

  function Pack<K(==)>(p: Packing<K>, refs: seq<K>, syn: set<K>): (p': Packing<K>)
    requires forall id <- refs :: id in p.owed
  {
    Pass(Pass(p, refs, |refs|, syn, true), refs, |refs|, syn, false)
  }

  // ----- what a request is, whichever pass it is in -----

  /** What the sessions in ids stopped owing, one session after the other. */
  function Shares<K(==)>(ids: seq<K>, was: Owed<K>, now: Owed<K>): seq<Frame>
    requires forall id <- ids :: id in was && id in now && |now[id]| <= |was[id]|
    decreases |ids|
  {
    if ids == [] then []
    else
      var id := ids[|ids| - 1];
      Shares(ids[..|ids| - 1], was, now) + was[id][..|was[id]| - |now[id]|]
  }

  lemma {:induction false} SharesAlike<K>(ids: seq<K>, was: Owed<K>, now: Owed<K>, now': Owed<K>)
    requires forall id <- ids :: id in was && id in now && |now[id]| <= |was[id]|
    requires forall id <- ids :: id in now' && now'[id] == now[id]
    ensures Shares(ids, was, now) == Shares(ids, was, now')
    decreases |ids|
  {
    if ids != [] {
      SharesAlike(ids[..|ids| - 1], was, now, now');
    }
  }

  lemma {:induction false} SharesFrom<K>(ids: seq<K>, was: Owed<K>, now: Owed<K>, f: Frame)
    requires forall id <- ids :: id in was && id in now && |now[id]| <= |was[id]|
    requires f in Shares(ids, was, now)
    ensures exists id <- ids :: f in was[id]
    decreases |ids|
  {
    var id := ids[|ids| - 1];
    if f in was[id][..|was[id]| - |now[id]|] {
      assert id in ids && f in was[id];
    } else {
      SharesFrom(ids[..|ids| - 1], was, now, f);
      var k :| k in ids[..|ids| - 1] && f in was[k];
      assert k in ids;
    }
  }

  ghost predicate Drop(was: seq<Frame>, now: seq<Frame>) {
    && 0 < |was| - |now| <= MAX_DRAIN_FRAMES_PER_SESSION
    && now == was[|was| - |now|..]
  }

  /** What p is, started from p0 with nothing drained: every drained session was not in flight and is
      now, once each, with the first of its frames, one to eight of them; the request is these frames. */
  ghost predicate Sound<K>(p0: Packing<K>, p: Packing<K>) {
    && p.owed.Keys == p0.owed.Keys && Distinct(p.drained)
    && (forall id <- p.drained :: id in p0.owed && id !in p0.flying && Drop(p0.owed[id], p.owed[id]))
    && (forall id <- p0.owed :: id !in p.drained ==> p.owed[id] == p0.owed[id])
    && p.flying == p0.flying + (set id <- p.drained)
    && p.frames == Shares(p.drained, p0.owed, p.owed)
    && |p.frames| + p.remaining == p0.remaining
    && p.ready <= p0.ready && forall id <- p0.owed ::
       id in p0.ready && p.owed[id] != [] ==> id in p.ready || id in p.flying
  }

  lemma DrainedMore<K>(p0: Packing<K>, p: Packing<K>, id: K, m: nat)
    requires Sound(p0, p) && id in p.owed && id !in p.flying && 0 < m <= |p.owed[id]|
    ensures id in p0.owed && id !in p.drained && p.owed[id] == p0.owed[id]
    ensures var owed' := p.owed[id := p.owed[id][m..]];
            && (forall k <- p.drained + [id] :: k in p0.owed && k in owed' && |owed'[k]| <= |p0.owed[k]|)
            && p.frames + p.owed[id][..m] == Shares(p.drained + [id], p0.owed, owed')
  {
    var owed' := p.owed[id := p.owed[id][m..]];
    var ids := p.drained + [id];
    assert ids[..|ids| - 1] == p.drained && ids[|ids| - 1] == id;
    SharesAlike(p.drained, p0.owed, p.owed, owed');
    assert |p0.owed[id]| - |owed'[id]| == m;
  }

  lemma TurnSound<K>(p0: Packing<K>, p: Packing<K>, id: K, syn: set<K>, synOnly: bool)
    requires Sound(p0, p) && id in p.owed
    ensures Sound(p0, Turn(p, id, syn, synOnly))
  {
    hide Shares;
    var p' := Turn(p, id, syn, synOnly);
    if p'.drained != p.drained {
      var m := Share(p.owed[id], p.remaining);
      DrainedMore(p0, p, id, m);
      assert (set k <- p'.drained) == (set k <- p.drained) + {id};
    }
  }

  lemma {:induction false} PassSound<K>(p0: Packing<K>, p: Packing<K>, refs: seq<K>, i: nat, syn: set<K>, synOnly: bool)
    requires Sound(p0, p) && i <= |refs| && forall id <- refs :: id in p.owed
    ensures Sound(p0, Pass(p, refs, i, syn, synOnly))
  {
    if i > 0 {
      PassSound(p0, p, refs, i - 1, syn, synOnly);
      TurnSound(p0, Pass(p, refs, i - 1, syn, synOnly), refs[i - 1], syn, synOnly);
    }
  }

  lemma StartSound<K>(p: Packing<K>)
    requires p.frames == [] && p.drained == []
    ensures Sound(p, p)
  {
  }

  /** Every request is sound, whatever was ready and whatever was in flight. */
  lemma PackSound<K>(p: Packing<K>, refs: seq<K>, syn: set<K>)
    requires p.frames == [] && p.drained == [] && forall id <- refs :: id in p.owed
    ensures Sound(p, Pack(p, refs, syn))
  {
    PassSound(p, p, refs, |refs|, syn, true);
    PassSound(p, Pass(p, refs, |refs|, syn, true), refs, |refs|, syn, false);
  }

  // ----- who gets a place -----

  /** Slots only go down, nobody leaves the air, and a full request stays as it is. */
  ghost predicate Later<K>(q: Packing<K>, q': Packing<K>, syn: set<K>, synOnly: bool) {
    && q'.remaining <= q.remaining && q.flying <= q'.flying
    && (q.remaining == 0 ==> q'.drained == q.drained && q'.flying == q.flying)
    && (synOnly ==> forall r <- q'.flying :: r in q.flying || r in syn)
  }

  ghost predicate Untouched<K>(q: Packing<K>, q': Packing<K>, id: K) {
    id in q.owed && id in q'.owed && q'.owed[id] == q.owed[id] && (id in q'.flying <==> id in q.flying)
  }

  lemma TurnLater<K>(q: Packing<K>, r: K, syn: set<K>, synOnly: bool, id: K)
    requires r in q.owed && id in q.owed
    ensures Later(q, Turn(q, r, syn, synOnly), syn, synOnly)
    ensures id in q.flying || r != id ==> Untouched(q, Turn(q, r, syn, synOnly), id)
  {
  }

  /** From the i-th call of a pass to the k-th. */
  lemma {:induction false} Onwards<K>(p: Packing<K>, refs: seq<K>, syn: set<K>, synOnly: bool, i: nat, k: nat, id: K)
    requires (forall r <- refs :: r in p.owed) && i <= k <= |refs| && id in p.owed
    ensures var q, q' := Pass(p, refs, i, syn, synOnly), Pass(p, refs, k, syn, synOnly);
            && Later(q, q', syn, synOnly)
            && (id in q.flying || (forall j :: i <= j < k ==> refs[j] != id) ==> Untouched(q, q', id))
    decreases k
  {
    hide Turn;
    if i < k {
      Onwards(p, refs, syn, synOnly, i, k - 1, id);
      TurnLater(Pass(p, refs, k - 1, syn, synOnly), refs[k - 1], syn, synOnly, id);
    }
  }

  /** The call for a session that may be taken: it gets its full share unless that fills the request. */
  lemma TurnServes<K>(q: Packing<K>, id: K, syn: set<K>, synOnly: bool)
    requires id in q.owed && id !in q.flying && (synOnly ==> id in syn)
    ensures var q' := Turn(q, id, syn, synOnly);
            && (q.remaining == 0 ==> id !in q'.flying)
            && (q.owed[id] != [] ==> id in q'.flying || q'.remaining == 0)
            && (q'.remaining > 0 ==> q'.owed[id] == q.owed[id][Min(MAX_DRAIN_FRAMES_PER_SESSION, |q.owed[id]|)..]
                                     && (id in q'.flying <==> q.owed[id] != []))
  {
  }

  /** A listed session that may be taken and owes something is in the air after the pass, unless the
      request is full. */
  lemma PassTakes<K>(p: Packing<K>, refs: seq<K>, syn: set<K>, synOnly: bool, id: K)
    requires (forall k <- refs :: k in p.owed) && id in refs && (synOnly ==> id in syn)
    requires p.owed[id] != []
    ensures var q := Pass(p, refs, |refs|, syn, synOnly); id in q.flying || q.remaining == 0
  {
    hide Turn;
    var i: nat :| i < |refs| && refs[i] == id && forall j :: 0 <= j < i ==> refs[j] != id by { FirstPlace(refs, id); }
    Onwards(p, refs, syn, synOnly, 0, i, id);
    var q := Pass(p, refs, i, syn, synOnly);
    if id !in q.flying {
      TurnServes(q, id, syn, synOnly);
    }
    Onwards(p, refs, syn, synOnly, i, i + 1, id);
    Onwards(p, refs, syn, synOnly, i + 1, |refs|, id);
  }

  lemma {:induction false} FirstPlace<K>(refs: seq<K>, id: K)
    requires id in refs
    ensures exists i: nat :: i < |refs| && refs[i] == id && forall j :: 0 <= j < i ==> refs[j] != id
  {
    if refs[0] != id {
      FirstPlace(refs[1..], id);
      var i: nat :| i < |refs[1..]| && refs[1..][i] == id && forall j :: 0 <= j < i ==> refs[1..][j] != id;
      assert refs[i + 1] == id && forall j :: 0 < j < i + 1 ==> refs[j] == refs[1..][j - 1];
    }
  }

  /** New connections first: if a ready session with an unsent SYN is left out although it is not in
      flight, the request is full and holds nothing but sessions whose SYN was unsent. */
  lemma SynsFirst<K>(p: Packing<K>, refs: seq<K>, syn: set<K>, id: K)
    requires p.frames == [] && p.drained == [] && forall k <- refs :: k in p.owed
    requires id in refs && id in syn && p.owed[id] != []
    ensures var q := Pack(p, refs, syn);
            id !in q.flying ==> q.remaining == 0 && forall k <- q.drained :: k in syn
  {
    hide Turn;
    var first := Pass(p, refs, |refs|, syn, true);
    PassTakes(p, refs, syn, true, id);
    Onwards(first, refs, syn, false, 0, |refs|, id);
    if first.remaining == 0 {
      OnlySyns(p, refs, syn, id);
    }
  }

  lemma OnlySyns<K>(p: Packing<K>, refs: seq<K>, syn: set<K>, id: K)
    requires p.frames == [] && p.drained == [] && id in p.owed && forall k <- refs :: k in p.owed
    ensures forall k <- Pass(p, refs, |refs|, syn, true).drained :: k in syn
  {
    hide Turn, Shares, Drop;
    var first := Pass(p, refs, |refs|, syn, true);
    StartSound(p);
    PassSound(p, p, refs, |refs|, syn, true);
    Onwards(p, refs, syn, true, 0, |refs|, id);
    forall k <- first.drained ensures k in syn { assert k in first.flying; }
  }

  /** Within a pass a session is served only after every one before it that the pass may take got its
      full share: eight frames, or all it owed. */
  lemma PassInOrder<K>(p: Packing<K>, refs: seq<K>, syn: set<K>, synOnly: bool, i: nat, j: nat)
    requires (forall k <- refs :: k in p.owed) && Distinct(refs) && i < j < |refs|
    requires refs[i] !in p.flying && refs[j] !in p.flying && (synOnly ==> refs[i] in syn)
    ensures var q := Pass(p, refs, |refs|, syn, synOnly);
            refs[j] in q.flying ==>
                 q.owed[refs[i]] == p.owed[refs[i]][Min(MAX_DRAIN_FRAMES_PER_SESSION, |p.owed[refs[i]]|)..]
  {
    hide Turn;
    var elder, younger := refs[i], refs[j];
    Onwards(p, refs, syn, synOnly, 0, i, elder);
    TurnServes(Pass(p, refs, i, syn, synOnly), elder, syn, synOnly);
    Onwards(p, refs, syn, synOnly, i + 1, |refs|, elder);
    Onwards(p, refs, syn, synOnly, 0, j, younger);
    Onwards(p, refs, syn, synOnly, i + 1, j, younger);
    Onwards(p, refs, syn, synOnly, j, |refs|, younger);
  }

  lemma SoundFrom<K>(p: Packing<K>, q: Packing<K>, f: Frame)
    requires Sound(p, q) && f in q.frames
    ensures exists id <- q.drained :: id in p.owed && f in p.owed[id]
  {
    SharesFrom(q.drained, p.owed, q.owed, f);
  }

  // ----- polls and what is in the air -----

  /** The outstanding polls share no session, and what they drained is exactly what is in flight. */
  ghost predicate Exclusive<K>(polls: map<nat, set<K>>, air: set<K>) {
    && (forall p <- polls :: polls[p] <= air)
    && (forall id <- air :: exists p <- polls :: id in polls[p])
    && (forall p <- polls, q <- polls :: p != q ==> polls[p] !! polls[q])
  }

  lemma PollStarts<K>(polls: map<nat, set<K>>, p0: Packing<K>, p: Packing<K>, poll: nat)
    requires Exclusive(polls, p0.flying) && Sound(p0, p) && poll !in polls
    ensures p.drained == [] ==> Exclusive(polls, p.flying)
    ensures p.drained != [] ==> Exclusive(polls[poll := set id <- p.drained], p.flying)
  {
    hide Shares, Drop;
    if p.drained == [] {
      assert p.flying == p0.flying;
    } else {
      var polls' := polls[poll := set id <- p.drained];
      forall id <- p.flying ensures exists q <- polls' :: id in polls'[q] {
        if id in p.drained {
          assert poll in polls' && id in polls'[poll];
        } else {
          var q :| q in polls && id in polls[q];
          assert q in polls' && id in polls'[q];
        }
      }
    }
  }

  function Aboard<K>(polls: map<nat, set<K>>, poll: nat): set<K> {
    if poll in polls then polls[poll] else {}
  }

  lemma Boards<K>(polls: map<nat, set<K>>, air: set<K>, poll: nat, id: K)
    requires Exclusive(polls, air) && id !in air
    ensures Exclusive(polls[poll := Aboard(polls, poll) + {id}], air + {id})
  {
    var polls' := polls[poll := Aboard(polls, poll) + {id}];
    forall k <- air + {id} ensures exists q <- polls' :: k in polls'[q] {
      if k in air {
        var q :| q in polls && k in polls[q];
        assert q in polls' && k in polls'[q];
      } else {
        assert poll in polls' && k in polls'[poll];
      }
    }
  }

  lemma Lands<K>(polls: map<nat, set<K>>, air: set<K>, poll: nat, id: K)
    requires Exclusive(polls, air) && poll in polls && id in polls[poll]
    ensures Exclusive(polls[poll := polls[poll] - {id}], air - {id})
  {
    var polls' := polls[poll := polls[poll] - {id}];
    forall k <- air - {id} ensures exists q <- polls' :: k in polls'[q] {
      var q :| q in polls && k in polls[q];
      assert q in polls' && k in polls'[q];
    }
  }

  lemma PollEnds<K>(polls: map<nat, set<K>>, air: set<K>, poll: nat)
    requires Exclusive(polls, air) && poll in polls
    ensures Exclusive(polls - {poll}, air - polls[poll])
  {
    forall id <- air - polls[poll] ensures exists p <- polls - {poll} :: id in polls[p] {
      var p :| p in polls && id in polls[p];
      assert p in polls - {poll};
    }
  }
}
