/** One response of the server (internal/exit/exit.go, drainAll) seen from the sending halves of the sessions;
    K stands for session identifiers. */
module ExitRounds {
  import opened Bytes
  import opened Frames
  import opened Drains
  import opened ExitDrain
  import Tx = SessionTx

  type Senders<!K> = map<K, Tx.Tx>

  function OwedIn<K(==)>(txs: Senders<K>): Owed<K> {
    map id | id in txs :: Tx.Pending(txs[id], MAX_FRAME_PAYLOAD)
  }

  /** Every session shed some of its frames, in the way of drainTx. */
  ghost predicate Shrunk<K>(was: Senders<K>, txs: Senders<K>, now: nat) {
    && txs.Keys == was.Keys
    && forall id <- was ::
         && |OwedIn(txs)[id]| <= |OwedIn(was)[id]|
         && txs[id] == Tx.Drained(was[id], MAX_FRAME_PAYLOAD, |OwedIn(was)[id]| - |OwedIn(txs)[id]|, now)
  }

  lemma ShrunkStart<K>(txs: Senders<K>, now: nat)
    ensures Shrunk(txs, txs, now)
  {
    forall id <- txs ensures txs[id] == Tx.Drained(txs[id], MAX_FRAME_PAYLOAD, 0, now) { DrainedNone(txs[id], now); }
  }

  lemma DrainedNone(t: Tx.Tx, now: nat)
    ensures Tx.Drained(t, MAX_FRAME_PAYLOAD, 0, now) == t
  {
    var bs := Tx.Bodies(t, MAX_FRAME_PAYLOAD);
    Tx.BodiesCover(t, MAX_FRAME_PAYLOAD);
    assert bs[0..] == bs;
  }

  lemma ShrunkTurn<K>(was: Senders<K>, txs: Senders<K>, id: K, m: nat, now: nat)
    requires Shrunk(was, txs, now) && id in txs && m <= |Tx.Pending(txs[id], MAX_FRAME_PAYLOAD)|
    ensures Shrunk(was, txs[id := Tx.Drained(txs[id], MAX_FRAME_PAYLOAD, m, now)], now)
  {
    hide Tx.Pending, Tx.Drained;
    var a := |OwedIn(was)[id]| - |OwedIn(txs)[id]|;
    Tx.DrainTwice(was[id], MAX_FRAME_PAYLOAD, a, m, now);
    Tx.PendingAfterDrain(txs[id], MAX_FRAME_PAYLOAD, m, now);
    if m == 0 {
      DrainedNone(txs[id], now);
    }
    var txs' := txs[id := Tx.Drained(txs[id], MAX_FRAME_PAYLOAD, m, now)];
    forall k <- was | k != id ensures OwedIn(txs')[k] == OwedIn(txs)[k] && txs'[k] == txs[k] { }
    assert |OwedIn(txs')[id]| == |OwedIn(txs)[id]| - m;
  }

  /** One response: every session sheds the frames it gives, in the way of drainTx. */
  ghost predicate Answered<K>(txs: Senders<K>, txs': Senders<K>, refs: seq<K>, slots: int, budget: int, now: nat) {
    && (forall id <- refs :: id in txs) && txs'.Keys == txs.Keys
    && var r := Serve(OwedIn(txs), refs, slots, budget);
       forall id <- txs :: id in r.owed && |r.owed[id]| <= |OwedIn(txs)[id]|
         && txs'[id] == Tx.Drained(txs[id], MAX_FRAME_PAYLOAD, |OwedIn(txs)[id]| - |r.owed[id]|, now)
  }

  lemma ServedAnswers<K>(txs: Senders<K>, txs': Senders<K>, refs: seq<K>, slots: int, budget: int, now: nat)
    requires Shrunk(txs, txs', now) && (forall id <- refs :: id in txs)
    requires OwedIn(txs') == Serve(OwedIn(txs), refs, slots, budget).owed
    ensures Answered(txs, txs', refs, slots, budget, now)
  {
    hide Serve, Tx.Pending, Tx.Drained;
    var owed := OwedIn(txs');
    forall id <- txs ensures id in owed && |owed[id]| <= |OwedIn(txs)[id]| { }
  }
}
