/** What the session tables of both endpoints say about the sessions in them. */
module SessionTables {
  import opened Bytes
  import opened Frames
  import opened Drains
  import opened Sessions
  import Tx = SessionTx
  import Runs = SessionRuns

  ghost function Owes(s: Session): seq<Frame>
    reads s
  {
    Tx.Pending(s.TxState(), MAX_FRAME_PAYLOAD)
  }

  lemma PendingShrinks(t: Tx.Tx, k: nat, now: nat)
    requires k > 0
    ensures var m := Tx.Quota(t, MAX_FRAME_PAYLOAD, k);
            var t' := Tx.Drained(t, MAX_FRAME_PAYLOAD, m, now);
            && Tx.Pending(t', MAX_FRAME_PAYLOAD) == Tx.Pending(t, MAX_FRAME_PAYLOAD)[m..]
            && (Tx.HasPending(t') ==> Tx.HasPending(t))
  {
    var m := Tx.Quota(t, MAX_FRAME_PAYLOAD, k);
    Tx.PendingAfterDrain(t, MAX_FRAME_PAYLOAD, m, now);
    Tx.PendingCount(t, MAX_FRAME_PAYLOAD);
    Tx.PendingCount(Tx.Drained(t, MAX_FRAME_PAYLOAD, m, now), MAX_FRAME_PAYLOAD);
  }

  /** The session sent its FIN, and either cannot receive any more, or sent it long enough ago. */
  ghost predicate DoneAt(s: Session, now: nat)
    reads s`finSent, s`finSentAt, s`rxClosed
  {
    s.finSent && (s.rxClosed || (s.finSentAt != 0 && now > s.finSentAt + Tx.SESSION_FINAL_TIMEOUT))
  }

  /** What is done stays done. */
  twostate predicate StillDone(born: set<Session>, now: nat)
    reads born
  {
    forall s <- born :: old(DoneAt(s, now)) ==> DoneAt(s, now)
  }

  /** Nothing is lost with the session: it emitted its whole stream, and it cannot receive any more, or sent its
      FIN too long ago. */
  ghost predicate Complete(s: Session, now: nat)
    reads s`emitted, s`stream, s`rxClosed, s`finSentAt
  {
    Payloads(s.emitted) == s.stream && (s.rxClosed || now > s.finSentAt + Tx.SESSION_FINAL_TIMEOUT)
  }

  /** What a collection leaves of a table, but for the sessions it did not come to yet: who can still receive
      stays until the FIN timed out, and nobody stays who sent the FIN and cannot receive. */
  ghost predicate Sifted(all: map<SessionID, Session>, left: map<SessionID, Session>, todo: set<SessionID>, now: nat)
    reads all.Values
  {
    forall id <- all ::
      if id in left then id in todo || !(all[id].finSent && all[id].rxClosed)
      else Complete(all[id], now) && all[id].stopped
  }

  lemma FinEmittedAll(s: Session)
    requires s.Valid() && s.finSent
    ensures Payloads(s.emitted) == s.stream && !Tx.HasPending(s.TxState())
  {
    Runs.DoneLosesNothing(s.Log(), s.client);
  }

  /** A map without one key. */
  function Without<V>(m: map<SessionID, V>, id: SessionID): (r: map<SessionID, V>)
    ensures r.Keys == m.Keys - {id}
  {
    m - {id}
  }

  /** A map with one key set. */
  function With<V>(m: map<SessionID, V>, id: SessionID, v: V): (r: map<SessionID, V>)
    ensures r.Keys == m.Keys + {id}
  {
    m[id := v]
  }

  lemma WithAt<V>(m: map<SessionID, V>, id: SessionID, v: V, k: SessionID)
    ensures k in With(m, id, v) <==> k == id || k in m
    ensures k in With(m, id, v) ==> With(m, id, v)[k] == if k == id then v else m[k]
  {
  }

  lemma WithoutAt<V>(m: map<SessionID, V>, id: SessionID, k: SessionID)
    ensures k in Without(m, id) <==> k != id && k in m
    ensures k in Without(m, id) ==> Without(m, id)[k] == m[k]
  {
  }

  /** What the server keeps beside its sessions, all of it by session. */
  datatype Ledger<!K> = Ledger(owners: map<K, ClientID>, conns: map<K, nat>, activity: map<K, nat>, first: set<K>,
    ready: set<K>)

  function Shed<K(==)>(b: Ledger<K>, gone: set<K>): Ledger<K> {
    Ledger(b.owners - gone, b.conns - gone, b.activity - gone, b.first - gone, b.ready - gone)
  }

  lemma ShedActivity<K>(b: Ledger<K>, gone: set<K>)
    ensures Shed(b, gone).activity == b.activity - gone
  {
  }

  lemma ShedNone<K>(b: Ledger<K>)
    ensures Shed(b, {}) == b
  {
    assert b.owners - {} == b.owners && b.conns - {} == b.conns && b.activity - {} == b.activity;
  }

  lemma ShedMore<K>(b: Ledger<K>, gone: set<K>, id: K)
    ensures Shed(Shed(b, gone), {id}) == Shed(b, gone + {id})
  {
    assert (b.owners - gone) - {id} == b.owners - (gone + {id});
    assert (b.conns - gone) - {id} == b.conns - (gone + {id});
    assert (b.activity - gone) - {id} == b.activity - (gone + {id});
    assert (b.first - gone) - {id} == b.first - (gone + {id});
    assert (b.ready - gone) - {id} == b.ready - (gone + {id});
  }

  /** From one table of owners to a later one: a session whose count of losses is the same belongs to the
      client it belonged to. */
  ghost predicate Keeps<K>(owners: map<K, ClientID>, losses: multiset<K>, owners': map<K, ClientID>,
        losses': multiset<K>) {
    losses <= losses' && forall id <- owners :: losses'[id] == losses[id] ==> id in owners' && owners'[id] == owners[id]
  }

  lemma KeepsAll<K>(o: map<K, ClientID>, l: multiset<K>)
    ensures Keeps(o, l, o, l)
  {
  }

  lemma KeepsOn<K>(o: map<K, ClientID>, l: multiset<K>, o': map<K, ClientID>, l': multiset<K>, o'': map<K, ClientID>,
        l'': multiset<K>)
    requires Keeps(o, l, o', l') && Keeps(o', l', o'', l'')
    ensures Keeps(o, l, o'', l'')
  {
  }
}
