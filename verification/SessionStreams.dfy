/** What a reader makes of frames that session objects emitted under one identifier. */
module SessionStreams {
  import opened Bytes
  import opened Frames
  import opened Sessions
  import opened SessionRx
  import opened SharedNumbers
  import Runs = SessionRuns

  lemma EmittedNumber(s: Session, f: Frame)
    requires s.Valid() && f in s.emitted
    ensures f.id == s.id && f.seqNo < |s.emitted| && f == s.emitted[f.seqNo]
  {
    var i :| 0 <= i < |s.emitted| && s.emitted[i] == f;
    assert Runs.WellFormed(s.Log(), s.client, i);
  }

  lemma Emitter(ss: set<Session>, f: Frame) returns (s: Session)
    requires (forall s <- ss :: s.Valid()) && exists s <- ss :: f in s.emitted
    ensures s in ss && s.id == f.id && f.seqNo < |s.emitted| && f == s.emitted[f.seqNo]
  {
    hide Session.Valid;
    s :| s in ss && f in s.emitted;
    EmittedNumber(s, f);
  }

  lemma StreamOf(s: Session)
    requires s.Valid()
    ensures Payloads(s.emitted) <= s.stream
  {
  }

  /** If the objects under an identifier are one, then whatever of it arrives, in whatever order and however
      often, is reassembled to a prefix of that session's stream. */
  lemma OneObject(ss: set<Session>, id: SessionID, fs: seq<Frame>)
    requires forall s <- ss :: s.Valid()
    requires forall s, t :: s in ss && t in ss && s.id == t.id == id ==> s == t
    requires forall f <- fs :: f.id == id && exists s <- ss :: f in s.emitted
    ensures var got := TakeAll(NEW_RECEIVER, fs).delivered;
            got == [] || exists s <- ss :: s.id == id && got <= s.stream
  {
    hide Session.Valid, TakeAll, Inv;
    var r := TakeAll(NEW_RECEIVER, fs);
    TakenSpan(fs);
    TakenFront(r);
    if r.rx.next == 0 {
      assert Span(r.have, 0, 0) == [];
    } else {
      assert 0 in r.have;
      var s := Emitter(ss, r.have[0]);
      forall k: nat | k < r.rx.next ensures k < |s.emitted| && r.have[k] == s.emitted[k] {
        var t := Emitter(ss, r.have[k]);
      }
      var last := r.rx.next - 1;
      assert last in r.have && last < |s.emitted| && r.have[last] == s.emitted[last];
      SpanOf(r.have, r.rx.next, s.emitted);
      StreamOf(s);
    }
  }
}
