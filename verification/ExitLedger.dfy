/** An account of which frames left which session object in which poll. */
module ExitLedgers {
  import opened Bytes
  import opened Frames
  import opened Sessions
  import opened ExitPolls

  /** What one poll returned, and the table of sessions while it ran; `mine` marks the polls of one request. */
  datatype Answer = Answer(mine: bool, out: seq<Frame>, table: map<SessionID, Session>)

  /** What a poll took out of a session object. */
  ghost function TakenIn(a: Answer, s: Session): seq<Frame> {
    if s.id in a.table && a.table[s.id] == s then OfId(OfSessions(a.out), s.id) else []
  }

  ghost function Taken(log: seq<Answer>, s: Session): seq<Frame> {
    if log == [] then [] else TakenIn(log[0], s) + Taken(log[1..], s)
  }

  /** What the polls of the one request returned. */
  function Ours(log: seq<Answer>): seq<Frame> {
    if log == [] then [] else (if log[0].mine then log[0].out else []) + Ours(log[1..])
  }

  /** How many polls the one request made. */
  function Rounds(log: seq<Answer>): nat {
    if log == [] then 0 else (if log[0].mine then 1 else 0) + Rounds(log[1..])
  }

  lemma {:induction false} LedgerAppend(a: seq<Answer>, b: seq<Answer>)
    ensures Ours(a + b) == Ours(a) + Ours(b) && Rounds(a + b) == Rounds(a) + Rounds(b)
    ensures forall s :: Taken(a + b, s) == Taken(a, s) + Taken(b, s)
  {
    if a == [] {
      assert a + b == b;
    } else {
      assert (a + b)[1..] == a[1..] + b && (a + b)[0] == a[0];
      LedgerAppend(a[1..], b);
    }
  }

  lemma OneAnswer(a: Answer)
    ensures Ours([a]) == (if a.mine then a.out else []) && Rounds([a]) == if a.mine then 1 else 0
    ensures forall s :: Taken([a], s) == TakenIn(a, s)
  {
    assert Ours([]) == [] && Rounds([]) == 0;
    forall s ensures Taken([a], s) == TakenIn(a, s) { assert Taken([], s) == []; }
  }

  lemma {:induction false} NotMine(log: seq<Answer>)
    requires forall a <- log :: !a.mine
    ensures Ours(log) == [] && Rounds(log) == 0
  {
    if log != [] {
      assert log[0] in log;
      NotMine(log[1..]);
    }
  }

  lemma {:induction false} NothingTaken(log: seq<Answer>, s: Session)
    requires forall a <- log :: s !in a.table.Values
    ensures Taken(log, s) == []
  {
    if log != [] {
      assert log[0] in log;
      NothingTaken(log[1..], s);
    }
  }

  ghost function Before(was: map<Session, seq<Frame>>, s: Session): seq<Frame> {
    if s in was then was[s] else []
  }

  /** Every frame a session object emitted since is in what some poll returned, and nothing else is, in order. */
  ghost predicate Balanced(was: map<Session, seq<Frame>>, later: map<Session, seq<Frame>>, log: seq<Answer>) {
    && (forall a <- log :: a.table.Values <= later.Keys) && was.Keys <= later.Keys
    && forall s <- later :: later[s] == Before(was, s) + Taken(log, s)
  }

  lemma BalancedStart(was: map<Session, seq<Frame>>)
    ensures Balanced(was, was, [])
  {
    forall s <- was ensures was[s] == Before(was, s) + Taken([], s) { assert Taken([], s) == []; }
  }

  lemma Regroup(x: seq<Frame>, y: seq<Frame>, z: seq<Frame>)
    ensures (x + y) + z == x + (y + z) && [] + z == z
  {
  }

  lemma BalancedOn(a: map<Session, seq<Frame>>, b: map<Session, seq<Frame>>, c: map<Session, seq<Frame>>,
                   log: seq<Answer>, more: seq<Answer>)
    requires Balanced(a, b, log) && Balanced(b, c, more)
    ensures Balanced(a, c, log + more)
  {
    hide Taken;
    LedgerAppend(log, more);
    forall s <- c ensures c[s] == Before(a, s) + Taken(log + more, s) {
      if s !in b { NothingTaken(log, s); }
      Regroup(Before(a, s), Taken(log, s), Taken(more, s));
    }
  }
}
