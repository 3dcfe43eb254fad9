/** What the server's and the client's drain of their ready sessions have in common (internal/exit/exit.go
    and internal/carrier/client.go): the frame caps, and the snapshot of the sessions by queue age. */
module Drains {
  import opened Bytes
  import opened Frames

  const MAX_FRAME_PAYLOAD := 256 * 1024
  const MAX_DRAIN_FRAMES_PER_SESSION := 8
  const MAX_DRAIN_FRAMES_PER_BATCH := 48
  const BUSY_SESSION_THRESHOLD := 24
  const MAX_DRAIN_FRAMES_PER_BATCH_BUSY := 144

  type Owed<!K> = map<K, seq<Frame>>

  function BatchCap(sessionCount: nat): nat {
    if sessionCount >= BUSY_SESSION_THRESHOLD then MAX_DRAIN_FRAMES_PER_BATCH_BUSY else MAX_DRAIN_FRAMES_PER_BATCH
  }

  /** How many of its owed frames a session gets when `remaining` slots are left. */
  function Share(owed: seq<Frame>, remaining: int): (m: nat)
    ensures m <= |owed| && m <= MAX_DRAIN_FRAMES_PER_SESSION && (remaining >= 0 ==> m <= remaining)
  {
    if remaining <= 0 then 0 else Min(Min(MAX_DRAIN_FRAMES_PER_SESSION, remaining), |owed|)
  }

  ghost predicate Distinct<K>(refs: seq<K>) {
    forall i, j :: 0 <= i < j < |refs| ==> refs[i] != refs[j]
  }

  ghost predicate Lists<K>(refs: seq<K>, ids: set<K>) {
    forall id <- ids :: id in refs
  }

  // ----- age order of the snapshot -----

  lemma {:induction false} OldestExists<K>(ages: map<K, nat>, ids: set<K>)
    requires ids != {} && ids <= ages.Keys
    ensures exists id :: id in ids && forall k :: k in ids ==> ages[id] <= ages[k]
    decreases ids
  {
    var x :| x in ids;
    if ids != {x} {
      OldestExists(ages, ids - {x});
      var y :| y in ids - {x} && forall k :: k in ids - {x} ==> ages[y] <= ages[k];
      var id := if ages[x] <= ages[y] then x else y;
      assert forall k :: k in ids ==> k == x || k in ids - {x};
    }
  }

  /** Some arrangement by age; sort.Slice is unstable, so no more is promised. */
  method SortByAge<K(==)>(ages: map<K, nat>) returns (refs: seq<K>)
    ensures Distinct(refs) && forall id :: id in refs <==> id in ages
    ensures forall i, j :: 0 <= i < j < |refs| ==> refs[i] in ages && refs[j] in ages && ages[refs[i]] <= ages[refs[j]]
  {
    var todo := ages.Keys;
    refs := [];
    while todo != {}
      invariant todo <= ages.Keys && Distinct(refs)
      invariant forall id :: id in refs <==> id in ages && id !in todo
      invariant forall i, j :: 0 <= i < j < |refs| ==>
                  refs[i] in ages && refs[j] in ages && ages[refs[i]] <= ages[refs[j]]
      invariant forall i, k :: 0 <= i < |refs| && k in todo ==> refs[i] in ages && ages[refs[i]] <= ages[k]
      decreases todo
    {
      OldestExists(ages, todo);
      var id :| id in todo && forall k :: k in todo ==> ages[id] <= ages[k];
      refs := refs + [id];
      todo := todo - {id};
    }
  }
}
