/** Which relay endpoint a poll goes to (internal/carrier/client.go): rotation over the healthy ones,
    growing blacklists after failures, and one retry. Times are nanoseconds; 0 is Go's zero time. */
module Endpoints {
  import opened Bytes

  const SECOND := 1_000_000_000
  const BASE_TTL := 3 * SECOND
  const MAX_TTL := 3600 * SECOND

  datatype Endpoint = Endpoint(till: nat, fails: nat, statsOK: nat, statsFail: nat)

  predicate Healthy(e: Endpoint, now: nat) {
    e.till <= now
  }

  // ----- blacklist times -----

  function Shifted(x: nat, n: nat): nat {
    if n == 0 then x else 2 * Shifted(x, n - 1)
  }

  function Ttl(fails: nat): nat {
    if fails == 0 then 0
    else if fails <= 5 then Shifted(BASE_TTL, fails - 1)
    else if fails == 6 then 300 * SECOND
    else if fails == 7 then 1800 * SECOND
    else MAX_TTL
  }

  /** The ramp: 3 s doubling to 48 s, then five minutes, half an hour, an hour. */
  lemma TtlSteps()
    ensures Ttl(1) == 3 * SECOND && Ttl(2) == 6 * SECOND && Ttl(3) == 12 * SECOND && Ttl(4) == 24 * SECOND
            && Ttl(5) == 48 * SECOND && Ttl(6) == 300 * SECOND && Ttl(7) == 1800 * SECOND
    ensures forall n: nat :: n >= 8 ==> Ttl(n) == 3600 * SECOND
  {
    assert Shifted(BASE_TTL, 1) == 6 * SECOND;
    assert Shifted(BASE_TTL, 2) == 12 * SECOND;
    assert Shifted(BASE_TTL, 3) == 24 * SECOND;
    assert Shifted(BASE_TTL, 4) == 48 * SECOND;
  }

  lemma TtlMonotone(a: nat, b: nat)
    requires a <= b
    ensures Ttl(a) <= Ttl(b) <= MAX_TTL
    ensures b > 0 ==> Ttl(b) >= BASE_TTL
  {
    TtlSteps();
  }

  /** How a failure moves the failure count; the floor lets quota and rate errors skip the slow ramp. */
  function Failed(fails: nat, floor: nat): nat {
    (if fails < floor then floor else fails) + 1
  }

  /** The failure count after a run of failures with no success in between. */
  function FailedRun(fails: nat, floors: seq<nat>): nat {
    if floors == [] then fails else Failed(FailedRun(fails, floors[..|floors| - 1]), floors[|floors| - 1])
  }

  /** Along a run of failures blacklist times never shrink, reach the hour after eight, and never pass it. */
  lemma {:induction false} BackoffGrows(fails: nat, floors: seq<nat>, floor: nat)
    ensures Ttl(FailedRun(fails, floors)) <= Ttl(FailedRun(fails, floors + [floor])) <= MAX_TTL
    ensures FailedRun(fails, floors) >= fails + |floors|
    ensures |floors| >= 8 ==> Ttl(FailedRun(fails, floors)) == MAX_TTL
    decreases |floors|
  {
    assert (floors + [floor])[..|floors|] == floors;
    TtlMonotone(FailedRun(fails, floors), FailedRun(fails, floors + [floor]));
    if floors != [] {
      BackoffGrows(fails, floors[..|floors| - 1], floors[|floors| - 1]);
    }
  }

  // ----- the rotation -----

  /** The indices in the order a search starting at `start` visits them. */
  function Cycle(n: nat, start: nat): (s: seq<nat>)
    requires start < n
    ensures |s| == n && forall i :: 0 <= i < n ==> s[i] == (start + i) % n
  {
    seq(n, i requires 0 <= i < n => (start + i) % n)
  }

  function Kept(up: set<nat>, s: seq<nat>): (r: seq<nat>)
    ensures forall i :: i in r <==> i in s && i in up
  {
    if s == [] then [] else (if s[0] in up then [s[0]] else []) + Kept(up, s[1..])
  }

  /** The healthy endpoints in the order of the search. */
  function Turns(up: set<nat>, n: nat, start: nat): seq<nat>
    requires start < n
  {
    Kept(up, Cycle(n, start))
  }

  lemma {:induction false} KeptAppend(up: set<nat>, a: seq<nat>, b: seq<nat>)
    ensures Kept(up, a + b) == Kept(up, a) + Kept(up, b)
  {
    if a == [] {
      assert a + b == b;
    } else {
      assert (a + b)[1..] == a[1..] + b && (a + b)[0] == a[0];
      KeptAppend(up, a[1..], b);
    }
  }

  lemma {:induction false} KeptDistinct(up: set<nat>, s: seq<nat>)
    requires forall i, j :: 0 <= i < j < |s| ==> s[i] != s[j]
    ensures forall i, j :: 0 <= i < j < |Kept(up, s)| ==> Kept(up, s)[i] != Kept(up, s)[j]
  {
    if s != [] {
      KeptDistinct(up, s[1..]);
      assert s[0] !in s[1..];
    }
  }

  lemma ModStep(a: nat, b: nat, n: nat)
    requires n > 0 && a < n && b <= n
    ensures (a + b) % n == if a + b < n then a + b else if a + b < 2 * n then a + b - n else 0
  {
    if a + b >= n {
      assert (a + b) == n * 1 + (a + b - n);
    }
  }

  lemma CycleDistinct(n: nat, start: nat)
    requires start < n
    ensures forall i, j :: 0 <= i < j < n ==> Cycle(n, start)[i] != Cycle(n, start)[j]
    ensures forall k: nat :: k < n ==> k in Cycle(n, start)
    ensures forall k <- Cycle(n, start) :: k < n
  {
    forall i: nat | i < n ensures Cycle(n, start)[i] == if start + i < n then start + i else start + i - n {
      ModStep(start, i, n);
    }
    forall k: nat | k < n ensures k in Cycle(n, start) {
      var i := if k >= start then k - start else k + n - start;
      assert Cycle(n, start)[i] == k;
    }
  }

  /** Starting d places further on rotates the order by d. */
  lemma CycleRotates(n: nat, start: nat, d: nat)
    requires start < n && d <= n
    ensures (start + d) % n < n
    ensures Cycle(n, (start + d) % n) == Cycle(n, start)[d..] + Cycle(n, start)[..d]
  {
    ModStep(start, d, n);
    var s := (start + d) % n;
    forall i: nat | i < n ensures Cycle(n, s)[i] == (Cycle(n, start)[d..] + Cycle(n, start)[..d])[i] {
      ModStep(s, i, n);
      if i < n - d { ModStep(start, d + i, n); } else { ModStep(start, d + i - n, n); }
    }
  }

  lemma {:induction false} KeptFirst(up: set<nat>, s: seq<nat>) returns (d: nat)
    requires Kept(up, s) != []
    ensures d < |s| && s[d] == Kept(up, s)[0] && Kept(up, s[..d + 1]) == [s[d]]
            && Kept(up, s[d + 1..]) == Kept(up, s)[1..]
  {
    if s[0] in up {
      d := 0;
      assert s[..1] == [s[0]];
    } else {
      assert Kept(up, s) == [] + Kept(up, s[1..]) == Kept(up, s[1..]);
      var e := KeptFirst(up, s[1..]);
      d := e + 1;
      assert s[d + 1..] == s[1..][e + 1..];
      assert s[..d + 1][1..] == s[1..][..e + 1] && s[..d + 1][0] == s[0];
      assert Kept(up, s[..d + 1]) == [] + Kept(up, s[1..][..e + 1]);
    }
  }

  /** After the pick of the first healthy endpoint, it moves to the end of the order. */
  lemma TurnRotates(up: set<nat>, n: nat, start: nat)
    requires start < n && Turns(up, n, start) != []
    ensures var t := Turns(up, n, start);
            Turns(up, n, (t[0] + 1) % n) == t[1..] + [t[0]]
  {
    var c := Cycle(n, start);
    var d := KeptFirst(up, c);
    CycleDistinct(n, start);
    assert c[d] == (start + d) % n;
    PlaceAfter(n, start, d);
    CycleRotates(n, start, d + 1);
    KeptAppend(up, c[d + 1..], c[..d + 1]);
  }

  lemma PlaceAfter(n: nat, start: nat, d: nat)
    requires start < n && d < n
    ensures (start + d) % n < n && ((start + d) % n + 1) % n == (start + (d + 1)) % n
  {
    ModStep(start, d, n);
    ModStep(start, d + 1, n);
    ModStep((start + d) % n, 1, n);
  }

  /** The next k picks while the healthy set stays `up`. */
  function Picks(up: set<nat>, n: nat, start: nat, k: nat): seq<nat>
    requires start < n
    decreases k
  {
    var t := Turns(up, n, start);
    if k == 0 || t == [] then [] else [t[0]] + Picks(up, n, (t[0] + 1) % n, k - 1)
  }

  lemma {:induction false} PicksFollowTurns(up: set<nat>, n: nat, start: nat, k: nat)
    requires start < n && k <= |Turns(up, n, start)|
    ensures Picks(up, n, start, k) == Turns(up, n, start)[..k]
    decreases k
  {
    var t := Turns(up, n, start);
    if k > 0 {
      TurnRotates(up, n, start);
      PicksFollowTurns(up, n, (t[0] + 1) % n, k - 1);
      assert (t[1..] + [t[0]])[..k - 1] == t[1..k];
    }
  }

  ghost predicate EachOnce(ps: seq<nat>, up: set<nat>) {
    && |ps| == |up|
    && (forall i, j :: 0 <= i < j < |ps| ==> ps[i] != ps[j])
    && (forall i :: i in ps <==> i in up)
  }

  /** While the healthy set is unchanged, as many picks in a row as there are healthy endpoints visit
      each of them exactly once, from whatever place the rotation starts. */
  lemma Rotation(up: set<nat>, n: nat, start: nat)
    requires start < n && forall i <- up :: i < n
    ensures EachOnce(Picks(up, n, start, |up|), up)
  {
    var t := Turns(up, n, start);
    CycleDistinct(n, start);
    KeptDistinct(up, Cycle(n, start));
    CountDistinct(t, up);
    PicksFollowTurns(up, n, start, |t|);
    assert t[..|t|] == t;
  }

  lemma {:induction false} CountDistinct(s: seq<nat>, members: set<nat>)
    requires (forall i, j :: 0 <= i < j < |s| ==> s[i] != s[j]) && forall i :: i in s <==> i in members
    ensures |s| == |members|
    decreases |s|
  {
    if s == [] {
      assert members == {};
    } else {
      var rest := s[1..];
      assert forall i :: i in rest <==> i in members - {s[0]};
      CountDistinct(rest, members - {s[0]});
    }
  }

  // ----- the endpoint table -----

  function Up(es: seq<Endpoint>, now: nat): set<nat> {
    set i: nat | i < |es| && Healthy(es[i], now)
  }

  /** The pick: the first healthy endpoint from `next` on; or else the one whose blacklist ends first, the
      lowest index among equals. */
  ghost predicate IsPick(es: seq<Endpoint>, next: nat, now: nat, r: nat)
    requires |es| > 0
  {
    var t := Turns(Up(es, now), |es|, next % |es|);
    && r < |es|
    && (t != [] ==> r == t[0])
    && (t == [] ==>
         (forall i :: 0 <= i < |es| ==> es[r].till <= es[i].till) && forall i :: 0 <= i < r ==> es[r].till < es[i].till)
  }

  lemma UpMeansTurns(es: seq<Endpoint>, next: nat, now: nat)
    requires |es| > 0
    ensures Turns(Up(es, now), |es|, next % |es|) == [] <==> forall i :: 0 <= i < |es| ==> !Healthy(es[i], now)
  {
    var t := Turns(Up(es, now), |es|, next % |es|);
    CycleDistinct(|es|, next % |es|);
    forall i: nat | i < |es| && Healthy(es[i], now) ensures i in t { }
    if t != [] {
      assert t[0] in t && t[0] in Up(es, now);
    }
  }

  lemma KeptSmall(up: set<nat>, x: nat)
    ensures Kept(up, []) == [] && Kept(up, [x]) == if x in up then [x] else []
  {
    assert [x][1..] == [];
  }

  /** One look of the search, at the i-th index. */
  lemma KeptScan(up: set<nat>, c: seq<nat>, i: nat)
    requires i < |c| && Kept(up, c[..i]) == []
    ensures c[i] in up ==> Kept(up, c) != [] && Kept(up, c)[0] == c[i]
    ensures c[i] !in up ==> Kept(up, c[..i + 1]) == []
  {
    hide Kept;
    KeptSmall(up, c[i]);
    assert c[..i + 1] == c[..i] + [c[i]];
    KeptAppend(up, c[..i], [c[i]]);
    assert c == c[..i + 1] + c[i + 1..];
    KeptAppend(up, c[..i + 1], c[i + 1..]);
  }

  /** A blacklisted endpoint is not picked while any other is healthy. */
  lemma BlacklistedIsSkipped(es: seq<Endpoint>, next: nat, now: nat, r: nat, i: nat)
    requires |es| > 0 && i < |es| && IsPick(es, next, now, r) && !Healthy(es[i], now)
    requires exists j :: 0 <= j < |es| && Healthy(es[j], now)
    ensures r != i && Healthy(es[r], now)
  {
    UpMeansTurns(es, next, now);
    var t := Turns(Up(es, now), |es|, next % |es|);
    assert t[0] in t;
  }

  lemma {:induction false} FirstOf(up: set<nat>, s: seq<nat>) returns (d: nat)
    requires Kept(up, s) != []
    ensures d < |s| && s[d] == Kept(up, s)[0] && s[d] in up && forall j :: 0 <= j < d ==> s[j] !in up
  {
    d := 0;
    if s[0] !in up {
      var e := FirstOf(up, s[1..]);
      d := e + 1;
    }
  }

  /** Going round from `start`, number d is healthy and none before it is. */
  ghost predicate FirstHealthy(es: seq<Endpoint>, start: nat, now: nat, d: nat)
    requires start < |es|
  {
    d < |es| && Healthy(es[Cycle(|es|, start)[d]], now)
      && forall j :: 0 <= j < d ==> !Healthy(es[Cycle(|es|, start)[j]], now)
  }

  /** The pick, endpoint by endpoint: the first healthy one going round from `next`; and if none is healthy, the
      one that comes back first. */
  lemma PickMeans(es: seq<Endpoint>, next: nat, now: nat, r: nat)
    requires |es| > 0 && IsPick(es, next, now, r)
    ensures if exists i :: 0 <= i < |es| && es[i].till <= now
            then exists d: nat :: FirstHealthy(es, next % |es|, now, d) && r == (next % |es| + d) % |es|
            else forall i :: 0 <= i < |es| ==> es[r].till <= es[i].till
  {
    hide Kept;
    UpMeansTurns(es, next, now);
    if exists i :: 0 <= i < |es| && es[i].till <= now {
      var i :| 0 <= i < |es| && es[i].till <= now;
      assert Healthy(es[i], now);
      var d := FirstOf(Up(es, now), Cycle(|es|, next % |es|));
      FirstIs(es, next % |es|, now, d);
    }
  }

  lemma FirstIs(es: seq<Endpoint>, start: nat, now: nat, d: nat)
    requires start < |es| && d < |es|
    requires Cycle(|es|, start)[d] in Up(es, now)
    requires forall j :: 0 <= j < d ==> Cycle(|es|, start)[j] !in Up(es, now)
    ensures FirstHealthy(es, start, now, d)
  {
    hide Cycle;
    CycleDistinct(|es|, start);
    var c := Cycle(|es|, start);
    forall j | 0 <= j < d ensures !Healthy(es[c[j]], now) { assert c[j] in c; }
  }

  datatype Outcome =
    | TransportError | ReadError | Status403 | Status429 | StatusOther
    | TooLarge | ErrorPage(hard: bool) | BadBatch
    | Empty | Reply(frames: nat)
    | Cancelled

  predicate Succeeds(o: Outcome) {
    o.Empty? || o.Reply?
  }

  /** The floor with which a failure counts: 5 for quota and authorisation errors, 3 for rate limits. */
  function Floor(o: Outcome): nat {
    if o.Status403? || (o.ErrorPage? && o.hard) then 5 else if o.Status429? then 3 else 0
  }

  function Marked(e: Endpoint, o: Outcome, now: nat): Endpoint {
    if Succeeds(o) then Endpoint(0, 0, e.statsOK + 1, e.statsFail)
    else if o.Cancelled? then e
    else
      var fails := Failed(e.fails, Floor(o));
      Endpoint(now + Ttl(fails), fails, e.statsOK, e.statsFail + 1)
  }

  /** What the last answer of a poll says to the worker: was there anything to do. */
  function DidWork(sent: bool, o: Outcome): bool {
    match o
    case TooLarge => sent
    case ErrorPage(_) => sent
    case BadBatch => sent
    case Empty => sent
    case Reply(n) => sent || n > 0
    case _ => false
  }

  ghost predicate Penalised(e: Endpoint, least: nat, answered: nat) {
    e.fails >= 1 && e.till >= answered + least
  }

  /** What an answer means for the endpoint that gave it, whatever it did before: clean after a reply or an empty
      answer, out for five minutes after a refusal, for 24 s after a rate limit, for 3 s after any other failure. */
  ghost predicate Treated(o: Outcome, e: Endpoint, answered: nat) {
    match o
    case Empty => e.fails == 0 && e.till == 0
    case Reply(_) => e.fails == 0 && e.till == 0
    case Cancelled => true
    case Status403 => Penalised(e, 300 * SECOND, answered)
    case ErrorPage(hard) => Penalised(e, if hard then 300 * SECOND else 3 * SECOND, answered)
    case Status429 => Penalised(e, 24 * SECOND, answered)
    case TransportError => Penalised(e, 3 * SECOND, answered)
    case ReadError => Penalised(e, 3 * SECOND, answered)
    case StatusOther => Penalised(e, 3 * SECOND, answered)
    case TooLarge => Penalised(e, 3 * SECOND, answered)
    case BadBatch => Penalised(e, 3 * SECOND, answered)
  }

  lemma MarkedTreats(e: Endpoint, o: Outcome, answered: nat)
    ensures Treated(o, Marked(e, o, answered), answered) && (o.Cancelled? ==> Marked(e, o, answered) == e)
  {
    TtlSteps();
    var fails := Failed(e.fails, Floor(o));
    TtlMonotone(1, fails);
    if fails >= 4 { TtlMonotone(4, fails); }
    if fails >= 6 { TtlMonotone(6, fails); }
  }

  lemma Exhausted(ps: seq<nat>, all: seq<nat>, up: set<nat>)
    requires EachOnce(all, up) && ps <= all && |ps| == |up|
    ensures EachOnce(ps, up)
  {
    assert ps == all;
  }

  lemma UpBelow(es: seq<Endpoint>, times: seq<nat>, up: set<nat>)
    requires |times| == |up| && forall t <- times :: Up(es, t) == up
    ensures forall i <- up :: i < |es|
  {
    if up != {} {
      assert times[0] in times;
    }
  }

  /** Clearing a healthy endpoint changes no look at the healthy ones. */
  lemma StillUp(es: seq<Endpoint>, r: nat, times: seq<nat>, up: set<nat>)
    requires r in up && forall t <- times :: Up(es, t) == up
    ensures forall e: Endpoint, t <- times :: r < |es| && e.till == 0 ==> Up(es[r := e], t) == up
  {
    forall e: Endpoint, t <- times | r < |es| && e.till == 0 ensures Up(es[r := e], t) == up {
      assert forall i: nat :: i in Up(es[r := e], t) <==> i in Up(es, t) || i == r;
    }
  }

  /** A pick is the first of the picks to come. */
  lemma PickFirst(es: seq<Endpoint>, next: nat, now: nat, r: nat, up: set<nat>, k: nat)
    requires |es| > 0 && IsPick(es, next, now, r) && Up(es, now) == up && up != {} && k > 0
    ensures var n := |es|;
            r in up && (r + 1) % n % n == (r + 1) % n
              && Picks(up, n, next % n, k) == [r] + Picks(up, n, (r + 1) % n, k - 1)
  {
    hide Kept, Cycle;
    var n := |es|;
    var i :| i in up;
    assert i in Up(es, now);
    UpMeansTurns(es, next, now);
    assert r in Turns(up, n, next % n);
    ModStep(0, (r + 1) % n, n);
  }

  class Relays {
    const endpoints: array<Endpoint>
    var next: nat

    constructor (n: nat)
      ensures fresh(endpoints) && endpoints.Length == n && next == 0
      ensures forall i :: 0 <= i < n ==> endpoints[i] == Endpoint(0, 0, 0, 0)
    {
      endpoints := new Endpoint[n](i => Endpoint(0, 0, 0, 0));
      next := 0;
    }

    method Pick(now: nat) returns (r: int)
      modifies this`next
      ensures endpoints.Length == 0 ==> r == -1 && next == old(next)
      ensures endpoints.Length > 0 ==>
                r >= 0 && IsPick(endpoints[..], old(next), now, r) && next == (r + 1) % endpoints.Length
    {
      hide Kept, Cycle;
      var n := endpoints.Length;
      if n == 0 {
        return -1;
      }
      var start := next % n;
      ghost var up, c := Up(endpoints[..], now), Cycle(n, start);
      KeptSmall(up, 0);
      assert c[..0] == [];
      for i := 0 to n
        invariant next == old(next)
        invariant Kept(up, c[..i]) == []
      {
        var idx := (start + i) % n;
        KeptScan(up, c, i);
        if endpoints[idx].till <= now {
          next := (idx + 1) % n;
          return idx;
        }
      }
      assert c[..n] == c;
      var chosen, soonest := 0, endpoints[0].till;
      for i := 1 to n
        invariant 0 <= chosen < n && soonest == endpoints[chosen].till && chosen < i
        invariant forall k :: 0 <= k < i ==> soonest <= endpoints[k].till
        invariant forall k :: 0 <= k < chosen ==> soonest < endpoints[k].till
      {
        if endpoints[i].till < soonest {
          chosen, soonest := i, endpoints[i].till;
        }
      }
      next := (chosen + 1) % n;
      return chosen;
    }

    /** As many picks in a row as there are healthy endpoints, at times when these are the same ones, visit each
        of them exactly once; some of the answers may have succeeded before the next pick. */
    method PickRound(times: seq<nat>, ghost up: set<nat>) returns (ps: seq<nat>)
      requires endpoints.Length > 0 && |times| == |up| && forall t <- times :: Up(endpoints[..], t) == up
      modifies this`next, endpoints
      ensures EachOnce(ps, up)
    {
      hide Up, IsPick, Picks, EachOnce;
      ghost var all := Picks(up, endpoints.Length, next % endpoints.Length, |up|);
      UpBelow(endpoints[..], times, up);
      Rotation(up, endpoints.Length, next % endpoints.Length);
      ps := [];
      for k := 0 to |times|
        invariant |ps| == k
        invariant forall t <- times :: Up(endpoints[..], t) == up
        invariant ps + Picks(up, endpoints.Length, next % endpoints.Length, |up| - k) == all
      {
        var r := PickOnce(times, k, up);
        ps := ps + [r];
      }
      Exhausted(ps, all, up);
    }

    method PickOnce(times: seq<nat>, k: nat, ghost up: set<nat>) returns (r: nat)
      requires endpoints.Length > 0 && k < |times| == |up| && forall t <- times :: Up(endpoints[..], t) == up
      modifies this`next, endpoints
      ensures r in up && forall t <- times :: Up(endpoints[..], t) == up
      ensures var n := endpoints.Length;
              Picks(up, n, old(next) % n, |up| - k) == [r] + Picks(up, n, next % n, |up| - (k + 1))
    {
      hide Up, IsPick, Picks;
      r := Pick(times[k]);
      PickFirst(endpoints[..], old(next), times[k], r, up, |up| - k);
      var answered: bool := *;
      if answered {
        StillUp(endpoints[..], r, times, up);
        MarkSuccess(r);
      }
    }

    method MarkSuccess(i: int)
      modifies endpoints
      ensures endpoints[..] == if 0 <= i < endpoints.Length
                               then old(endpoints[..])[i := Endpoint(0, 0, old(endpoints[i].statsOK) + 1,
                                   old(endpoints[i].statsFail))]
                               else old(endpoints[..])
    {
      if i < 0 || i >= endpoints.Length {
        return;
      }
      var e := endpoints[i];
      endpoints[i] := e.(statsOK := e.statsOK + 1, fails := 0, till := 0);
    }

    method MarkFailureWith(i: int, minFailCount: nat, now: nat)
      modifies endpoints
      ensures endpoints[..] == if 0 <= i < endpoints.Length
                               then
                                 var e := old(endpoints[i]);
                                 var fails := Failed(e.fails, minFailCount);
                                 old(endpoints[..])[i := Endpoint(now + Ttl(fails), fails, e.statsOK, e.statsFail + 1)]
                               else old(endpoints[..])
    {
      if i < 0 || i >= endpoints.Length {
        return;
      }
      var e := endpoints[i];
      var fails := e.fails;
      if minFailCount > 0 && fails < minFailCount {
        fails := minFailCount;
      }
      fails := fails + 1;
      endpoints[i] := Endpoint(now + Ttl(fails), fails, e.statsOK, e.statsFail + 1);
    }

    method Mark(i: nat, o: Outcome, now: nat)
      requires i < endpoints.Length
      modifies endpoints
      ensures endpoints[..] == old(endpoints[..])[i := Marked(old(endpoints[i]), o, now)]
    {
      if Succeeds(o) {
        MarkSuccess(i);
      } else if !o.Cancelled? {
        MarkFailureWith(i, Floor(o), now);
      } else {
        assert endpoints[..] == endpoints[..][i := endpoints[i]];
      }
    }

    /** One post of a poll's body, and what its answer does to the endpoint it went to. */
    method Attempt(o: Outcome, picked: nat, answered: nat) returns (r: nat)
      requires endpoints.Length > 0
      modifies this`next, endpoints
      ensures r < endpoints.Length && IsPick(old(endpoints[..]), old(next), picked, r)
              && next == (r + 1) % endpoints.Length
      ensures endpoints[..] == old(endpoints[..])[r := Marked(old(endpoints[r]), o, answered)]
    {
      var p := Pick(picked);
      Mark(p, o, answered);
      r := p;
    }

    /** The attempts of one poll: its one body is posted a second time exactly when there is more than one
        endpoint and the first post failed in any way but by the end of the context; then, while the first
        endpoint's blacklist lasts, it goes to another one if any is healthy. Every endpoint posted to is
        treated as its last answer deserves, and no other one changes. `outcomes[a]` answers attempt a, picked and
        answered at `times`. */
    method PollOnce(sent: bool, outcomes: seq<Outcome>, times: seq<nat>) returns (posts: seq<nat>, didWork: bool)
      requires |outcomes| == 2 && |times| == 4
      modifies this`next, endpoints
      ensures |posts| == if endpoints.Length == 0 then 0
                         else if endpoints.Length == 1 || outcomes[0].Empty? || outcomes[0].Reply?
                                 || outcomes[0].Cancelled? then 1 else 2
      ensures forall k :: 0 <= k < |posts| ==> posts[k] < endpoints.Length
      ensures |posts| > 0 ==> IsPick(old(endpoints[..]), old(next), times[0], posts[0])
      ensures didWork <==> |posts| > 0 && match outcomes[|posts| - 1] {
                case Reply(n) => sent || n > 0
                case Empty => sent
                case TooLarge => sent
                case ErrorPage(_) => sent
                case BadBatch => sent
                case _ => false
              }
      ensures forall k :: 0 <= k < |posts| && posts[k] !in posts[k + 1..] ==>
                Treated(outcomes[k], endpoints[posts[k]], times[2 * k + 1])
      ensures forall i :: 0 <= i < endpoints.Length && i !in posts ==> endpoints[i] == old(endpoints[i])
      ensures |posts| == 1 && outcomes[0].Cancelled? ==> endpoints[..] == old(endpoints[..])
      ensures |posts| == 2 && times[2] < times[1] + BASE_TTL
              && (exists j :: 0 <= j < endpoints.Length && j != posts[0] && Healthy(old(endpoints[j]), times[2])) ==>
                posts[1] < endpoints.Length && posts[1] != posts[0] && Healthy(old(endpoints[posts[1]]), times[2])
    {
      hide Marked, IsPick;
      posts, didWork := [], false;
      if endpoints.Length == 0 {
        return;
      }
      var first := Attempt(outcomes[0], times[0], times[1]);
      MarkedTreats(old(endpoints[first]), outcomes[0], times[1]);
      posts := [first];
      didWork := DidWork(sent, outcomes[0]);
      if endpoints.Length > 1 && !Succeeds(outcomes[0]) && !outcomes[0].Cancelled? {
        ghost var mid := endpoints[..];
        ghost var start := next;
        var second := Attempt(outcomes[1], times[2], times[3]);
        MarkedTreats(mid[second], outcomes[1], times[3]);
        posts := [first, second];
        didWork := DidWork(sent, outcomes[1]);
        if times[2] < times[1] + BASE_TTL
           && exists j :: 0 <= j < endpoints.Length && j != first && Healthy(old(endpoints[j]), times[2]) {
          var j :| 0 <= j < endpoints.Length && j != first && Healthy(old(endpoints[j]), times[2]);
          assert Healthy(mid[j], times[2]);
          BlacklistedIsSkipped(mid, start, times[2], second, first);
        }
      }
    }
  }
}
