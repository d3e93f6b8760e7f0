/** The fixed-window limiter of refund claims (routes/refundClaimRoutes.js). */
module ClaimLimiter {
  import opened Wrappers

  const CLAIM_WINDOW_MS := 10 * 60 * 1000
  const CLAIM_MAX := 5

  type UserId = string

  datatype Bucket = Bucket(count: nat, resetAt: int)

  type Buckets = map<UserId, Bucket>

  function Lookup(buckets: Buckets, user: UserId): Option<Bucket> {
    if user in buckets then Some(buckets[user]) else None
  }

  /** A claim opens a window when none is running; the last instant `resetAt`
      still belongs to the window. */
  predicate Opens(bucket: Option<Bucket>, now: int) {
    bucket.None? || now > bucket.value.resetAt
  }

  function Counted(bucket: Option<Bucket>, now: int): Bucket {
    if Opens(bucket, now) then Bucket(1, now + CLAIM_WINDOW_MS)
    else Bucket(bucket.value.count + 1, bucket.value.resetAt)
  }

  predicate Passes(bucket: Bucket) {
    bucket.count <= CLAIM_MAX
  }

  class ClaimBuckets {
    var claimBuckets: Buckets

    constructor ()
      ensures claimBuckets == map[]
    {
      claimBuckets := map[];
    }

    /** Returns whether the request goes on to the handler. */
    method ClaimRateLimit(user: Option<UserId>, now: int) returns (passed: bool)
      modifies this
      ensures user.None? ==> passed && claimBuckets == old(claimBuckets)
      ensures user.Some? ==>
                var counted := Counted(Lookup(old(claimBuckets), user.value), now);
                && claimBuckets == old(claimBuckets)[user.value := counted]
                && (passed <==> Passes(counted))
      ensures user.Some? ==>
                var was, key := old(claimBuckets), user.value;
                if key !in was || now > was[key].resetAt then
                  passed && claimBuckets == was[key := Bucket(1, now + 600_000)]
                else
                  && (passed <==> was[key].count < 5)
                  && claimBuckets == was[key := Bucket(was[key].count + 1, was[key].resetAt)]
    {
      if user.None? {
        return true;
      }
      var key := user.value;
      if key !in claimBuckets || now > claimBuckets[key].resetAt {
        claimBuckets := claimBuckets[key := Bucket(0, now + CLAIM_WINDOW_MS)];
      }
      var b := claimBuckets[key];
      claimBuckets := claimBuckets[key := b.(count := b.count + 1)];
      if claimBuckets[key].count > CLAIM_MAX {
        return false;
      }
      return true;
    }
  }

  /** A rejected claim leaves the end of the window where it was, and a claim
      that opens a window always passes. */
  lemma RejectedNeverExtends(bucket: Option<Bucket>, now: int)
    ensures Passes(Counted(bucket, now)) <==> bucket.None? || now > bucket.value.resetAt || bucket.value.count < 5
    ensures !Passes(Counted(bucket, now)) ==> bucket.Some? && Counted(bucket, now).resetAt == bucket.value.resetAt
    ensures Opens(bucket, now) ==> Passes(Counted(bucket, now))
  {
  }

  // ----- Runs

  datatype Claim = Claim(user: UserId, now: int)

  datatype Log = Log(buckets: Buckets, decisions: seq<(UserId, bool)>)

  function Run(es: seq<Claim>): Log {
    if es == [] then Log(map[], [])
    else
      var log := Run(es[..|es| - 1]);
      var e := es[|es| - 1];
      var counted := Counted(Lookup(log.buckets, e.user), e.now);
      Log(log.buckets[e.user := counted], log.decisions + [(e.user, Passes(counted))])
  }

  function TimesOf(es: seq<Claim>, user: UserId): seq<int> {
    if es == [] then []
    else
      var rest := TimesOf(es[..|es| - 1], user);
      if es[|es| - 1].user == user then rest + [es[|es| - 1].now] else rest
  }

  function DecisionsOf(ds: seq<(UserId, bool)>, user: UserId): seq<bool> {
    if ds == [] then []
    else
      var rest := DecisionsOf(ds[..|ds| - 1], user);
      if ds[|ds| - 1].0 == user then rest + [ds[|ds| - 1].1] else rest
  }

  /** A claim that passed: when, in which window (from 1), and as which claim of
      that window (from 1). */
  datatype Pass = Pass(at: int, window: nat, nth: nat)

  /** One user's history: opening times of all windows and all passing claims. */
  datatype Track = Track(bucket: Option<Bucket>, openings: seq<int>, passes: seq<Pass>, decisions: seq<bool>)

  function Advance(k: Track, now: int): Track {
    var counted := Counted(k.bucket, now);
    var openings := if Opens(k.bucket, now) then k.openings + [now] else k.openings;
    Track(Some(counted),
          openings,
          if Passes(counted) then k.passes + [Pass(now, |openings|, counted.count)] else k.passes,
          k.decisions + [Passes(counted)])
  }

  function Follow(ts: seq<int>): Track {
    if ts == [] then Track(None, [], [], [])
    else Advance(Follow(ts[..|ts| - 1]), ts[|ts| - 1])
  }

  /** Users do not affect each other: what a user sees in a shared run is what
      they see alone. */
  lemma {:induction false} UsersIndependent(es: seq<Claim>, user: UserId)
    ensures Lookup(Run(es).buckets, user) == Follow(TimesOf(es, user)).bucket
    ensures DecisionsOf(Run(es).decisions, user) == Follow(TimesOf(es, user)).decisions
  {
    if es == [] {
    } else {
      var init, e := es[..|es| - 1], es[|es| - 1];
      UsersIndependent(init, user);
      var ds := Run(init).decisions;
      var d := (e.user, Passes(Counted(Lookup(Run(init).buckets, e.user), e.now)));
      assert (ds + [d])[..|ds|] == ds;
      if e.user == user {
        var ts := TimesOf(init, user);
        assert (ts + [e.now])[..|ts|] == ts;
      }
    }
  }

  // ----- The shape of a user's history

  predicate Sorted(ts: seq<int>) {
    forall i, j :: 0 <= i <= j < |ts| ==> ts[i] <= ts[j]
  }

  /** Windows are more than CLAIM_WINDOW_MS apart. */
  predicate Apart(openings: seq<int>) {
    forall i :: 0 <= i < |openings| - 1 ==> openings[i + 1] > openings[i] + CLAIM_WINDOW_MS
  }

  /** A pass lies in its window, and the first of a window opened it. */
  predicate Placed(p: Pass, openings: seq<int>) {
    && 1 <= p.window <= |openings|
    && 1 <= p.nth <= CLAIM_MAX
    && openings[p.window - 1] <= p.at <= openings[p.window - 1] + CLAIM_WINDOW_MS
    && (p.nth == 1 ==> p.at == openings[p.window - 1])
  }

  /** The next pass of a window, or the first of the next window. */
  predicate Follows(p: Pass, q: Pass) {
    || (q.window == p.window && q.nth == p.nth + 1)
    || (q.window == p.window + 1 && q.nth == 1)
  }

  predicate AllPlaced(passes: seq<Pass>, openings: seq<int>) {
    forall i :: 0 <= i < |passes| ==> Placed(passes[i], openings)
  }

  predicate Successive(passes: seq<Pass>) {
    forall i :: 0 <= i < |passes| - 1 ==> Follows(passes[i], passes[i + 1])
  }

  /** The bucket is that of the last window, and the last pass its latest one. */
  predicate Current(bucket: Bucket, openings: seq<int>, passes: seq<Pass>) {
    && openings != [] && passes != []
    && bucket.resetAt == openings[|openings| - 1] + CLAIM_WINDOW_MS
    && passes[|passes| - 1].window == |openings|
    && passes[|passes| - 1].nth == if bucket.count <= CLAIM_MAX then bucket.count else CLAIM_MAX
  }

  predicate Shape(k: Track) {
    && Apart(k.openings)
    && AllPlaced(k.passes, k.openings)
    && Successive(k.passes)
    && match k.bucket
       case None => k.openings == [] && k.passes == []
       case Some(b) => Current(b, k.openings, k.passes)
  }

  lemma ApartSnoc(openings: seq<int>, now: int)
    requires Apart(openings)
    requires openings != [] ==> now > openings[|openings| - 1] + CLAIM_WINDOW_MS
    ensures Apart(openings + [now])
  {
  }

  lemma AllPlacedLater(passes: seq<Pass>, openings: seq<int>, now: int)
    requires AllPlaced(passes, openings)
    ensures AllPlaced(passes, openings + [now])
  {
    forall i | 0 <= i < |passes|
      ensures Placed(passes[i], openings + [now])
    {
      assert Placed(passes[i], openings);
    }
  }

  lemma AllPlacedSnoc(passes: seq<Pass>, p: Pass, openings: seq<int>)
    requires AllPlaced(passes, openings) && Placed(p, openings)
    ensures AllPlaced(passes + [p], openings)
  {
  }

  lemma SuccessiveSnoc(passes: seq<Pass>, p: Pass)
    requires Successive(passes) && (passes != [] ==> Follows(passes[|passes| - 1], p))
    ensures Successive(passes + [p])
  {
  }

  lemma OpeningKeepsShape(k: Track, now: int)
    requires Shape(k) && Opens(k.bucket, now)
    ensures Shape(Advance(k, now))
  {
    var p := Pass(now, |k.openings| + 1, 1);
    ApartSnoc(k.openings, now);
    AllPlacedLater(k.passes, k.openings, now);
    AllPlacedSnoc(k.passes, p, k.openings + [now]);
    SuccessiveSnoc(k.passes, p);
    assert Advance(k, now) ==
           Track(Some(Bucket(1, now + CLAIM_WINDOW_MS)), k.openings + [now], k.passes + [p], k.decisions + [true]);
  }

  lemma CountingKeepsShape(k: Track, now: int)
    requires Shape(k) && !Opens(k.bucket, now) && k.openings[|k.openings| - 1] <= now
    ensures Shape(Advance(k, now))
  {
    var b := Bucket(k.bucket.value.count + 1, k.bucket.value.resetAt);
    var p := Pass(now, |k.openings|, b.count);
    assert Placed(k.passes[|k.passes| - 1], k.openings);
    if Passes(b) {
      AllPlacedSnoc(k.passes, p, k.openings);
      SuccessiveSnoc(k.passes, p);
      assert Current(b, k.openings, k.passes + [p]);
    }
    assert Advance(k, now) ==
           Track(Some(b), k.openings, if Passes(b) then k.passes + [p] else k.passes, k.decisions + [Passes(b)]);
  }

  lemma AdvanceKeepsShape(k: Track, now: int)
    requires Shape(k)
    requires k.openings != [] ==> k.openings[|k.openings| - 1] <= now
    ensures Shape(Advance(k, now))
  {
    if Opens(k.bucket, now) {
      OpeningKeepsShape(k, now);
    } else {
      CountingKeepsShape(k, now);
    }
  }

  lemma {:induction false} FollowShape(ts: seq<int>)
    requires Sorted(ts)
    ensures Shape(Follow(ts))
    ensures forall i :: 0 <= i < |Follow(ts).openings| ==> Follow(ts).openings[i] <= ts[|ts| - 1]
  {
    if ts == [] {
    } else {
      FollowShape(ts[..|ts| - 1]);
      AdvanceKeepsShape(Follow(ts[..|ts| - 1]), ts[|ts| - 1]);
    }
  }

  function Trues(ds: seq<bool>): nat {
    if ds == [] then 0 else Trues(ds[..|ds| - 1]) + if ds[|ds| - 1] then 1 else 0
  }

  /** Every claim is decided, and the passes are the positive decisions. */
  lemma {:induction false} PassesAreDecisions(ts: seq<int>)
    ensures |Follow(ts).decisions| == |ts| && Trues(Follow(ts).decisions) == |Follow(ts).passes|
  {
    if ts == [] {
    } else {
      var last := |ts| - 1;
      PassesAreDecisions(ts[..last]);
      var before, now := Follow(ts[..last]).decisions, Follow(ts).decisions;
      assert now[..last] == before;
    }
  }

  // ----- The bound

  lemma {:induction false} OpenedApart(openings: seq<int>, i: nat, j: nat)
    requires Apart(openings) && i <= j < |openings|
    ensures openings[j] - openings[i] >= (j - i) * (CLAIM_WINDOW_MS + 1)
    decreases j
  {
    if i == j {
    } else {
      OpenedApart(openings, i, j - 1);
    }
  }

  /** Between two passes there are at most CLAIM_MAX for each window boundary. */
  lemma {:induction false} PassesBetween(k: Track, i: nat, j: nat)
    requires Shape(k) && i <= j < |k.passes|
    ensures var p, q := k.passes[i], k.passes[j];
            p.window <= q.window && j - i <= CLAIM_MAX * (q.window - p.window) + q.nth - p.nth
    decreases j
  {
    if i == j {
    } else {
      PassesBetween(k, i, j - 1);
      assert Follows(k.passes[j - 1], k.passes[j]);
      assert Placed(k.passes[j - 1], k.openings);
    }
  }

  /** Passing claims i..j touch m windows: their number is at most m * CLAIM_MAX,
      and for m >= 2 they span more than (m - 2) windows of time. */
  lemma WindowsTouched(ts: seq<int>, i: nat, j: nat)
    requires Sorted(ts) && i <= j < |Follow(ts).passes|
    ensures var p, q := Follow(ts).passes[i], Follow(ts).passes[j];
            var m := q.window - p.window + 1;
            && m >= 1
            && j - i + 1 <= m * CLAIM_MAX
            && (m >= 2 ==> (m - 2) * CLAIM_WINDOW_MS < q.at - p.at)
            && (m >= 2 && p.nth == 1 ==> (m - 1) * CLAIM_WINDOW_MS < q.at - p.at)
  {
    FollowShape(ts);
    var k := Follow(ts);
    PassesBetween(k, i, j);
    assert Placed(k.passes[i], k.openings) && Placed(k.passes[j], k.openings);
    OpenedApart(k.openings, k.passes[i].window - 1, k.passes[j].window - 1);
  }

  /** A span of at most one window passes at most 2 * CLAIM_MAX - 1 claims: the
      claim that opens a window is itself one of its passes. */
  lemma SpanBound(ts: seq<int>, i: nat, j: nat)
    requires Sorted(ts) && i <= j < |Follow(ts).passes|
    requires Follow(ts).passes[j].at - Follow(ts).passes[i].at <= 600_000
    ensures j - i + 1 <= 9
  {
    WindowsTouched(ts, i, j);
    FollowShape(ts);
    var k := Follow(ts);
    PassesBetween(k, i, j);
    assert Placed(k.passes[i], k.openings) && Placed(k.passes[j], k.openings);
  }

  lemma {:induction false} TimesOfSorted(es: seq<Claim>, user: UserId)
    requires forall a, b :: 0 <= a <= b < |es| ==> es[a].now <= es[b].now
    ensures Sorted(TimesOf(es, user))
    ensures forall i :: 0 <= i < |TimesOf(es, user)| ==> TimesOf(es, user)[i] <= es[|es| - 1].now
  {
    if es == [] {
    } else {
      TimesOfSorted(es[..|es| - 1], user);
    }
  }

  /** The bound of `SpanBound` seen in a shared run. */
  lemma SpanBoundInRun(es: seq<Claim>, user: UserId, i: nat, j: nat)
    requires forall a, b :: 0 <= a <= b < |es| ==> es[a].now <= es[b].now
    requires var passes := Follow(TimesOf(es, user)).passes;
             i <= j < |passes| && passes[j].at - passes[i].at <= 600_000
    ensures DecisionsOf(Run(es).decisions, user) == Follow(TimesOf(es, user)).decisions
    ensures j - i + 1 <= 9
  {
    UsersIndependent(es, user);
    TimesOfSorted(es, user);
    SpanBound(TimesOf(es, user), i, j);
  }

  // ----- The bound is reached

  function Repeat(t: int, n: nat): seq<int> {
    if n == 0 then [] else Repeat(t, n - 1) + [t]
  }

  lemma FollowSnoc(ts: seq<int>, t: int)
    ensures Follow(ts + [t]) == Advance(Follow(ts), t)
  {
  }

  /** From k to k', `n` claims at time `t` were made and passed in the same window. */
  predicate Burst(k: Track, k': Track, t: int, n: nat) {
    && k.bucket.Some?
    && k'.bucket == Some(Bucket(k.bucket.value.count + n, k.bucket.value.resetAt))
    && |k'.passes| == |k.passes| + n
    && k.passes <= k'.passes
    && forall i :: |k.passes| <= i < |k'.passes| ==> k'.passes[i].at == t
  }

  lemma BurstStep(k: Track, k': Track, t: int, n: nat)
    requires Burst(k, k', t, n) && t <= k.bucket.value.resetAt && k.bucket.value.count + n < CLAIM_MAX
    ensures Burst(k, Advance(k', t), t, n + 1)
  {
  }

  /** Further claims at one instant of a running window all pass while there is room. */
  lemma {:induction false} FollowBurst(ts: seq<int>, t: int, n: nat)
    requires var k := Follow(ts);
             k.bucket.Some? && t <= k.bucket.value.resetAt && k.bucket.value.count + n <= CLAIM_MAX
    ensures Burst(Follow(ts), Follow(ts + Repeat(t, n)), t, n)
    decreases n
  {
    if n == 0 {
      assert ts + Repeat(t, 0) == ts;
    } else {
      FollowBurst(ts, t, n - 1);
      assert ts + Repeat(t, n) == (ts + Repeat(t, n - 1)) + [t];
      FollowSnoc(ts + Repeat(t, n - 1), t);
      BurstStep(Follow(ts), Follow(ts + Repeat(t, n - 1)), t, n - 1);
    }
  }

  lemma {:induction false} RepeatAll(t: int, n: nat)
    ensures |Repeat(t, n)| == n && forall i :: 0 <= i < n ==> Repeat(t, n)[i] == t
  {
    if n == 0 {
    } else {
      RepeatAll(t, n - 1);
    }
  }

  /** One claim, four more at the very end of its window, five a millisecond
      later: nine passing claims one millisecond apart. */
  lemma SpanBoundReached() returns (ts: seq<int>, i: nat, j: nat)
    ensures Sorted(ts) && i <= j < |Follow(ts).passes|
    ensures Follow(ts).passes[j].at - Follow(ts).passes[i].at <= 600_000
    ensures j - i + 1 == 9
  {
    var w := CLAIM_WINDOW_MS;
    var first := [0];
    FollowSnoc([], 0);
    assert [] + [0] == first;
    FollowBurst(first, w, CLAIM_MAX - 1);
    var second := first + Repeat(w, CLAIM_MAX - 1);
    FollowSnoc(second, w + 1);
    FollowBurst(second + [w + 1], w + 1, CLAIM_MAX - 1);
    ts := (second + [w + 1]) + Repeat(w + 1, CLAIM_MAX - 1);
    RepeatAll(w, CLAIM_MAX - 1);
    RepeatAll(w + 1, CLAIM_MAX - 1);
    i, j := 1, 2 * CLAIM_MAX - 1;
  }
}
