/** The socket connection limiter of server.js: at most RATE_LIMIT accepted
    attempts per address in any RATE_WINDOW, kept in a map that a periodic
    cleanup shrinks. Times are milliseconds. */
module ConnectionLimiter {
  const RATE_LIMIT := 10
  const RATE_WINDOW := 60 * 1000

  type Ip = string

  /** The stored map, address to times of accepted attempts. */
  type Table = map<Ip, seq<int>>

  function Recent(ts: seq<int>, now: int): (r: seq<int>)
    ensures |r| <= |ts|
  {
    if ts == [] then []
    else
      var rest := Recent(ts[..|ts| - 1], now);
      var t := ts[|ts| - 1];
      if now - t < RATE_WINDOW then rest + [t] else rest
  }

  function Stored(m: Table, ip: Ip): seq<int> {
    if ip in m then m[ip] else []
  }

  // ----- The limiter

  predicate Admits(m: Table, ip: Ip, now: int) {
    |Recent(Stored(m, ip), now)| < RATE_LIMIT
  }

  function Attempted(m: Table, ip: Ip, now: int): Table {
    if Admits(m, ip, now) then m[ip := Recent(Stored(m, ip), now) + [now]] else m
  }

  function Cleaned(m: Table, now: int): Table {
    map ip | ip in m && Recent(m[ip], now) != [] :: Recent(m[ip], now)
  }

  class ConnectionAttempts {
    var attempts: Table

    constructor ()
      ensures attempts == map[]
    {
      attempts := map[];
    }

    method Attempt(ip: Ip, now: int) returns (accepted: bool)
      modifies this
      ensures accepted <==> Admits(old(attempts), ip, now)
      ensures attempts == Attempted(old(attempts), ip, now)
    {
      var known := if ip in attempts then attempts[ip] else [];
      var recent := Recent(known, now);
      if |recent| >= RATE_LIMIT {
        return false;
      }
      recent := recent + [now];
      attempts := attempts[ip := recent];
      return true;
    }

    /** Evicts what has aged out, one entry at a time, while iterating. */
    method Cleanup(now: int)
      modifies this
      ensures attempts == Cleaned(old(attempts), now)
    {
      var todo := attempts.Keys;
      while todo != {}
        invariant todo <= old(attempts).Keys
        invariant forall ip :: ip in attempts ==> ip in old(attempts)
        invariant forall ip :: ip in todo ==> ip in attempts && attempts[ip] == old(attempts)[ip]
        invariant forall ip :: ip in old(attempts) && ip !in todo ==>
                    if Recent(old(attempts)[ip], now) == [] then ip !in attempts
                    else ip in attempts && attempts[ip] == Recent(old(attempts)[ip], now)
        decreases todo
      {
        var ip :| ip in todo;
        var recent := Recent(attempts[ip], now);
        if |recent| == 0 {
          attempts := attempts - {ip};
        } else {
          attempts := attempts[ip := recent];
        }
        todo := todo - {ip};
      }
    }
  }

  // ----- Runs of the limiter, and the specification over the full history

  datatype Event = Attempt(ip: Ip, now: int) | Cleanup(now: int)

  datatype Accepted = Accepted(ip: Ip, at: int)

  datatype Log = Log(table: Table, history: seq<Accepted>, decisions: seq<bool>)

  /** The limiter on a sequence of events, with everything it ever accepted. */
  function Run(es: seq<Event>): Log {
    if es == [] then Log(map[], [], [])
    else
      var log := Run(es[..|es| - 1]);
      match es[|es| - 1]
      case Cleanup(now) => log.(table := Cleaned(log.table, now))
      case Attempt(ip, now) =>
        var ok := Admits(log.table, ip, now);
        Log(Attempted(log.table, ip, now),
            if ok then log.history + [Accepted(ip, now)] else log.history,
            log.decisions + [ok])
  }

  /** All times at which an address was ever accepted. */
  function Times(history: seq<Accepted>, ip: Ip): seq<int> {
    if history == [] then []
    else
      var rest := Times(history[..|history| - 1], ip);
      var a := history[|history| - 1];
      if a.ip == ip then rest + [a.at] else rest
  }

  /** The specification: no map and no cleanup, only the history. */
  function Ideal(es: seq<Event>): Log {
    if es == [] then Log(map[], [], [])
    else
      var log := Ideal(es[..|es| - 1]);
      match es[|es| - 1]
      case Cleanup(_) => log
      case Attempt(ip, now) =>
        var ok := |Recent(Times(log.history, ip), now)| < RATE_LIMIT;
        log.(history := if ok then log.history + [Accepted(ip, now)] else log.history,
             decisions := log.decisions + [ok])
  }

  /** A clock that never runs backwards. */
  predicate Ordered(es: seq<Event>) {
    forall i, j :: 0 <= i <= j < |es| ==> es[i].now <= es[j].now
  }

  // ----- The map agrees with the history

  ghost predicate Agree(m: Table, history: seq<Accepted>, clock: int) {
    forall ip, now :: now >= clock ==> Recent(Stored(m, ip), now) == Recent(Times(history, ip), now)
  }

  /** Forgetting old entries early does not change what is recent later. */
  lemma {:induction false} RecentTwice(ts: seq<int>, then_: int, now: int)
    requires then_ <= now
    ensures Recent(Recent(ts, then_), now) == Recent(ts, now)
  {
    if ts == [] {
    } else {
      var init, t := ts[..|ts| - 1], ts[|ts| - 1];
      RecentTwice(init, then_, now);
      if then_ - t < RATE_WINDOW {
        assert (Recent(init, then_) + [t])[..|Recent(init, then_)|] == Recent(init, then_);
      }
    }
  }

  lemma RecentSnoc(ts: seq<int>, t: int, now: int)
    ensures Recent(ts + [t], now) == if now - t < RATE_WINDOW then Recent(ts, now) + [t] else Recent(ts, now)
  {
  }

  lemma TimesSnoc(history: seq<Accepted>, a: Accepted, ip: Ip)
    ensures Times(history + [a], ip) == if a.ip == ip then Times(history, ip) + [a.at] else Times(history, ip)
  {
  }

  lemma AgreeAfterAttempt(m: Table, history: seq<Accepted>, clock: int, ip: Ip, now: int)
    requires Agree(m, history, clock) && clock <= now && Admits(m, ip, now)
    ensures Agree(Attempted(m, ip, now), history + [Accepted(ip, now)], now)
  {
    var m', history' := Attempted(m, ip, now), history + [Accepted(ip, now)];
    forall ip', later | later >= now
      ensures Recent(Stored(m', ip'), later) == Recent(Times(history', ip'), later)
    {
      TimesSnoc(history, Accepted(ip, now), ip');
      if ip' == ip {
        RecentTwice(Stored(m, ip), now, later);
        RecentSnoc(Recent(Stored(m, ip), now), now, later);
        RecentSnoc(Times(history, ip), now, later);
      }
    }
  }

  lemma AgreeAfterCleanup(m: Table, history: seq<Accepted>, clock: int, now: int)
    requires Agree(m, history, clock) && clock <= now
    ensures Agree(Cleaned(m, now), history, now)
  {
    forall ip, later | later >= now
      ensures Recent(Stored(Cleaned(m, now), ip), later) == Recent(Times(history, ip), later)
    {
      RecentTwice(Stored(m, ip), now, later);
    }
  }

  /** What a run keeps: the map and the history agree from now on, and every
      stored list is non-empty and within the limit. */
  ghost predicate Inv(log: Log, clock: int) {
    && Agree(log.table, log.history, clock)
    && forall ip :: ip in log.table ==> 1 <= |log.table[ip]| <= RATE_LIMIT
  }

  function Clock(es: seq<Event>): int
    requires es != []
  {
    es[|es| - 1].now
  }

  lemma {:induction false} RunRefinesIdeal(es: seq<Event>)
    requires Ordered(es)
    ensures Run(es).history == Ideal(es).history && Run(es).decisions == Ideal(es).decisions
    ensures es != [] ==> Inv(Run(es), Clock(es))
  {
    if es == [] {
    } else {
      var init, e := es[..|es| - 1], es[|es| - 1];
      RunRefinesIdeal(init);
      var log := Run(init);
      var clock := if init == [] then e.now else Clock(init);
      assert Inv(log, clock) && clock <= e.now;
      match e {
        case Cleanup(now) =>
          AgreeAfterCleanup(log.table, log.history, clock, now);
        case Attempt(ip, now) =>
          assert Recent(Stored(log.table, ip), now) == Recent(Times(log.history, ip), now);
          if Admits(log.table, ip, now) {
            AgreeAfterAttempt(log.table, log.history, clock, ip, now);
          }
      }
    }
  }

  predicate Young(t: int, now: int) {
    now - t < RATE_WINDOW
  }

  /** The places of the young times in a list. */
  function YoungOnes(ts: seq<int>, now: int): set<nat> {
    set i: nat | i < |ts| && Young(ts[i], now)
  }

  lemma {:induction false} RecentCounts(ts: seq<int>, now: int)
    ensures |Recent(ts, now)| == |YoungOnes(ts, now)|
  {
    if ts == [] {
      assert YoungOnes(ts, now) == {};
    } else {
      var init, last := ts[..|ts| - 1], |ts| - 1;
      RecentCounts(init, now);
      assert forall i :: 0 <= i < last ==> init[i] == ts[i];
      if Young(ts[last], now) {
        assert YoungOnes(ts, now) == YoungOnes(init, now) + {last};
      } else {
        assert YoungOnes(ts, now) == YoungOnes(init, now);
      }
    }
  }

  /** An attempt is accepted exactly when fewer than RATE_LIMIT of all attempts
      ever accepted for its address are younger than RATE_WINDOW. */
  lemma AcceptedExactly(es: seq<Event>, ip: Ip, now: int)
    requires Ordered(es + [Attempt(ip, now)])
    ensures var log, ts := Run(es + [Attempt(ip, now)]), Times(Run(es).history, ip);
            var accepted := |set i: nat | i < |ts| && now - ts[i] < 60_000| < 10;
            && log.decisions == Run(es).decisions + [accepted]
            && log.history == if accepted then Run(es).history + [Accepted(ip, now)] else Run(es).history
  {
    var es' := es + [Attempt(ip, now)];
    assert es'[..|es|] == es;
    RunRefinesIdeal(es);
    RecentCounts(Times(Run(es).history, ip), now);
    var ts := Times(Run(es).history, ip);
    assert YoungOnes(ts, now) == set i: nat | i < |ts| && now - ts[i] < 60_000;
    if es != [] {
      assert Clock(es) == es'[|es| - 1].now <= es'[|es|].now == now;
      assert Recent(Stored(Run(es).table, ip), now) == Recent(Times(Run(es).history, ip), now);
    }
  }

  // ----- Cleanup is unobservable

  function WithoutCleanups(es: seq<Event>): (r: seq<Event>)
    ensures forall e :: e in r <==> e in es && e.Attempt?
  {
    if es == [] then []
    else
      var rest := WithoutCleanups(es[..|es| - 1]);
      if es[|es| - 1].Cleanup? then rest else rest + [es[|es| - 1]]
  }

  lemma {:induction false} WithoutCleanupsOrdered(es: seq<Event>)
    requires Ordered(es)
    ensures Ordered(WithoutCleanups(es))
    ensures es != [] ==> forall i :: 0 <= i < |WithoutCleanups(es)| ==> WithoutCleanups(es)[i].now <= Clock(es)
  {
    if es == [] {
    } else {
      WithoutCleanupsOrdered(es[..|es| - 1]);
    }
  }

  lemma {:induction false} IdealIgnoresCleanups(es: seq<Event>)
    ensures Ideal(es) == Ideal(WithoutCleanups(es))
  {
    if es == [] {
    } else {
      var init := es[..|es| - 1];
      IdealIgnoresCleanups(init);
      if es[|es| - 1].Attempt? {
        assert WithoutCleanups(es)[..|WithoutCleanups(es)| - 1] == WithoutCleanups(init);
      }
    }
  }

  /** A run with cleanups at arbitrary moments decides as the run without them. */
  lemma CleanupUnobservable(es: seq<Event>)
    requires Ordered(es)
    ensures Run(es).decisions == Run(WithoutCleanups(es)).decisions
    ensures Run(es).history == Run(WithoutCleanups(es)).history
  {
    WithoutCleanupsOrdered(es);
    RunRefinesIdeal(es);
    RunRefinesIdeal(WithoutCleanups(es));
    IdealIgnoresCleanups(es);
  }

  lemma {:induction false} RecentMembers(ts: seq<int>, now: int)
    ensures Recent(ts, now) != [] <==> exists t :: t in ts && Young(t, now)
  {
    if ts == [] {
      assert YoungOnes(ts, now) == {};
    } else {
      var init, last := ts[..|ts| - 1], ts[|ts| - 1];
      RecentMembers(init, now);
      assert forall t :: t in ts <==> t in init || t == last;
      assert last in ts;
      if Recent(init, now) != [] {
        var t :| t in init && Young(t, now);
        assert t in ts;
      }
    }
  }

  /** Right after a cleanup the keys are exactly the addresses accepted in the
      last RATE_WINDOW, and at any time no list is empty or over the limit. */
  lemma CleanupKeepsExactlyTheRecent(es: seq<Event>, now: int, ip: Ip)
    requires Ordered(es + [Cleanup(now)])
    ensures var log := Run(es + [Cleanup(now)]);
            && (ip in log.table <==> exists t :: t in Times(log.history, ip) && now - t < 60_000)
            && (ip in log.table ==> 1 <= |log.table[ip]| <= 10)
  {
    var es' := es + [Cleanup(now)];
    assert es'[..|es'| - 1] == es;
    RunRefinesIdeal(es');
    RunRefinesIdeal(es);
    var log := Run(es);
    if es != [] {
      assert Clock(es) == es'[|es| - 1].now <= es'[|es|].now;
    }
    assert Run(es') == log.(table := Cleaned(log.table, now));
    assert Inv(Run(es'), now);
    assert Recent(Stored(log.table, ip), now) == Recent(Times(log.history, ip), now);
    RecentMembers(Times(log.history, ip), now);
    assert ip in Cleaned(log.table, now) <==> Recent(Stored(log.table, ip), now) != [];
  }

  // ----- The window bound

  /** No time is later than the clock. */
  predicate UpTo(ts: seq<int>, clock: int) {
    forall i :: 0 <= i < |ts| ==> ts[i] <= clock
  }

  /** Sorted times, each accepted with room left in its window. */
  predicate Spaced(ts: seq<int>) {
    ts != [] ==>
      var init, t := ts[..|ts| - 1], ts[|ts| - 1];
      Spaced(init) && UpTo(init, t) && |Recent(init, t)| < RATE_LIMIT
  }

  lemma SpacedSnoc(ts: seq<int>, t: int)
    requires Spaced(ts) && UpTo(ts, t) && |Recent(ts, t)| < RATE_LIMIT
    ensures Spaced(ts + [t]) && UpTo(ts + [t], t)
  {
    assert (ts + [t])[..|ts|] == ts;
  }

  lemma OrderedInit(es: seq<Event>)
    requires Ordered(es) && es != []
    ensures Ordered(es[..|es| - 1])
    ensures |es| > 1 ==> Clock(es[..|es| - 1]) <= Clock(es)
  {
  }

  lemma TimesSpacedStep(history: seq<Accepted>, e: Event, ip: Ip)
    requires Spaced(Times(history, ip)) && UpTo(Times(history, ip), e.now)
    ensures e.Attempt? && |Recent(Times(history, e.ip), e.now)| < RATE_LIMIT ==>
              var ts := Times(history + [Accepted(e.ip, e.now)], ip);
              Spaced(ts) && UpTo(ts, e.now)
  {
    if e.Attempt? && |Recent(Times(history, e.ip), e.now)| < RATE_LIMIT {
      TimesSnoc(history, Accepted(e.ip, e.now), ip);
      if e.ip == ip {
        SpacedSnoc(Times(history, ip), e.now);
      }
    }
  }

  lemma {:induction false} TimesSpaced(es: seq<Event>, ip: Ip)
    requires Ordered(es)
    ensures Spaced(Times(Ideal(es).history, ip))
    ensures es != [] ==> UpTo(Times(Ideal(es).history, ip), Clock(es))
  {
    if es == [] {
    } else {
      var init, e := es[..|es| - 1], es[|es| - 1];
      OrderedInit(es);
      TimesSpaced(init, ip);
      TimesSpacedStep(Ideal(init).history, e, ip);
    }
  }

  /** In sorted times everything from index i on is recent at `now`. */
  lemma {:induction false} RecentAtLeast(ts: seq<int>, i: nat, now: int)
    requires i <= |ts| && forall k :: i <= k < |ts| ==> now - ts[k] < RATE_WINDOW
    ensures |Recent(ts, now)| >= |ts| - i
  {
    if i == |ts| {
    } else {
      RecentAtLeast(ts[..|ts| - 1], i, now);
    }
  }

  lemma {:induction false} SpacedSorted(ts: seq<int>, i: nat, j: nat)
    requires Spaced(ts) && i <= j < |ts|
    ensures ts[i] <= ts[j]
  {
    var init := ts[..|ts| - 1];
    if j < |init| {
      SpacedSorted(init, i, j);
    } else if i < j {
      assert init[i] <= ts[j];
    }
  }

  lemma {:induction false} SpacedBound(ts: seq<int>, i: nat, j: nat)
    requires Spaced(ts) && i <= j < |ts| && ts[j] - ts[i] < RATE_WINDOW
    ensures j - i + 1 <= RATE_LIMIT
  {
    var init := ts[..|ts| - 1];
    if j < |ts| - 1 {
      SpacedBound(init, i, j);
    } else {
      forall k | i <= k < |init|
        ensures ts[j] - init[k] < RATE_WINDOW
      {
        SpacedSorted(ts, i, k);
      }
      RecentAtLeast(init, i, ts[j]);
    }
  }

  lemma {:induction false} IntervalSize(s: set<nat>, lo: nat, hi: nat)
    requires lo <= hi && forall x :: x in s ==> lo <= x < hi
    ensures |s| <= hi - lo
    decreases hi
  {
    if s == {} {
    } else {
      var rest := s - {hi - 1};
      IntervalSize(rest, lo, hi - 1);
    }
  }

  lemma {:induction false} Extremes(s: set<nat>) returns (lo: nat, hi: nat)
    requires s != {}
    ensures lo in s && hi in s && forall x :: x in s ==> lo <= x <= hi
    decreases |s|
  {
    var x :| x in s;
    if s == {x} {
      lo, hi := x, x;
    } else {
      assert s - {x} != {};
      var lo', hi' := Extremes(s - {x});
      lo, hi := if x < lo' then x else lo', if x > hi' then x else hi';
      assert s == (s - {x}) + {x};
    }
  }

  /** In every run, any set of accepted attempts of one address whose times all
      lie within less than RATE_WINDOW of each other has at most RATE_LIMIT members. */
  lemma WindowBound(es: seq<Event>, ip: Ip, chosen: set<nat>)
    requires Ordered(es)
    requires var ts := Times(Run(es).history, ip);
             && (forall i :: i in chosen ==> i < |ts|)
             && (forall i, j :: i in chosen && j in chosen ==> ts[j] - ts[i] < 60_000)
    ensures |chosen| <= 10
  {
    RunRefinesIdeal(es);
    TimesSpaced(es, ip);
    if chosen != {} {
      var lo, hi := Extremes(chosen);
      SpacedBound(Times(Run(es).history, ip), lo, hi);
      IntervalSize(chosen, lo, hi + 1);
    }
  }
}
