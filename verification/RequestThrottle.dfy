/** The request spacing of providers/nominatimProvider.js. One variable holds
    the time of the last request; a caller reads it, may wait, and writes it
    after the wait, so callers that overlap do not see each other. */
module RequestThrottle {
  const SPACING := 1100

  /** Milliseconds a call that starts at `now` has to wait. */
  function Delay(last: int, now: int): (d: nat)
    ensures now + d >= last + SPACING
    ensures d > 0 ==> now + d == last + SPACING
  {
    if now - last < SPACING then SPACING - (now - last) else 0
  }

  class Throttle {
    var lastRequestTime: int

    constructor ()
      ensures lastRequestTime == 0
    {
      lastRequestTime := 0;
    }

    /** The turn in which a call starts: how long to sleep, zero for not at all. */
    method Begin(now: int) returns (sleep: nat)
      ensures sleep == Delay(lastRequestTime, now)
      ensures sleep == 0 <==> now - lastRequestTime >= 1100
      ensures sleep > 0 ==> now + sleep == lastRequestTime + 1100
    {
      var elapsed := now - lastRequestTime;
      if elapsed < SPACING {
        return SPACING - elapsed;
      }
      return 0;
    }

    /** The turn in which the request is sent. */
    method Fire(now: int)
      modifies this
      ensures lastRequestTime == now
    {
      lastRequestTime := now;
    }
  }

  // ----- Overlapping callers

  type CallId = nat

  /** A request that was sent, with the calls asleep at that moment. */
  datatype Fired = Fired(id: CallId, at: int, asleep: set<CallId>)

  datatype State = State(
    last: int,
    clock: int,
    started: set<CallId>,
    waiting: map<CallId, int>,  // sleeping calls and when they may wake
    fired: seq<Fired>)

  /** A call that need not sleep sends its request in the turn it starts, reading
      the clock a second time; a sleeper wakes no earlier than it asked for. */
  datatype Event =
    | Starts(id: CallId, now: int, again: int)
    | Wakes(id: CallId, now: int)

  function Send(st: State, id: CallId, at: int): State {
    var waiting := st.waiting - {id};
    st.(last := at, clock := at, waiting := waiting, fired := st.fired + [Fired(id, at, waiting.Keys)])
  }

  function PutToSleep(st: State, id: CallId, now: int): State {
    st.(clock := now, started := st.started + {id}, waiting := st.waiting[id := now + Delay(st.last, now)])
  }

  predicate Enabled(st: State, e: Event) {
    && st.clock <= e.now
    && match e
       case Starts(id, now, again) => id !in st.started && now <= again
       case Wakes(id, now) => id in st.waiting && st.waiting[id] <= now
  }

  function Apply(st: State, e: Event): State
    requires Enabled(st, e)
  {
    match e
    case Starts(id, now, again) =>
      if Delay(st.last, now) == 0 then Send(st.(clock := now, started := st.started + {id}), id, again)
      else PutToSleep(st, id, now)
    case Wakes(id, now) =>
      Send(st, id, now)
  }

  const INITIAL := State(0, 0, {}, map[], [])

  predicate Feasible(es: seq<Event>)
    decreases |es|, 0
  {
    if es == [] then true
    else Feasible(es[..|es| - 1]) && Enabled(Run(es[..|es| - 1]), es[|es| - 1])
  }

  function Run(es: seq<Event>): State
    requires Feasible(es)
    decreases |es|, 1
  {
    if es == [] then INITIAL else Apply(Run(es[..|es| - 1]), es[|es| - 1])
  }

  lemma RunSnoc(es: seq<Event>, e: Event)
    requires Feasible(es) && Enabled(Run(es), e)
    ensures Feasible(es + [e]) && Run(es + [e]) == Apply(Run(es), e)
  {
  }

  // ----- The invariant

  /** A sleeping call was already asleep when request f was sent, or wakes at
      least SPACING after it. */
  predicate Respects(id: CallId, due: int, f: Fired) {
    id in f.asleep || due >= f.at + SPACING
  }

  /** The same for two requests, the second sent later. */
  predicate Later(f: Fired, g: Fired) {
    f.at <= g.at && Respects(g.id, g.at, f)
  }

  ghost predicate Inv(st: State) {
    && st.waiting.Keys <= st.started
    && (forall i :: 0 <= i < |st.fired| ==> st.fired[i].id in st.started && st.fired[i].id !in st.waiting)
    && (forall i :: 0 <= i < |st.fired| ==> st.fired[i].at <= st.last <= st.clock)
    && (forall i, j :: 0 <= i < j < |st.fired| ==> Later(st.fired[i], st.fired[j]))
    && (forall i, j :: 0 <= i < j < |st.fired| ==> st.fired[i].id != st.fired[j].id)
    && (forall id, i :: id in st.waiting && 0 <= i < |st.fired| ==> Respects(id, st.waiting[id], st.fired[i]))
  }

  lemma SendKeepsInv(st: State, id: CallId, at: int)
    requires Inv(st) && st.clock <= at && id in st.started
    requires forall i :: 0 <= i < |st.fired| ==> st.fired[i].id != id && Respects(id, at, st.fired[i])
    ensures Inv(Send(st, id, at))
  {
    var st' := Send(st, id, at);
    forall i, j | 0 <= i < j < |st'.fired|
      ensures Later(st'.fired[i], st'.fired[j])
    {
      if j < |st.fired| {
        assert Later(st.fired[i], st.fired[j]);
      }
    }
  }

  /** A call that goes to sleep wakes at least SPACING after every request so far. */
  lemma SleepKeepsInv(st: State, id: CallId, now: int)
    requires Inv(st) && st.clock <= now && id !in st.started && Delay(st.last, now) > 0
    ensures Inv(PutToSleep(st, id, now))
  {
    var st' := PutToSleep(st, id, now);
    assert st'.waiting.Keys == st.waiting.Keys + {id} && st'.fired == st.fired;
    forall i | 0 <= i < |st'.fired|
      ensures st'.fired[i].id in st'.started && st'.fired[i].id !in st'.waiting
    {
      assert st.fired[i].id in st.started;
    }
    forall x, i | x in st'.waiting && 0 <= i < |st'.fired|
      ensures Respects(x, st'.waiting[x], st'.fired[i])
    {
      assert st.fired[i].at <= st.last;
      assert x != id ==> Respects(x, st.waiting[x], st.fired[i]);
    }
    assert forall i, j :: 0 <= i < j < |st'.fired| ==> Later(st.fired[i], st.fired[j]);
  }

  lemma ApplyKeepsInv(st: State, e: Event)
    requires Inv(st) && Enabled(st, e)
    ensures Inv(Apply(st, e))
  {
    match e {
      case Starts(id, now, again) =>
        if Delay(st.last, now) == 0 {
          SendKeepsInv(st.(clock := now, started := st.started + {id}), id, again);
        } else {
          SleepKeepsInv(st, id, now);
        }
      case Wakes(id, now) =>
        SendKeepsInv(st, id, now);
    }
  }

  lemma {:induction false} RunKeepsInv(es: seq<Event>)
    requires Feasible(es)
    ensures Inv(Run(es))
  {
    if es == [] {
    } else {
      RunKeepsInv(es[..|es| - 1]);
      ApplyKeepsInv(Run(es[..|es| - 1]), es[|es| - 1]);
    }
  }

  /** No sleeper is due later than SPACING after the last request. */
  predicate DueSoon(st: State) {
    st.last <= st.clock && forall id :: id in st.waiting ==> st.waiting[id] <= st.last + SPACING
  }

  lemma {:induction false} RunDueSoon(es: seq<Event>)
    requires Feasible(es)
    ensures DueSoon(Run(es))
  {
    if es == [] {
    } else {
      RunDueSoon(es[..|es| - 1]);
    }
  }

  // ----- No request is lost

  function Calls(es: seq<Event>): nat {
    if es == [] then 0 else Calls(es[..|es| - 1]) + if es[|es| - 1].Starts? then 1 else 0
  }

  lemma SizeOfKeys<K, V>(m: map<K, V>)
    ensures |m| == |m.Keys|
  {
  }

  lemma CountStep(st: State, e: Event)
    requires Inv(st) && Enabled(st, e)
    ensures |Apply(st, e).fired| + |Apply(st, e).waiting| == |st.fired| + |st.waiting| + if e.Starts? then 1 else 0
  {
    var waiting := Apply(st, e).waiting;
    SizeOfKeys(st.waiting);
    SizeOfKeys(waiting);
    assert waiting.Keys == st.waiting.Keys - {e.id} || waiting.Keys == st.waiting.Keys + {e.id};
  }

  /** In every run each call has either sent its request, once, or still sleeps. */
  lemma {:induction false} EveryCallSentOnce(es: seq<Event>)
    requires Feasible(es)
    ensures |Run(es).fired| + |Run(es).waiting| == Calls(es)
    ensures forall i, j :: 0 <= i < j < |Run(es).fired| ==> Run(es).fired[i].id != Run(es).fired[j].id
  {
    RunKeepsInv(es);
    if es == [] {
    } else {
      EveryCallSentOnce(es[..|es| - 1]);
      RunKeepsInv(es[..|es| - 1]);
      CountStep(Run(es[..|es| - 1]), es[|es| - 1]);
    }
  }

  /** At any time a new call may start, and a sleeper may wake from SPACING after the
      last request on. */
  lemma TurnsPossible(es: seq<Event>, id: CallId, now: int)
    requires Feasible(es) && now >= Run(es).clock
    ensures id !in Run(es).started ==> Enabled(Run(es), Starts(id, now, now))
    ensures id in Run(es).waiting && now >= Run(es).last + 1100 ==> Enabled(Run(es), Wakes(id, now))
  {
    RunDueSoon(es);
  }

  /** When the last request was sent; before the first one, the initial zero. */
  function LastSent(fired: seq<Fired>): int {
    if fired == [] then 0 else fired[|fired| - 1].at
  }

  /** The i-th event sends the request of this call: its sleep is over, or it starts
      1100 milliseconds or more after the request before it. */
  predicate SendsAt(es: seq<Event>, i: nat, id: CallId, at: int)
    requires i < |es|
  {
    match es[i]
    case Starts(x, now, again) =>
      x == id && again == at && Feasible(es[..i]) && now >= LastSent(Run(es[..i]).fired) + 1100
    case Wakes(x, now) => x == id && now == at
  }

  predicate HasSent(fired: seq<Fired>, id: CallId, at: int) {
    exists j :: 0 <= j < |fired| && fired[j].id == id && fired[j].at == at
  }

  lemma HasSentSnoc(fired: seq<Fired>, f: Fired, id: CallId, at: int)
    ensures HasSent(fired + [f], id, at) <==> HasSent(fired, id, at) || (f.id == id && f.at == at)
  {
    var all := fired + [f];
    assert all[|fired|] == f && forall j :: 0 <= j < |fired| ==> all[j] == fired[j];
  }

  lemma InitPrefix<T>(s: seq<T>, n: nat)
    requires n < |s|
    ensures s[..|s| - 1][..n] == s[..n]
  {
  }

  /** In every run exactly the requests have been sent that some turn sent, and the
      shared variable has the time of the last. */
  lemma {:induction false} SentExactly(es: seq<Event>, id: CallId, at: int)
    requires Feasible(es)
    ensures HasSent(Run(es).fired, id, at) <==> exists i :: 0 <= i < |es| && SendsAt(es, i, id, at)
    ensures Run(es).last == LastSent(Run(es).fired)
  {
    if es == [] {
    } else {
      var n := |es| - 1;
      var init, st, st' := es[..n], Run(es[..n]), Run(es);
      SentExactly(init, id, at);
      if st'.fired != st.fired {
        HasSentSnoc(st.fired, st'.fired[|st.fired|], id, at);
      }
      assert HasSent(st'.fired, id, at) <==> HasSent(st.fired, id, at) || SendsAt(es, n, id, at);
      forall i | 0 <= i < n
        ensures SendsAt(es, i, id, at) <==> SendsAt(init, i, id, at)
      {
        InitPrefix(es, i);
      }
      assert (exists i :: 0 <= i < n + 1 && SendsAt(es, i, id, at)) <==>
             (exists i :: 0 <= i < n && SendsAt(init, i, id, at)) || SendsAt(es, n, id, at);
    }
  }

  // ----- Bursts

  lemma {:induction false} DistinctWithin(ids: seq<CallId>, s: set<CallId>)
    requires forall i, j :: 0 <= i < j < |ids| ==> ids[i] != ids[j]
    requires forall i :: 0 <= i < |ids| ==> ids[i] in s
    ensures |ids| <= |s|
  {
    if ids == [] {
    } else {
      var last := |ids| - 1;
      DistinctWithin(ids[..last], s - {ids[last]});
    }
  }

  /** A request that follows another within less than SPACING was asleep when the
      first was sent; so fewer than SPACING milliseconds from one request on hold
      at most that request and those already asleep. */
  lemma BurstBound(es: seq<Event>, i: nat, j: nat)
    requires Feasible(es) && i <= j < |Run(es).fired|
    requires Run(es).fired[j].at < Run(es).fired[i].at + 1100
    ensures i < j ==> Run(es).fired[j].id in Run(es).fired[i].asleep
    ensures j - i + 1 <= 1 + |Run(es).fired[i].asleep|
  {
    RunKeepsInv(es);
    var fired := Run(es).fired;
    var ids := seq(j - i, k requires 0 <= k < j - i => fired[i + 1 + k].id);
    forall k | 0 <= k < |ids|
      ensures ids[k] in fired[i].asleep
    {
      assert Later(fired[i], fired[i + 1 + k]);
      if i + 1 + k < j {
        assert Later(fired[i + 1 + k], fired[j]);
      }
    }
    DistinctWithin(ids, fired[i].asleep);
  }

  /** No call starts while another sleeps. */
  predicate Serial(es: seq<Event>)
    requires Feasible(es)
  {
    es != [] ==>
      var init := es[..|es| - 1];
      Serial(init) && (es[|es| - 1].Starts? ==> Run(init).waiting == map[])
  }

  predicate NeverAsleep(st: State) {
    |st.waiting| <= 1 && forall i :: 0 <= i < |st.fired| ==> st.fired[i].asleep == {}
  }

  lemma OnlySleeper(waiting: map<CallId, int>, id: CallId)
    requires id in waiting && |waiting| <= 1
    ensures waiting - {id} == map[]
  {
    var rest := waiting.Keys - {id};
    assert waiting.Keys == rest + {id} && |rest| == 0;
    assert (waiting - {id}).Keys == rest;
  }

  lemma SerialStep(st: State, e: Event)
    requires Enabled(st, e) && NeverAsleep(st)
    requires e.Starts? ==> st.waiting == map[]
    ensures NeverAsleep(Apply(st, e))
  {
    if e.Wakes? {
      OnlySleeper(st.waiting, e.id);
    } else {
      assert st.waiting - {e.id} == map[];
    }
  }

  lemma {:induction false} SerialNeverAsleep(es: seq<Event>)
    requires Feasible(es) && Serial(es)
    ensures NeverAsleep(Run(es))
  {
    if es == [] {
    } else {
      var init, e := es[..|es| - 1], es[|es| - 1];
      SerialNeverAsleep(init);
      SerialStep(Run(init), e);
    }
  }

  /** Callers that do not overlap are spaced. */
  lemma SerialSpaced(es: seq<Event>, i: nat)
    requires Feasible(es) && Serial(es) && i + 1 < |Run(es).fired|
    ensures Run(es).fired[i + 1].at >= Run(es).fired[i].at + 1100
  {
    SerialNeverAsleep(es);
    if Run(es).fired[i + 1].at < Run(es).fired[i].at + SPACING {
      BurstBound(es, i, i + 1);
    }
  }

  // ----- Spacing whatever the timers do

  predicate WakesOnly(ws: seq<Event>) {
    forall i :: 0 <= i < |ws| ==> ws[i].Wakes?
  }

  predicate Spaced(fired: seq<Fired>) {
    forall i :: 0 <= i < |fired| - 1 ==> fired[i + 1].at >= fired[i].at + SPACING
  }

  /** However the sleepers of this run wake, its requests are spaced. */
  ghost predicate SpacedOn(es: seq<Event>)
    requires Feasible(es)
  {
    forall ws :: WakesOnly(ws) && Feasible(es + ws) ==> Spaced(Run(es + ws).fired)
  }

  /** Spaced so far, with at most one sleeper, and that one due late enough. */
  predicate Quiet(st: State) {
    Spaced(st.fired) && |st.waiting| <= 1 && forall id :: id in st.waiting ==> st.waiting[id] >= st.last + SPACING
  }

  lemma SpacedSnoc(fired: seq<Fired>, f: Fired)
    requires Spaced(fired) && forall i :: 0 <= i < |fired| ==> fired[i].at + SPACING <= f.at
    ensures Spaced(fired + [f])
  {
  }

  lemma SendStaysQuiet(st: State, id: CallId, at: int)
    requires Spaced(st.fired) && forall i :: 0 <= i < |st.fired| ==> st.fired[i].at <= st.last
    requires st.waiting - {id} == map[] && at >= st.last + SPACING
    ensures Quiet(Send(st, id, at))
  {
    SpacedSnoc(st.fired, Fired(id, at, (st.waiting - {id}).Keys));
  }

  lemma WakeStaysQuiet(st: State, e: Event)
    requires Inv(st) && Quiet(st) && Enabled(st, e) && e.Wakes?
    ensures Quiet(Apply(st, e))
  {
    OnlySleeper(st.waiting, e.id);
    SendStaysQuiet(st, e.id, e.now);
  }

  lemma SleepStaysQuiet(st: State, id: CallId, now: int)
    requires Spaced(st.fired) && st.waiting == map[] && Delay(st.last, now) > 0
    ensures Quiet(PutToSleep(st, id, now))
  {
    assert PutToSleep(st, id, now).waiting == map[id := st.last + SPACING];
  }

  lemma StartStaysQuiet(st: State, e: Event)
    requires Inv(st) && Quiet(st) && Enabled(st, e) && e.Starts? && st.waiting == map[]
    ensures Quiet(Apply(st, e))
  {
    if Delay(st.last, e.now) == 0 {
      assert st.waiting - {e.id} == map[];
      SendStaysQuiet(st.(clock := e.now, started := st.started + {e.id}), e.id, e.again);
    } else {
      SleepStaysQuiet(st, e.id, e.now);
    }
  }

  lemma LastWakeStaysQuiet(es: seq<Event>)
    requires es != [] && Feasible(es) && es[|es| - 1].Wakes? && Quiet(Run(es[..|es| - 1]))
    ensures Quiet(Run(es))
  {
    RunKeepsInv(es[..|es| - 1]);
    WakeStaysQuiet(Run(es[..|es| - 1]), es[|es| - 1]);
  }

  lemma {:induction false} QuietFrom(es: seq<Event>, n: nat)
    requires Feasible(es) && n <= |es| && forall i :: n <= i < |es| ==> es[i].Wakes?
    requires Feasible(es[..n]) && Quiet(Run(es[..n]))
    ensures Quiet(Run(es))
    decreases |es|
  {
    if n == |es| {
      assert es[..n] == es;
    } else {
      InitPrefix(es, n);
      QuietFrom(es[..|es| - 1], n);
      LastWakeStaysQuiet(es);
    }
  }

  lemma QuietIsSpacedOn(es: seq<Event>)
    requires Feasible(es) && Quiet(Run(es))
    ensures SpacedOn(es)
  {
    forall ws | WakesOnly(ws) && Feasible(es + ws)
      ensures Spaced(Run(es + ws).fired)
    {
      assert (es + ws)[..|es|] == es && (es + ws)[|es|..] == ws;
      QuietFrom(es + ws, |es|);
    }
  }

  /** The last two requests of a run were sent at the same moment. */
  predicate Collides(st: State) {
    var n := |st.fired|;
    n >= 2 && st.fired[n - 1].at == st.fired[n - 2].at
  }

  lemma CollisionIsNotSpaced(st: State)
    requires Collides(st)
    ensures !Spaced(st.fired)
  {
    var i := |st.fired| - 2;
    assert st.fired[i + 1].at < st.fired[i].at + SPACING;
  }

  /** The new call need not wait: a sleeper is due by then and may wake with it. */
  lemma CollideAtOnce(es: seq<Event>, e: Event, a: CallId)
    requires Feasible(es) && Enabled(Run(es), e) && e.Starts? && a in Run(es).waiting
    requires Delay(Run(es).last, e.now) == 0
    ensures Feasible(es + [e]) && Feasible(es + [e] + [Wakes(a, e.again)])
    ensures Collides(Run(es + [e] + [Wakes(a, e.again)]))
  {
    RunKeepsInv(es);
    RunDueSoon(es);
    RunSnoc(es, e);
    RunSnoc(es + [e], Wakes(a, e.again));
  }

  /** The new call sleeps: both may wake at the later of the two moments. */
  lemma CollideAsleep(es: seq<Event>, e: Event, a: CallId, t: int)
    requires Feasible(es) && Enabled(Run(es), e) && e.Starts? && a in Run(es).waiting
    requires Delay(Run(es).last, e.now) > 0 && t >= e.now && t >= Run(es).last + SPACING
    ensures Feasible(es + [e]) && Feasible(es + [e] + [Wakes(a, t)])
    ensures Feasible(es + [e] + [Wakes(a, t)] + [Wakes(e.id, t)])
    ensures Collides(Run(es + [e] + [Wakes(a, t)] + [Wakes(e.id, t)]))
  {
    RunKeepsInv(es);
    RunDueSoon(es);
    RunSnoc(es, e);
    RunSnoc(es + [e], Wakes(a, t));
    RunSnoc(es + [e] + [Wakes(a, t)], Wakes(e.id, t));
  }

  /** In every run, serial or not, a call that starts while another sleeps can lead to
      two requests in one moment. */
  lemma OverlapCollides(es: seq<Event>, e: Event) returns (ws: seq<Event>)
    requires Feasible(es) && Enabled(Run(es), e) && e.Starts? && Run(es).waiting != map[]
    ensures Feasible(es + [e]) && WakesOnly(ws) && Feasible(es + [e] + ws)
    ensures !Spaced(Run(es + [e] + ws).fired)
  {
    var a :| a in Run(es).waiting;
    if Delay(Run(es).last, e.now) == 0 {
      ws := [Wakes(a, e.again)];
      CollideAtOnce(es, e, a);
    } else {
      var t := if e.now >= Run(es).last + SPACING then e.now else Run(es).last + SPACING;
      ws := [Wakes(a, t), Wakes(e.id, t)];
      CollideAsleep(es, e, a, t);
      assert es + [e] + ws == es + [e] + [Wakes(a, t)] + [Wakes(e.id, t)];
    }
    CollisionIsNotSpaced(Run(es + [e] + ws));
  }

  lemma SpacedOnNow(es: seq<Event>)
    requires Feasible(es) && SpacedOn(es)
    ensures Spaced(Run(es).fired)
  {
    assert WakesOnly([]) && es + [] == es;
  }

  lemma SpacedEarlier(es: seq<Event>, e: Event)
    requires Feasible(es) && Enabled(Run(es), e) && Feasible(es + [e]) && Spaced(Run(es + [e]).fired)
    ensures Spaced(Run(es).fired)
  {
    RunSnoc(es, e);
    var fired, fired' := Run(es).fired, Run(es + [e]).fired;
    assert fired <= fired';
    assert forall i :: 0 <= i < |fired| ==> fired[i] == fired'[i];
  }

  lemma {:induction false} SerialQuiet(es: seq<Event>)
    requires Feasible(es) && Serial(es)
    ensures Quiet(Run(es))
  {
    if es == [] {
    } else {
      var init, e := es[..|es| - 1], es[|es| - 1];
      SerialQuiet(init);
      RunKeepsInv(init);
      if e.Wakes? {
        WakeStaysQuiet(Run(init), e);
      } else {
        StartStaysQuiet(Run(init), e);
      }
    }
  }

  /** After a call starts, the requests are spaced however the sleepers wake exactly
      when they were spaced before and no call was asleep; in a serial run, exactly
      when no call was asleep. */
  lemma StartKeepsSpacingExactly(es: seq<Event>, e: Event)
    requires Feasible(es) && Enabled(Run(es), e) && e.Starts?
    ensures Feasible(es + [e])
    ensures SpacedOn(es + [e]) <==> Spaced(Run(es).fired) && Run(es).waiting == map[]
    ensures Serial(es) ==> (SpacedOn(es + [e]) <==> Run(es).waiting == map[])
  {
    RunSnoc(es, e);
    if Run(es).waiting != map[] {
      var ws := OverlapCollides(es, e);
    } else if Spaced(Run(es).fired) {
      RunKeepsInv(es);
      StartStaysQuiet(Run(es), e);
      QuietIsSpacedOn(es + [e]);
    } else if SpacedOn(es + [e]) {
      SpacedOnNow(es + [e]);
      SpacedEarlier(es, e);
    }
    if Serial(es) {
      SerialQuiet(es);
    }
  }

  /** At every moment of the run, however the sleepers would wake from there on. */
  ghost predicate AlwaysSpacedOn(es: seq<Event>) {
    forall n :: 0 <= n <= |es| ==> Feasible(es[..n]) && SpacedOn(es[..n])
  }

  lemma AlwaysSpacedOnInit(es: seq<Event>)
    requires es != [] && Feasible(es)
    ensures AlwaysSpacedOn(es) <==> AlwaysSpacedOn(es[..|es| - 1]) && SpacedOn(es)
  {
    var init := es[..|es| - 1];
    assert es[..|es|] == es;
    forall n | 0 <= n <= |init|
      ensures init[..n] == es[..n]
    {
    }
    if AlwaysSpacedOn(init) && SpacedOn(es) {
      forall n | 0 <= n <= |es|
        ensures Feasible(es[..n]) && SpacedOn(es[..n])
      {
        assert n < |es| ==> es[..n] == init[..n];
      }
    }
    if AlwaysSpacedOn(es) {
      assert Feasible(es[..|es|]) && SpacedOn(es[..|es|]);
      forall n | 0 <= n <= |init|
        ensures Feasible(init[..n]) && SpacedOn(init[..n])
      {
        assert es[..n] == init[..n];
      }
    }
  }

  /** The spacing holds at every moment of a run, whatever the timers do, exactly when
      no call ever starts while another sleeps. */
  lemma {:induction false} SpacedExactlyWhenSerial(es: seq<Event>)
    requires Feasible(es)
    ensures AlwaysSpacedOn(es) <==> Serial(es)
  {
    if es == [] {
      QuietIsSpacedOn([]);
      assert es[..0] == [];
    } else {
      var init, e := es[..|es| - 1], es[|es| - 1];
      assert es == init + [e];
      SpacedExactlyWhenSerial(init);
      AlwaysSpacedOnInit(es);
      if e.Starts? {
        StartKeepsSpacingExactly(init, e);
      }
      if Serial(es) {
        SerialQuiet(es);
        QuietIsSpacedOn(es);
      }
    }
  }

  // ----- The bound is reached

  const T0 := SPACING

  /** lo + 1, ..., hi */
  function Ids(lo: nat, hi: nat): (s: set<CallId>)
    requires lo <= hi
    ensures |s| == hi - lo && forall id :: id in s <==> lo < id <= hi
    decreases hi
  {
    if lo == hi then {} else Ids(lo, hi - 1) + {hi}
  }

  lemma IdsTail(lo: nat, hi: nat)
    requires lo < hi
    ensures Ids(lo, hi) - {lo + 1} == Ids(lo + 1, hi)
  {
  }

  /** Exactly the given calls sleep, all until the same moment. */
  predicate AsleepTogether(st: State, ids: set<CallId>) {
    st.waiting.Keys == ids && forall id :: id in st.waiting ==> st.waiting[id] == T0 + SPACING
  }

  /** After one request at T0, calls 1..n have started and sleep until the same moment. */
  predicate AllAsleep(st: State, n: nat) {
    && st.last == st.clock == T0
    && (forall id :: id in st.started ==> id <= n)
    && AsleepTogether(st, Ids(0, n))
    && st.fired == [Fired(0, T0, {})]
  }

  lemma FirstRequest()
    ensures Enabled(INITIAL, Starts(0, T0, T0)) && AllAsleep(Apply(INITIAL, Starts(0, T0, T0)), 0)
  {
  }

  lemma OneMoreTogether(st: State, st': State, n: nat)
    requires AsleepTogether(st, Ids(0, n)) && st'.waiting == st.waiting[n + 1 := T0 + SPACING]
    ensures AsleepTogether(st', Ids(0, n + 1))
  {
    assert Ids(0, n + 1) == Ids(0, n) + {n + 1};
    assert st'.waiting.Keys == st.waiting.Keys + {n + 1};
  }

  lemma OneMoreAsleep(st: State, n: nat)
    requires AllAsleep(st, n)
    ensures Enabled(st, Starts(n + 1, T0, T0)) && AllAsleep(Apply(st, Starts(n + 1, T0, T0)), n + 1)
  {
    var st' := Apply(st, Starts(n + 1, T0, T0));
    assert st'.waiting == st.waiting[n + 1 := T0 + SPACING] && st'.started == st.started + {n + 1};
    OneMoreTogether(st, st', n);
  }

  lemma {:induction false} Sleepers(n: nat) returns (es: seq<Event>)
    ensures Feasible(es) && AllAsleep(Run(es), n)
  {
    if n == 0 {
      FirstRequest();
      RunSnoc([], Starts(0, T0, T0));
      es := [] + [Starts(0, T0, T0)];
    } else {
      var init := Sleepers(n - 1);
      OneMoreAsleep(Run(init), n - 1);
      RunSnoc(init, Starts(n, T0, T0));
      es := init + [Starts(n, T0, T0)];
    }
  }

  /** Calls 1..k were sent at the common moment, each with the later ones asleep. */
  predicate SentUpTo(st: State, k: nat, n: nat)
    requires k <= n
  {
    && st.clock <= T0 + SPACING
    && AsleepTogether(st, Ids(k, n))
    && |st.fired| == k + 1
    && forall i :: 1 <= i <= k ==> st.fired[i].at == T0 + SPACING && st.fired[i].asleep == Ids(i, n)
  }

  lemma OneMoreSent(st: State, k: nat, n: nat)
    requires k < n && SentUpTo(st, k, n)
    ensures Enabled(st, Wakes(k + 1, T0 + SPACING)) && SentUpTo(Apply(st, Wakes(k + 1, T0 + SPACING)), k + 1, n)
  {
    IdsTail(k, n);
    assert (st.waiting - {k + 1}).Keys == Ids(k + 1, n);
  }

  /** From there, calls 1..k wake in the same millisecond. */
  lemma {:induction false} WakeUp(n: nat, k: nat) returns (es: seq<Event>)
    requires k <= n
    ensures Feasible(es) && SentUpTo(Run(es), k, n)
    decreases k
  {
    if k == 0 {
      es := Sleepers(n);
    } else {
      var init := WakeUp(n, k - 1);
      OneMoreSent(Run(init), k - 1, n);
      RunSnoc(init, Wakes(k, T0 + SPACING));
      es := init + [Wakes(k, T0 + SPACING)];
    }
  }

  /** For any number of overlapping callers there is a run in which that many
      requests are sent in one millisecond: BurstBound cannot be improved. */
  lemma BurstReached(n: nat) returns (es: seq<Event>)
    requires n >= 1
    ensures Feasible(es) && |Run(es).fired| == n + 1
    ensures forall i :: 1 <= i <= n ==> Run(es).fired[i].at == Run(es).fired[1].at
    ensures n == 1 + |Run(es).fired[1].asleep|
  {
    es := WakeUp(n, n);
  }
}
