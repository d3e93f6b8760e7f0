/** The maintenance switch of middleware/maintenanceMode.js: a flag cached for
    CACHE_TTL milliseconds, refreshed by requests whose reads may overtake each
    other, and reset by `clearCache`. */
module MaintenanceCache {
  import opened Wrappers

  const CACHE_TTL := 30_000

  /** The stored setting, as JSON. */
  datatype Config = Bool(b: bool) | Text(s: string) | OtherJson

  function Flag(config: Option<Config>): bool {
    config == Some(Bool(true)) || config == Some(Text("true"))
  }

  predicate Bypasses(url: string) {
    "/api/admin" <= url || "/api/webhooks" <= url
  }

  /** What the database answers to one read. */
  datatype Answer = Found(config: Option<Config>) | Failed

  function AnswerFlag(a: Answer): bool {
    a.Found? && Flag(a.config)
  }

  /** The two module variables. */
  datatype Cache = Cache(value: Option<bool>, time: int)

  predicate NeedsRead(c: Cache, now: int) {
    c.value.None? || now - c.time > CACHE_TTL
  }

  /** What a request does in the turn it arrives in. */
  datatype Outcome = Bypass | StartRead | Decide(blocked: bool)

  const CLEARED := Cache(None, 0)

  function Arrived(c: Cache, url: string, now: int): Outcome {
    if Bypasses(url) then Bypass
    else if NeedsRead(c, now) then StartRead
    else Decide(c.value.value)
  }

  function Landed(arrivedAt: int, answer: Answer): Cache {
    Cache(Some(AnswerFlag(answer)), arrivedAt)
  }

  class Maintenance {
    var cachedValue: Option<bool>
    var cacheTime: int

    constructor ()
      ensures Vars() == CLEARED
    {
      cachedValue, cacheTime := None, 0;
    }

    function Vars(): Cache
      reads this
    {
      Cache(cachedValue, cacheTime)
    }

    method Arrive(url: string, now: int) returns (o: Outcome)
      ensures o == Arrived(Vars(), url, now)
      ensures o == Bypass <==> "/api/admin" <= url || "/api/webhooks" <= url
      ensures o == StartRead <==> o != Bypass && (cachedValue.None? || now - cacheTime > 30_000)
      ensures o.Decide? ==> cachedValue == Some(o.blocked)
    {
      if "/api/admin" <= url || "/api/webhooks" <= url {
        return Bypass;
      }
      if cachedValue == None || now - cacheTime > CACHE_TTL {
        return StartRead;
      }
      return Decide(cachedValue.value);
    }

    /** The turn in which the read of a request that arrived at `arrivedAt` settles. */
    method Land(arrivedAt: int, answer: Answer) returns (blocked: bool)
      modifies this
      ensures Vars() == Landed(arrivedAt, answer)
      ensures blocked <==> answer in {Found(Some(Bool(true))), Found(Some(Text("true")))}
      ensures cachedValue == Some(blocked) && cacheTime == arrivedAt
    {
      match answer {
        case Found(config) =>
          cachedValue := Some(config == Some(Bool(true)) || config == Some(Text("true")));
          cacheTime := arrivedAt;
        case Failed =>
          cachedValue := Some(false);
          cacheTime := arrivedAt;
      }
      return cachedValue.value;
    }

    method ClearCache()
      modifies this
      ensures Vars() == CLEARED
    {
      cachedValue := None;
      cacheTime := 0;
    }
  }

  // ----- The server as a step protocol

  type RequestId = nat

  /** A read waits for the database, then its answer waits to be processed;
      `source` is the answer's place in the record. */
  datatype Read = Waiting(arrivedAt: int) | Answered(arrivedAt: int, source: nat)

  /** Every answer the database ever gave: `epoch` counts the clears before it. */
  datatype Source = Source(startedAt: int, answeredAt: int, epoch: nat, answer: Answer)

  /** Every decision ever taken, with the answer its flag came from. */
  datatype Decision = Decision(arrivedAt: int, blocked: bool, source: nat)

  datatype State = State(
    cache: Cache,
    stored: Option<Config>,      // the setting in the database
    clock: int,
    inFlight: map<RequestId, Read>,
    clears: nat,
    sources: seq<Source>,        // record of all answers
    cachedFrom: nat,             // record: where cache.value came from
    decisions: seq<Decision>)    // record of all decisions

  datatype Event =
    | Arrives(id: RequestId, url: string, now: int)
    | Answers(id: RequestId, ok: bool, now: int)
    | Lands(id: RequestId, now: int)
    | Clears(now: int)
    | Stores(config: Option<Config>, now: int)

  const INITIAL := State(CLEARED, None, 0, map[], 0, [], 0, [])

  predicate Enabled(st: State, e: Event) {
    && st.clock <= e.now
    && (e.Arrives? ==> e.id !in st.inFlight)
    && (e.Answers? ==> e.id in st.inFlight && st.inFlight[e.id].Waiting?)
    && (e.Lands? ==> e.id in st.inFlight && st.inFlight[e.id].Answered? && st.inFlight[e.id].source < |st.sources|)
  }

  function Apply(st: State, e: Event): State
    requires Enabled(st, e)
  {
    var st := st.(clock := e.now);
    match e
    case Arrives(id, url, now) =>
      (match Arrived(st.cache, url, now)
       case Bypass => st
       case StartRead => st.(inFlight := st.inFlight[id := Waiting(now)])
       case Decide(blocked) => st.(decisions := st.decisions + [Decision(now, blocked, st.cachedFrom)]))
    case Answers(id, ok, now) =>
      var arrivedAt := st.inFlight[id].arrivedAt;
      st.(sources := st.sources + [Source(arrivedAt, now, st.clears, if ok then Found(st.stored) else Failed)],
          inFlight := st.inFlight[id := Answered(arrivedAt, |st.sources|)])
    case Lands(id, _) =>
      var read := st.inFlight[id];
      var cache := Landed(read.arrivedAt, st.sources[read.source].answer);
      st.(cache := cache,
          cachedFrom := read.source,
          inFlight := st.inFlight - {id},
          decisions := st.decisions + [Decision(read.arrivedAt, cache.value.value, read.source)])
    case Clears(_) =>
      st.(cache := CLEARED, clears := st.clears + 1)
    case Stores(config, _) =>
      st.(stored := config)
  }

  predicate Feasible(st: State, es: seq<Event>)
    decreases |es|
  {
    es == [] || (Enabled(st, es[0]) && Feasible(Apply(st, es[0]), es[1..]))
  }

  function Run(st: State, es: seq<Event>): State
    requires Feasible(st, es)
    decreases |es|
  {
    if es == [] then st else Run(Apply(st, es[0]), es[1..])
  }

  lemma RunOne(st: State, e: Event)
    requires Enabled(st, e)
    ensures Feasible(st, [e]) && Run(st, [e]) == Apply(st, e)
  {
  }

  // ----- Bounded staleness

  /** A decision used an answer to a read that began no earlier than CACHE_TTL
      before the request arrived, and decided as that answer says. */
  predicate Justified(d: Decision, sources: seq<Source>) {
    && d.source < |sources|
    && var s := sources[d.source];
       && d.blocked == AnswerFlag(s.answer)
       && d.arrivedAt - CACHE_TTL <= s.startedAt <= s.answeredAt
  }

  predicate ReadOk(st: State, r: Read) {
    && r.arrivedAt <= st.clock
    && (r.Answered? ==> r.source < |st.sources| && st.sources[r.source].startedAt == r.arrivedAt)
  }

  predicate SourceOk(st: State, s: Source) {
    s.startedAt <= s.answeredAt <= st.clock && s.epoch <= st.clears
  }

  ghost predicate Inv(st: State) {
    && (forall id :: id in st.inFlight ==> ReadOk(st, st.inFlight[id]))
    && (forall i :: 0 <= i < |st.sources| ==> SourceOk(st, st.sources[i]))
    && (forall i :: 0 <= i < |st.decisions| ==> Justified(st.decisions[i], st.sources))
    && (st.cache.value.Some? ==>
          && st.cachedFrom < |st.sources|
          && var s := st.sources[st.cachedFrom];
             st.cache == Cache(Some(AnswerFlag(s.answer)), s.startedAt))
  }

  lemma JustifiedLater(ds: seq<Decision>, sources: seq<Source>, s: Source)
    requires forall i :: 0 <= i < |ds| ==> Justified(ds[i], sources)
    ensures forall i :: 0 <= i < |ds| ==> Justified(ds[i], sources + [s])
  {
  }

  lemma ApplyKeepsInv(st: State, e: Event)
    requires Inv(st) && Enabled(st, e)
    ensures Inv(Apply(st, e))
  {
    var st' := Apply(st, e);
    if e.Answers? {
      JustifiedLater(st.decisions, st.sources, st'.sources[|st.sources|]);
    }
    forall id | id in st'.inFlight
      ensures ReadOk(st', st'.inFlight[id])
    {
      if id in st.inFlight {
        assert ReadOk(st, st.inFlight[id]);
      }
    }
    forall i | 0 <= i < |st'.sources|
      ensures SourceOk(st', st'.sources[i])
    {
      if i < |st.sources| {
        assert SourceOk(st, st.sources[i]);
      } else {
        assert ReadOk(st, st.inFlight[e.id]);
      }
    }
    if e.Lands? {
      var read := st.inFlight[e.id];
      assert ReadOk(st, read) && SourceOk(st, st.sources[read.source]);
    } else if e.Arrives? && st.cache.value.Some? {
      assert SourceOk(st, st.sources[st.cachedFrom]);
    }
  }

  lemma {:induction false} RunKeepsInv(st: State, es: seq<Event>)
    requires Inv(st) && Feasible(st, es)
    ensures Inv(Run(st, es))
    decreases |es|
  {
    if es == [] {
    } else {
      ApplyKeepsInv(st, es[0]);
      RunKeepsInv(Apply(st, es[0]), es[1..]);
    }
  }

  /** In every run, however reads overtake each other and whenever the cache is
      cleared, every decision rests on an answer to a read begun at most
      CACHE_TTL before the request: the stored flag as it was answered, or
      `false` where that read failed. */
  lemma BoundedStaleness(es: seq<Event>, i: nat)
    requires Feasible(INITIAL, es) && i < |Run(INITIAL, es).decisions|
    ensures Justified(Run(INITIAL, es).decisions[i], Run(INITIAL, es).sources)
  {
    RunKeepsInv(INITIAL, es);
  }

  lemma {:induction false} RunInit(st: State, es: seq<Event>)
    requires Feasible(st, es) && es != []
    ensures var n := |es| - 1;
            && Feasible(st, es[..n])
            && Enabled(Run(st, es[..n]), es[n])
            && Run(st, es) == Apply(Run(st, es[..n]), es[n])
    decreases |es|
  {
    if |es| == 1 {
      RunOne(st, es[0]);
      assert es[..0] == [] && es == [es[0]];
    } else {
      var n := |es| - 1;
      RunInit(Apply(st, es[0]), es[1..]);
      assert es[..n][1..] == es[1..][..n - 1];
    }
  }

  /** The setting after some events, as the last of them that stored it says. */
  function StoredBy(es: seq<Event>): Option<Config> {
    if es == [] then None
    else
      match es[|es| - 1]
      case Stores(config, _) => config
      case _ => StoredBy(es[..|es| - 1])
  }

  /** The n-th event is the answer of the database that the record shows: what was
      stored at that moment, unless the read failed. */
  predicate AnswerAt(es: seq<Event>, n: nat, s: Source) {
    && n < |es| && es[n].Answers?
    && s.answeredAt == es[n].now
    && s.answer == if es[n].ok then Found(StoredBy(es[..n])) else Failed
  }

  lemma {:induction false} StoredIs(es: seq<Event>)
    requires Feasible(INITIAL, es)
    ensures Run(INITIAL, es).stored == StoredBy(es)
    decreases |es|
  {
    if es == [] {
    } else {
      RunInit(INITIAL, es);
      StoredIs(es[..|es| - 1]);
    }
  }

  /** In every run, every recorded answer is the setting as it was stored when the
      database answered, or a failure. */
  lemma {:induction false} AnswersAreCurrent(es: seq<Event>, i: nat)
    requires Feasible(INITIAL, es) && i < |Run(INITIAL, es).sources|
    ensures exists n: nat :: AnswerAt(es, n, Run(INITIAL, es).sources[i])
    decreases |es|
  {
    if es == [] {
    } else {
      var last := |es| - 1;
      var init := es[..last];
      RunInit(INITIAL, es);
      StoredIs(init);
      var s := Run(INITIAL, es).sources[i];
      if i < |Run(INITIAL, init).sources| {
        AnswersAreCurrent(init, i);
        var n: nat :| AnswerAt(init, n, s);
        assert init[..n] == es[..n];
        assert AnswerAt(es, n, s);
      } else {
        assert AnswerAt(es, last, s);
      }
    }
  }

  /** So every decision is what the setting said at a moment no earlier than CACHE_TTL
      before the request, or lets the request pass where the read failed. */
  lemma DecisionsFollowTheSetting(es: seq<Event>, i: nat) returns (n: nat)
    requires Feasible(INITIAL, es) && i < |Run(INITIAL, es).decisions|
    ensures var d := Run(INITIAL, es).decisions[i];
            && n < |es| && es[n].Answers?
            && d.arrivedAt - 30_000 <= es[n].now
            && (d.blocked <==> es[n].ok && StoredBy(es[..n]) in {Some(Bool(true)), Some(Text("true"))})
  {
    BoundedStaleness(es, i);
    var d := Run(INITIAL, es).decisions[i];
    AnswersAreCurrent(es, d.source);
    n :| AnswerAt(es, n, Run(INITIAL, es).sources[d.source]);
  }

  // ----- No request is lost, and the cache is the last read that landed

  /** The requests that are subject to the switch. */
  function Subject(es: seq<Event>): nat {
    if es == [] then 0
    else
      var e := es[|es| - 1];
      Subject(es[..|es| - 1])
      + if e.Arrives? && !("/api/admin" <= e.url || "/api/webhooks" <= e.url) then 1 else 0
  }

  lemma SizeOfKeys<K, V>(m: map<K, V>)
    ensures |m| == |m.Keys|
  {
  }

  lemma CountStep(st: State, e: Event)
    requires Enabled(st, e)
    ensures var st' := Apply(st, e);
            |st'.decisions| + |st'.inFlight| == |st.decisions| + |st.inFlight|
              + if e.Arrives? && !("/api/admin" <= e.url || "/api/webhooks" <= e.url) then 1 else 0
  {
    var st' := Apply(st, e);
    match e {
      case Arrives(id, _, _) =>
        assert id in st'.inFlight ==> st'.inFlight.Keys == st.inFlight.Keys + {id};
        SizeOfKeys(st.inFlight);
        SizeOfKeys(st'.inFlight);
      case Answers(id, _, _) =>
        assert st'.inFlight.Keys == st.inFlight.Keys;
        SizeOfKeys(st.inFlight);
        SizeOfKeys(st'.inFlight);
      case Lands(id, _) =>
        assert st'.inFlight.Keys == st.inFlight.Keys - {id};
        SizeOfKeys(st.inFlight);
        SizeOfKeys(st'.inFlight);
      case _ =>
    }
  }

  /** In every run each of them has either been decided, once, or waits for its read. */
  lemma {:induction false} EveryRequestDecidedOnce(es: seq<Event>)
    requires Feasible(INITIAL, es)
    ensures |Run(INITIAL, es).decisions| + |Run(INITIAL, es).inFlight| == Subject(es)
    decreases |es|
  {
    if es == [] {
    } else {
      var init, e := es[..|es| - 1], es[|es| - 1];
      RunInit(INITIAL, es);
      EveryRequestDecidedOnce(init);
      CountStep(Run(INITIAL, init), e);
    }
  }

  /** When the request last arrived under this id. */
  function ArrivalOf(es: seq<Event>, id: RequestId): int {
    if es == [] then 0
    else
      var e := es[|es| - 1];
      if e.Arrives? && e.id == id then e.now else ArrivalOf(es[..|es| - 1], id)
  }

  /** When the read began that landed last, unless the cache was cleared since. */
  function LastLanded(es: seq<Event>): Option<int> {
    if es == [] then None
    else
      match es[|es| - 1]
      case Clears(_) => None
      case Lands(id, _) => Some(ArrivalOf(es[..|es| - 1], id))
      case _ => LastLanded(es[..|es| - 1])
  }

  /** In every run the cache is empty exactly when no read has landed since the last
      clear, and else as old as the read that landed last. */
  lemma {:induction false} CacheExactly(es: seq<Event>)
    requires Feasible(INITIAL, es)
    ensures var st := Run(INITIAL, es);
            && (st.cache.value.Some? <==> LastLanded(es).Some?)
            && (st.cache.value.Some? ==> st.cache.time == LastLanded(es).value)
            && forall id :: id in st.inFlight ==> st.inFlight[id].arrivedAt == ArrivalOf(es, id)
    decreases |es|
  {
    if es == [] {
    } else {
      RunInit(INITIAL, es);
      CacheExactly(es[..|es| - 1]);
    }
  }

  /** After every run a request that is subject to the switch starts a read exactly when
      no read has landed since the last clear, or the one that landed last is too old. */
  lemma ReadsExactly(es: seq<Event>, id: RequestId, url: string, now: int)
    requires Feasible(INITIAL, es) && Enabled(Run(INITIAL, es), Arrives(id, url, now))
    ensures id in Apply(Run(INITIAL, es), Arrives(id, url, now)).inFlight <==>
              && !("/api/admin" <= url || "/api/webhooks" <= url)
              && (LastLanded(es).None? || now - LastLanded(es).value > 30_000)
  {
    CacheExactly(es);
  }

  /** At any time a request may arrive, the setting may be stored and the cache cleared;
      a read that waits may be answered, and one that is answered may land. */
  lemma TurnsPossible(es: seq<Event>, id: RequestId, url: string, config: Option<Config>, ok: bool, now: int)
    requires Feasible(INITIAL, es) && now >= Run(INITIAL, es).clock
    ensures var st := Run(INITIAL, es);
            && Enabled(st, Clears(now)) && Enabled(st, Stores(config, now))
            && (id !in st.inFlight ==> Enabled(st, Arrives(id, url, now)))
            && (id in st.inFlight ==> Enabled(st, Answers(id, ok, now)) || Enabled(st, Lands(id, now)))
  {
    RunKeepsInv(INITIAL, es);
    if id in Run(INITIAL, es).inFlight {
      assert ReadOk(Run(INITIAL, es), Run(INITIAL, es).inFlight[id]);
    }
  }

  // ----- Clearing the cache

  /** No decision after the first `n` uses an answer given before clear number `k`. */
  predicate FreshSince(st: State, n: nat, k: nat) {
    forall i :: n <= i < |st.decisions| ==>
      st.decisions[i].source < |st.sources| && st.sources[st.decisions[i].source].epoch >= k
  }

  /** Nothing left over from before clear number `k` can still reach a decision. */
  predicate NothingOld(st: State, k: nat) {
    && k <= st.clears
    && (st.cache.value.Some? ==> st.cachedFrom < |st.sources| && st.sources[st.cachedFrom].epoch >= k)
    && forall id :: id in st.inFlight && st.inFlight[id].Answered? ==>
         st.inFlight[id].source < |st.sources| && st.sources[st.inFlight[id].source].epoch >= k
  }

  lemma {:induction false} NothingOldStaysFresh(st: State, es: seq<Event>, n: nat, k: nat)
    requires Feasible(st, es) && NothingOld(st, k) && FreshSince(st, n, k)
    ensures FreshSince(Run(st, es), n, k)
    decreases |es|
  {
    if es == [] {
    } else {
      NothingOldStaysFresh(Apply(st, es[0]), es[1..], n, k);
    }
  }

  ghost predicate CleanForever(st: State) {
    forall es :: Feasible(st, es) ==> FreshSince(Run(st, es), |st.decisions|, st.clears)
  }

  predicate AnswerPending(st: State) {
    exists id :: id in st.inFlight && st.inFlight[id].Answered?
  }

  /** Clearing the cache keeps every value read before it out of all later
      decisions exactly when no answer is on its way to being processed at that
      moment: a read that still waits for the database does no harm, one already
      answered brings the old value back. */
  lemma ClearIsCleanExactly(st: State, now: int)
    requires Inv(st) && Enabled(st, Clears(now))
    ensures CleanForever(Apply(st, Clears(now))) <==> !AnswerPending(st)
  {
    var cleared := Apply(st, Clears(now));
    if AnswerPending(st) {
      var id :| id in st.inFlight && st.inFlight[id].Answered?;
      var es := [Lands(id, now)];
      var read := st.inFlight[id];
      assert ReadOk(st, read) && SourceOk(st, st.sources[read.source]);
      RunOne(cleared, es[0]);
      var after := Run(cleared, es);
      assert after.decisions[|cleared.decisions|].source == read.source;
      assert after.sources[read.source].epoch <= st.clears < cleared.clears;
      var n := |cleared.decisions|;
      assert n < |after.decisions| && after.decisions[n].source == read.source;
      assert !FreshSince(after, n, cleared.clears);
    } else {
      forall es | Feasible(cleared, es)
        ensures FreshSince(Run(cleared, es), |cleared.decisions|, cleared.clears)
      {
        NothingOldStaysFresh(cleared, es, |cleared.decisions|, cleared.clears);
      }
    }
  }
}
