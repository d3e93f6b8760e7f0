/** What whole runs of the chat protocol leave, read off the events alone: who is
    connected, which lookups have landed, which rooms a socket is in; and what an
    undisturbed chat event achieves. */
module ChatRuns {
  import opened Wrappers
  import opened ChatAccess
  import opened ChatRooms

  // ----- Who is connected

  datatype Person = Person(userId: Id, isAdmin: bool, isExpedition: bool)

  function ConnectedAs(es: seq<Event>, s: SocketId): Option<Person> {
    if es == [] then None
    else
      match es[|es| - 1]
      case Connects(t, userId, isAdmin, isExpedition) =>
        if t == s then Some(Person(userId, isAdmin, isExpedition)) else ConnectedAs(es[..|es| - 1], s)
      case _ => ConnectedAs(es[..|es| - 1], s)
  }

  function PersonOf(st: State, s: SocketId): Option<Person> {
    if s in st.sockets then Some(Person(st.sockets[s].userId, st.sockets[s].isAdmin, st.sockets[s].isExpedition))
    else None
  }

  lemma PersonStep(st: State, e: Event, s: SocketId)
    requires Enabled(st, e)
    ensures PersonOf(Apply(st, e), s) ==
            if e.Connects? && e.s == s then Some(Person(e.userId, e.isAdmin, e.isExpedition)) else PersonOf(st, s)
  {
    if e.Continues? {
      ContinueRooms(st, e.h, st.handlers[e.h].stage.access, st.handlers[e.h].stage.found, st.handlers[e.h].socket);
    }
  }

  /** In every run a socket is the person it connected as. */
  lemma {:induction false} ConnectedExactly(es: seq<Event>, s: SocketId)
    requires Feasible(INITIAL, es)
    ensures PersonOf(Run(INITIAL, es), s) == ConnectedAs(es, s)
    decreases |es|
  {
    if es == [] {
    } else {
      RunInit(INITIAL, es);
      ConnectedExactly(es[..|es| - 1], s);
      PersonStep(Run(INITIAL, es[..|es| - 1]), es[|es| - 1], s);
    }
  }

  // ----- What lookups have answered, and who takes part

  function LookupAfter(es: seq<Event>, s: SocketId): Option<LookupState> {
    if es == [] then None
    else
      match es[|es| - 1]
      case Connects(t, _, _, _) => if t == s then Some(Pending) else LookupAfter(es[..|es| - 1], s)
      case AccessLands(t, a) => if t == s then Some(Landed(a)) else LookupAfter(es[..|es| - 1], s)
      case AccessFails(t) => if t == s then Some(Broken) else LookupAfter(es[..|es| - 1], s)
      case _ => LookupAfter(es[..|es| - 1], s)
  }

  function ParticipantsAfter(es: seq<Event>): set<(ConversationId, Id)> {
    if es == [] then {}
    else
      match es[|es| - 1]
      case ParticipantsChange(participants) => participants
      case _ => ParticipantsAfter(es[..|es| - 1])
  }

  /** The event has the shared admin lookup answer with this id. */
  predicate AnswersAdmin(e: Event, id: Id) {
    (e.SharedAdminLands? || e.HandlerGetsShared?) && e.shared == Some(id)
  }

  predicate AnswersExpedition(e: Event, id: Id) {
    e.SharedExpeditionLands? && e.shared == Some(id)
  }

  predicate TookPart(es: seq<Event>, c: ConversationId, id: Id) {
    exists i :: 0 <= i < |es| && es[i].ParticipantsChange? && (c, id) in es[i].participants
  }

  ghost predicate RecordsOf(st: State, es: seq<Event>) {
    && (forall s :: (if s in st.lookups then Some(st.lookups[s]) else None) == LookupAfter(es, s))
    && st.participants == ParticipantsAfter(es)
    && (forall c, id :: (c, id) in st.everParticipants <==> TookPart(es, c, id))
    && (forall id :: id in st.adminIds <==> exists i :: 0 <= i < |es| && AnswersAdmin(es[i], id))
    && (forall id :: id in st.expeditionIds <==> exists i :: 0 <= i < |es| && AnswersExpedition(es[i], id))
  }

  lemma RecordsFrame(st: State, e: Event)
    requires Enabled(st, e)
    ensures var st' := Apply(st, e);
            && st'.lookups == (match e
                               case Connects(s, _, _, _) => st.lookups[s := Pending]
                               case AccessLands(s, a) => st.lookups[s := Landed(a)]
                               case AccessFails(s) => st.lookups[s := Broken]
                               case _ => st.lookups)
            && st'.participants == (if e.ParticipantsChange? then e.participants else st.participants)
            && st'.everParticipants == st.everParticipants + (if e.ParticipantsChange? then e.participants else {})
            && (forall id :: id in st'.adminIds <==> id in st.adminIds || AnswersAdmin(e, id))
            && (forall id :: id in st'.expeditionIds <==> id in st.expeditionIds || AnswersExpedition(e, id))
  {
  }

  lemma SomeSnoc(init: seq<Event>, es: seq<Event>, p: Event -> bool)
    requires es != [] && init == es[..|es| - 1]
    ensures (exists i :: 0 <= i < |es| && p(es[i])) <==> (exists i :: 0 <= i < |init| && p(init[i])) || p(es[|es| - 1])
  {
    assert forall i :: 0 <= i < |init| ==> init[i] == es[i];
    if i :| 0 <= i < |init| && p(init[i]) {
      assert p(es[i]);
    }
    if i :| 0 <= i < |es| && p(es[i]) {
      assert i < |init| ==> p(init[i]);
    }
  }

  /** In every run the records have exactly what the events brought: the state of each
      lookup, the current participants and all there ever were, and the answers of the
      shared lookups. */
  lemma {:induction false} RecordsExactly(es: seq<Event>)
    requires Feasible(INITIAL, es)
    ensures RecordsOf(Run(INITIAL, es), es)
    decreases |es|
  {
    if es == [] {
    } else {
      var init, e := es[..|es| - 1], es[|es| - 1];
      RunInit(INITIAL, es);
      RecordsExactly(init);
      RecordsFrame(Run(INITIAL, init), e);
      forall c, id
        ensures TookPart(es, c, id) <==> TookPart(init, c, id) || (e.ParticipantsChange? && (c, id) in e.participants)
      {
        SomeSnoc(init, es, (x: Event) => x.ParticipantsChange? && (c, id) in x.participants);
      }
      forall id: Id
        ensures (exists i :: 0 <= i < |es| && AnswersAdmin(es[i], id)) <==>
                (exists i :: 0 <= i < |init| && AnswersAdmin(init[i], id)) || AnswersAdmin(e, id)
        ensures (exists i :: 0 <= i < |es| && AnswersExpedition(es[i], id)) <==>
                (exists i :: 0 <= i < |init| && AnswersExpedition(init[i], id)) || AnswersExpedition(e, id)
      {
        SomeSnoc(init, es, (x: Event) => AnswersAdmin(x, id));
        SomeSnoc(init, es, (x: Event) => AnswersExpedition(x, id));
      }
    }
  }

  // ----- Rooms

  /** The event puts the socket into the room, when `own` is the user it belongs to: a
      connection into the rooms of the user and of their roles, an answer of a shared
      lookup into the user room of the shared account, and the landing of the access
      lookup into that of another's account that may be chatted for. */
  predicate JoinsRoom(e: Event, s: SocketId, own: Option<Id>, room: Room) {
    match room
    case AdminRoom => e.Connects? && e.s == s && e.isAdmin
    case ExpeditionRoom => e.Connects? && e.s == s && e.isExpedition
    case UserRoom(id) =>
      || (e.Connects? && e.s == s && e.userId == id)
      || ((e.SharedAdminLands? || e.SharedExpeditionLands?) && e.s == s && e.shared == Some(id))
      || (e.AccessLands? && e.s == s && e.access.supplierId == Some(id) && own != Some(id) && e.access.canChat)
    case ConversationRoom(_) => false
  }

  predicate IsIn(st: State, s: SocketId, room: Room) {
    s in st.sockets && room in st.sockets[s].rooms
  }

  function OwnOf(es: seq<Event>, s: SocketId): Option<Id> {
    match ConnectedAs(es, s)
    case None => None
    case Some(p) => Some(p.userId)
  }

  lemma RoomStep(st: State, e: Event, s: SocketId, own: Option<Id>, room: Room)
    requires Enabled(st, e) && !room.ConversationRoom?
    requires s in st.sockets ==> own == Some(st.sockets[s].userId)
    ensures IsIn(Apply(st, e), s, room) <==> JoinsRoom(e, s, own, room) || (IsIn(st, s, room) && e != Disconnects(s))
  {
  }

  ghost function RoomJoins(es: seq<Event>, s: SocketId, room: Room): (marks: seq<bool>)
    ensures |marks| == |es|
  {
    seq(|es|, i requires 0 <= i < |es| => JoinsRoom(es[i], s, OwnOf(es[..i], s), room))
  }

  ghost function Disconnections(es: seq<Event>, s: SocketId): (marks: seq<bool>)
    ensures |marks| == |es|
  {
    seq(|es|, i requires 0 <= i < |es| => es[i] == Disconnects(s))
  }

  lemma {:induction false} RoomsUpTo(es: seq<Event>, n: nat, s: SocketId, room: Room)
    requires Feasible(INITIAL, es) && n <= |es| && !room.ConversationRoom?
    ensures IsIn(StateAt(es, n), s, room) <==> Stands(RoomJoins(es, s, room), Disconnections(es, s), n)
    decreases n
  {
    if n == 0 {
      assert es[..0] == [];
    } else {
      RoomsUpTo(es, n - 1, s, room);
      NextState(es, n - 1);
      FeasiblePrefix(es, n - 1);
      ConnectedExactly(es[..n - 1], s);
      RoomStep(StateAt(es, n - 1), es[n - 1], s, OwnOf(es[..n - 1], s), room);
      StandsStep(RoomJoins(es, s, room), Disconnections(es, s), n - 1);
    }
  }

  /** In every interleaving a socket is in a user room, the admin room or the expedition
      room exactly when some event put it there and it has not disconnected since. */
  lemma RoomsExactly(es: seq<Event>, s: SocketId, room: Room)
    requires Feasible(INITIAL, es) && !room.ConversationRoom?
    ensures IsIn(Run(INITIAL, es), s, room) <==> Stands(RoomJoins(es, s, room), Disconnections(es, s), |es|)
  {
    RoomsUpTo(es, |es|, s, room);
    assert es[..|es|] == es;
  }

  // ----- Whose messages a socket may get

  lemma {:induction false} LookupsOfConnected(es: seq<Event>, s: SocketId)
    requires Feasible(INITIAL, es)
    ensures LookupAfter(es, s).Some? <==> ConnectedAs(es, s).Some?
    decreases |es|
  {
    if es == [] {
    } else {
      RunInit(INITIAL, es);
      LookupsOfConnected(es[..|es| - 1], s);
      ConnectedExactly(es[..|es| - 1], s);
    }
  }

  /** What a socket may act as, read off the events: the user it connected as, an answer
      of the shared lookup of its role, or the account that its own lookup named together
      with the right to chat. */
  predicate ActsAs(es: seq<Event>, s: SocketId, id: Id) {
    match ConnectedAs(es, s)
    case None => false
    case Some(p) =>
      || id == p.userId
      || (p.isAdmin && exists i :: 0 <= i < |es| && AnswersAdmin(es[i], id))
      || (p.isExpedition && exists i :: 0 <= i < |es| && AnswersExpedition(es[i], id))
      || (match LookupAfter(es, s)
          case Some(Landed(a)) => a.supplierId == Some(id) && a.canChat
          case _ => false)
  }

  lemma MayActAsExactly(es: seq<Event>, s: SocketId, id: Id)
    requires Feasible(INITIAL, es)
    ensures MayActAs(Run(INITIAL, es), s, id) <==> ActsAs(es, s, id)
  {
    ConnectedExactly(es, s);
    LookupsOfConnected(es, s);
    RecordsExactly(es);
    assert (if s in Run(INITIAL, es).lookups then Some(Run(INITIAL, es).lookups[s]) else None) == LookupAfter(es, s);
  }

  predicate Began(es: seq<Event>, h: HandlerId, s: SocketId, kind: Kind, c: ConversationId) {
    exists i :: 0 <= i < |es| && es[i] == Begins(h, s, kind, c)
  }

  lemma HandlerStep(st: State, e: Event, h: HandlerId)
    requires Enabled(st, e) && h in Apply(st, e).handlers
    ensures var now := Apply(st, e).handlers[h];
            || e == Begins(h, now.socket, now.kind, now.conversation)
            || (h in st.handlers && st.handlers[h] == now.(stage := st.handlers[h].stage))
  {
  }

  /** Every handler at work is that of an event that began. */
  lemma {:induction false} HandlerBegan(es: seq<Event>, h: HandlerId)
    requires Feasible(INITIAL, es) && h in Run(INITIAL, es).handlers
    ensures var now := Run(INITIAL, es).handlers[h]; Began(es, h, now.socket, now.kind, now.conversation)
    decreases |es|
  {
    if es == [] {
    } else {
      var init, e, now := es[..|es| - 1], es[|es| - 1], Run(INITIAL, es).handlers[h];
      RunInit(INITIAL, es);
      HandlerStep(Run(INITIAL, init), e, h);
      if e != Begins(h, now.socket, now.kind, now.conversation) {
        HandlerBegan(init, h);
        var i :| 0 <= i < |init| && init[i] == Begins(h, now.socket, now.kind, now.conversation);
        assert es[i] == init[i];
      }
    }
  }

  /** The event that made a delivery had begun, on a socket that may act as its sender. */
  lemma SenderBegan(es: seq<Event>, d: Delivery) returns (h: HandlerId, s: SocketId)
    requires Feasible(INITIAL, es) && d in Run(INITIAL, es).deliveries
    ensures Began(es, h, s, d.kind, d.conversation)
    ensures exists n: nat :: n <= |es| && ActsAs(es[..n], s, d.sender)
  {
    DeliverySafety(es, d);
    var n: nat :| SentFor(es, n, d);
    h := es[n].h;
    s := StateAt(es, n).handlers[h].socket;
    FeasiblePrefix(es, n);
    HandlerBegan(es[..n], h);
    var i :| 0 <= i < n && es[..n][i] == Begins(h, s, d.kind, d.conversation);
    assert es[i] == es[..n][i];
    MayActAsExactly(es[..n], s, d.sender);
  }

  /** In every interleaving everything delivered was sent for someone who took part in
      the conversation, by a chat event that began on a socket that could act as them,
      through the conversation's room or the user room of someone else who took part, to
      a socket that may act as one who did. */
  lemma DeliveredToParticipants(es: seq<Event>, d: Delivery)
    requires Feasible(INITIAL, es) && d in Run(INITIAL, es).deliveries
    ensures TookPart(es, d.conversation, d.sender)
    ensures exists h, s, n: nat ::
              Began(es, h, s, d.kind, d.conversation) && n <= |es| && ActsAs(es[..n], s, d.sender)
    ensures exists id :: ActsAs(es, d.to, id) && TookPart(es, d.conversation, id)
    ensures || d.via == ConversationRoom(d.conversation)
            || (d.via.UserRoom? && d.via.user != d.sender
                && TookPart(es, d.conversation, d.via.user) && ActsAs(es, d.to, d.via.user))
  {
    var h, s := SenderBegan(es, d);
    DeliverySafety(es, d);
    RecordsExactly(es);
    var st := Run(INITIAL, es);
    var id :| MayActAs(st, d.to, id) && (d.conversation, id) in st.everParticipants;
    MayActAsExactly(es, d.to, id);
    if d.via.UserRoom? {
      MayActAsExactly(es, d.to, d.via.user);
    }
  }

  // ----- What a chat event starts with, and what can happen at all

  /** What a chat event of a socket meets, read off the events: refusal exactly after a
      lookup that denied a member the chat; else an admin goes to the shared account and
      everyone else to the supplier that the lookup named, or to themselves. */
  lemma StartsExactly(es: seq<Event>, s: SocketId)
    requires Feasible(INITIAL, es) && ConnectedAs(es, s).Some?
    ensures s in Run(INITIAL, es).sockets
    ensures var start, p := StartOf(Run(INITIAL, es).sockets[s]), ConnectedAs(es, s).value;
            match LookupAfter(es, s)
            case Some(Landed(a)) =>
              if a.viaMembership && !a.canChat then start == Denied
              else if p.isAdmin then start == AsAdmin
              else start == As(if a.supplierId.Some? then a.supplierId.value else p.userId)
            case _ => start == if p.isAdmin then AsAdmin else As(p.userId)
  {
    ConnectedExactly(es, s);
    RecordsExactly(es);
    RunKeepsInv(INITIAL, es);
    var st := Run(INITIAL, es);
    assert SocketOk(st, s);
    assert (if s in st.lookups then Some(st.lookups[s]) else None) == LookupAfter(es, s);
  }

  ghost predicate CanResolveTo(p: Option<Person>, a: Access) {
    p.Some? && exists context :: Resolved(p.value.userId, context) && a == ResolveChatAccess(context)
  }

  /** What may happen after a run, the turns of handlers apart: a new socket connects, a
      connected one starts an event or disconnects, its pending access lookup lands with
      what some context resolves to or fails, a shared lookup answers for those with the
      role, participants change, and a handler throws. */
  ghost predicate MayHappen(es: seq<Event>, e: Event)
    requires Feasible(INITIAL, es)
  {
    match e
    case Connects(s, _, _, _) => ConnectedAs(es, s).None?
    case Begins(h, s, _, _) => ConnectedAs(es, s).Some? && h !in Run(INITIAL, es).handlers
    case Disconnects(s) => ConnectedAs(es, s).Some?
    case AccessLands(s, a) => LookupAfter(es, s) == Some(Pending) && CanResolveTo(ConnectedAs(es, s), a)
    case AccessFails(s) => LookupAfter(es, s) == Some(Pending)
    case SharedAdminLands(s, _) => ConnectedAs(es, s).Some? && ConnectedAs(es, s).value.isAdmin
    case SharedExpeditionLands(s, _) => ConnectedAs(es, s).Some? && ConnectedAs(es, s).value.isExpedition
    case ParticipantsChange(_) => true
    case Throws(h) => h in Run(INITIAL, es).handlers
    case _ => false
  }

  predicate IsHandlerTurn(e: Event) {
    || e.HandlerGetsShared? || e.DatabaseChecks? || e.Continues? || e.ServiceReturns?
    || e.DatabaseFindsRecipient? || e.EmitsToRecipient?
  }

  /** Every answer the protocol lets a lookup give is that of some context. */
  lemma AnswersResolve(userId: Id, a: Access)
    ensures Answerable(userId, a) <==> exists context :: Resolved(userId, context) && a == ResolveChatAccess(context)
  {
    if Answerable(userId, a) {
      var context :=
        if a.viaMembership then Some(Context(false, false, a.supplierId, if a.canChat then {"chat.view"} else {}))
        else if a.supplierId.None? then None
        else Some(OwnerContext(userId));
      assert Resolved(userId, context) && a == ResolveChatAccess(context);
    }
  }

  lemma TurnsPossibleExactly(es: seq<Event>, e: Event)
    requires Feasible(INITIAL, es) && !IsHandlerTurn(e)
    ensures Enabled(Run(INITIAL, es), e) <==> MayHappen(es, e)
  {
    RecordsExactly(es);
    var st := Run(INITIAL, es);
    if !e.ParticipantsChange? && !e.Throws? {
      ConnectedExactly(es, e.s);
      LookupsOfConnected(es, e.s);
      assert (if e.s in st.lookups then Some(st.lookups[e.s]) else None) == LookupAfter(es, e.s);
      if e.AccessLands? && e.s in st.sockets {
        AnswersResolve(st.sockets[e.s].userId, e.access);
      }
    }
  }

  // ----- Undisturbed events

  /** The account an event of this socket is for: an admin's the shared account if there
      is one, everyone else's as the socket's fields say. */
  predicate IsFor(v: SocketView, shared: Option<Id>, me: Id) {
    match StartOf(v)
    case Denied => false
    case AsAdmin => me == if shared.Some? then shared.value else v.userId
    case As(id) => me == id
  }

  /** For whom that is after any run, read off the events; nobody, for a refused member. */
  lemma IsForExactly(es: seq<Event>, s: SocketId, shared: Option<Id>, me: Id)
    requires Feasible(INITIAL, es) && ConnectedAs(es, s).Some?
    ensures s in Run(INITIAL, es).sockets
    ensures var p, l := ConnectedAs(es, s).value, LookupAfter(es, s);
            IsFor(Run(INITIAL, es).sockets[s], shared, me) <==>
              && !(l.Some? && l.value.Landed? && l.value.access.viaMembership && !l.value.access.canChat)
              && me == if p.isAdmin then (if shared.Some? then shared.value else p.userId)
                       else if l.Some? && l.value.Landed? && l.value.access.supplierId.Some? then l.value.access.supplierId.value
                       else p.userId
  {
    StartsExactly(es, s);
    ConnectedExactly(es, s);
  }

  /** The turns of an event up to the answer of the participant check. */
  function ToCheck(v: SocketView, h: HandlerId, s: SocketId, kind: Kind, c: ConversationId, shared: Option<Id>): seq<Event> {
    [Begins(h, s, kind, c)] + (if v.isAdmin then [HandlerGetsShared(h, shared)] else []) + [DatabaseChecks(h)]
  }

  function AfterCheck(st: State, h: HandlerId, handler: Handler, isAdmin: bool, shared: Option<Id>): State {
    st.(handlers := st.handlers[h := handler],
        adminIds := if isAdmin then Recorded(st.adminIds, shared) else st.adminIds)
  }

  lemma EventChecked(
      st: State, h: HandlerId, s: SocketId, kind: Kind, c: ConversationId, shared: Option<Id>, me: Id)
    requires h !in st.handlers && s in st.sockets && IsFor(st.sockets[s], shared, me)
    ensures var v := st.sockets[s];
            Leads(st, ToCheck(v, h, s, kind, c, shared),
                  AfterCheck(st, h, Handler(s, kind, c, Checked(me, (c, me) in st.participants)), v.isAdmin, shared))
  {
    var v := st.sockets[s];
    var begins, checks := Begins(h, s, kind, c), DatabaseChecks(h);
    var asked := AfterCheck(st, h, Handler(s, kind, c, AwaitCheck(me)), v.isAdmin, shared);
    LeadsOne(st, begins);
    if v.isAdmin {
      var waiting := WithHandler(st, h, Handler(s, kind, c, AwaitShared));
      assert Apply(st, begins) == waiting;
      LeadsOne(waiting, HandlerGetsShared(h, shared));
      assert Apply(waiting, HandlerGetsShared(h, shared)) == asked;
      LeadsOn(st, [begins], waiting, [HandlerGetsShared(h, shared)], asked);
    } else {
      assert Apply(st, begins) == asked;
      assert [begins] + [] == [begins];
    }
    LeadsOne(asked, checks);
    assert Apply(asked, checks) ==
           AfterCheck(st, h, Handler(s, kind, c, Checked(me, (c, me) in st.participants)), v.isAdmin, shared);
    LeadsOn(st, [begins] + (if v.isAdmin then [HandlerGetsShared(h, shared)] else []), asked, [checks], Apply(asked, checks));
  }

  /** Someone whose account takes no part gets nothing out of any event. */
  lemma OutsiderGetsNothing(
      st: State, h: HandlerId, s: SocketId, kind: Kind, c: ConversationId, shared: Option<Id>, me: Id)
    requires h !in st.handlers && s in st.sockets && IsFor(st.sockets[s], shared, me) && (c, me) !in st.participants
    ensures var v, es := st.sockets[s], ToCheck(st.sockets[s], h, s, kind, c, shared) + [Continues(h)];
            && Feasible(st, es)
            && Run(st, es) == st.(adminIds := if v.isAdmin then Recorded(st.adminIds, shared) else st.adminIds)
  {
    var v := st.sockets[s];
    EventChecked(st, h, s, kind, c, shared, me);
    var checked := AfterCheck(st, h, Handler(s, kind, c, Checked(me, false)), v.isAdmin, shared);
    LeadsOne(checked, Continues(h));
    assert Apply(checked, Continues(h)).handlers == st.handlers;
    LeadsOn(st, ToCheck(v, h, s, kind, c, shared), checked, [Continues(h)], Apply(checked, Continues(h)));
  }

  /** Nor does someone who is refused. */
  lemma RefusedGetsNothing(st: State, h: HandlerId, s: SocketId, kind: Kind, c: ConversationId)
    requires h !in st.handlers && s in st.sockets && StartOf(st.sockets[s]) == Denied
    ensures Feasible(st, [Begins(h, s, kind, c)]) && Run(st, [Begins(h, s, kind, c)]) == st
  {
    LeadsOne(st, Begins(h, s, kind, c));
  }

  /** A join or leave for a participant takes effect, on that room of that socket only. */
  lemma JoinOrLeaveTakesEffect(
      st: State, h: HandlerId, s: SocketId, kind: Kind, c: ConversationId, shared: Option<Id>, me: Id)
    requires h !in st.handlers && s in st.sockets && IsFor(st.sockets[s], shared, me) && (c, me) in st.participants
    requires kind in {JoinEvent, LeaveEvent}
    ensures var v, es := st.sockets[s], ToCheck(st.sockets[s], h, s, kind, c, shared) + [Continues(h)];
            var rooms := if kind == JoinEvent then v.rooms + {ConversationRoom(c)} else v.rooms - {ConversationRoom(c)};
            && Feasible(st, es)
            && Run(st, es).sockets == st.sockets[s := v.(rooms := rooms)]
            && Run(st, es).deliveries == st.deliveries && Run(st, es).handlers == st.handlers
  {
    var v := st.sockets[s];
    EventChecked(st, h, s, kind, c, shared, me);
    var checked := AfterCheck(st, h, Handler(s, kind, c, Checked(me, true)), v.isAdmin, shared);
    LeadsOne(checked, Continues(h));
    assert Apply(checked, Continues(h)).handlers == st.handlers;
    LeadsOn(st, ToCheck(v, h, s, kind, c, shared), checked, [Continues(h)], Apply(checked, Continues(h)));
  }

  predicate IsChat(kind: Kind) {
    kind in {Message, Typing, MarkRead, Delivered}
  }

  /** The turns from the checked event to its broadcast. */
  function ToBroadcast(h: HandlerId, kind: Kind): seq<Event> {
    [Continues(h)] + if kind in {Message, MarkRead} then [ServiceReturns(h)] else []
  }

  /** A broadcast does not depend on how far its handler has got. */
  lemma SameBroadcast(st: State, st': State, h: HandlerId, me: Id)
    requires h in st.handlers && st' == WithHandler(st, h, st.handlers[h].(stage := AwaitService(me)))
    ensures Broadcast(st', h, me) == Broadcast(st, h, me)
  {
    assert Emit(st', st'.handlers[h], ConversationRoom(st.handlers[h].conversation), me).deliveries
        == Emit(st, st.handlers[h], ConversationRoom(st.handlers[h].conversation), me).deliveries;
    assert Finish(st', h).handlers == Finish(st, h).handlers;
    var stage := AwaitRecipient(me);
    assert AtStage(st', h, stage).handlers == AtStage(st, h, stage).handlers;
  }

  lemma EventBroadcast(st: State, h: HandlerId, s: SocketId, kind: Kind, c: ConversationId, me: Id)
    requires h in st.handlers && st.handlers[h] == Handler(s, kind, c, Checked(me, true)) && s in st.sockets && IsChat(kind)
    ensures Leads(st, ToBroadcast(h, kind), Broadcast(st, h, me))
  {
    LeadsOne(st, Continues(h));
    if kind in {Message, MarkRead} {
      var served := WithHandler(st, h, Handler(s, kind, c, AwaitService(me)));
      assert Apply(st, Continues(h)) == served;
      LeadsOne(served, ServiceReturns(h));
      SameBroadcast(st, served, h, me);
      LeadsOn(st, [Continues(h)], served, [ServiceReturns(h)], Broadcast(st, h, me));
    } else {
      assert Apply(st, Continues(h)) == Broadcast(st, h, me);
      assert [Continues(h)] + [] == [Continues(h)];
    }
  }

  /** The delivery of this event to a socket in the room, not to the sender's own socket
      in the conversation room unless it is a message. */
  predicate ForRoom(st: State, s: SocketId, kind: Kind, c: ConversationId, me: Id, room: Room, d: Delivery) {
    && d == Delivery(d.to, kind, c, me, room) && d.to in st.sockets && room in st.sockets[d.to].rooms
    && (kind == Message || room.UserRoom? || d.to != s)
  }

  /** The room has got the event, and nothing else has been delivered. */
  ghost predicate Reached(st: State, st': State, s: SocketId, kind: Kind, c: ConversationId, me: Id, room: Room) {
    forall d :: d in st'.deliveries <==> d in st.deliveries || ForRoom(st, s, kind, c, me, room, d)
  }

  lemma BroadcastReaches(st: State, h: HandlerId, me: Id)
    requires h in st.handlers
    ensures var handler, st' := st.handlers[h], Broadcast(st, h, me);
            && st'.sockets == st.sockets && st'.participants == st.participants
            && Reached(st, st', handler.socket, handler.kind, handler.conversation, me, ConversationRoom(handler.conversation))
            && if handler.kind == MarkRead then h !in st'.handlers
               else h in st'.handlers && st'.handlers[h] == handler.(stage := AwaitRecipient(me))
  {
  }

  /** The turns of the copy for the other participant; `chat:mark-read` has none. */
  function ToRecipient(h: HandlerId, kind: Kind, r: Id): seq<Event> {
    if kind == MarkRead then [] else [DatabaseFindsRecipient(h, Some(r))] + [EmitsToRecipient(h)]
  }

  lemma RecipientReached(st: State, h: HandlerId, s: SocketId, kind: Kind, c: ConversationId, me: Id, r: Id)
      returns (st': State)
    requires h in st.handlers && st.handlers[h] == Handler(s, kind, c, AwaitRecipient(me)) && s in st.sockets
    requires kind != MarkRead && (c, r) in st.participants && r != me
    ensures Leads(st, ToRecipient(h, kind, r), st')
    ensures st'.sockets == st.sockets && h !in st'.handlers
    ensures Reached(st, st', s, kind, c, me, UserRoom(r))
  {
    var finds, emits := DatabaseFindsRecipient(h, Some(r)), EmitsToRecipient(h);
    var found := WithHandler(st, h, Handler(s, kind, c, GotRecipient(me, Some(r))));
    LeadsOne(st, finds);
    assert Apply(st, finds) == found;
    LeadsOne(found, emits);
    st' := Apply(found, emits);
    LeadsOn(st, [finds], found, [emits], st');
  }

  /** All turns of a chat event. */
  function Turns(v: SocketView, h: HandlerId, s: SocketId, kind: Kind, c: ConversationId, shared: Option<Id>, r: Id): seq<Event> {
    ToCheck(v, h, s, kind, c, shared) + ToBroadcast(h, kind) + ToRecipient(h, kind, r)
  }

  /** Every chat event for a participant, its turns undisturbed, reaches exactly everyone
      in the conversation room, the sender's own socket only with a message, and, unless
      it is `chat:mark-read`, everyone in the user room of the other participant; an
      admin's on behalf of the shared account. */
  lemma EventArrives(
      st: State, h: HandlerId, s: SocketId, kind: Kind, c: ConversationId, shared: Option<Id>, me: Id, r: Id)
    requires h !in st.handlers && s in st.sockets && IsFor(st.sockets[s], shared, me) && IsChat(kind)
    requires (c, me) in st.participants && (c, r) in st.participants && r != me
    ensures var es := Turns(st.sockets[s], h, s, kind, c, shared, r);
            && Feasible(st, es)
            && Run(st, es).sockets == st.sockets && h !in Run(st, es).handlers
            && forall d :: d in Run(st, es).deliveries <==>
                 || d in st.deliveries
                 || (&& d == Delivery(d.to, kind, c, me, d.via) && d.to in st.sockets && d.via in st.sockets[d.to].rooms
                     && ((d.via == ConversationRoom(c) && (kind == Message || d.to != s))
                         || (d.via == UserRoom(r) && kind != MarkRead)))
  {
    var v := st.sockets[s];
    var checked := AfterCheck(st, h, Handler(s, kind, c, Checked(me, true)), v.isAdmin, shared);
    var toCheck, toBroadcast, toRecipient := ToCheck(v, h, s, kind, c, shared), ToBroadcast(h, kind), ToRecipient(h, kind, r);
    EventChecked(st, h, s, kind, c, shared, me);
    EventBroadcast(checked, h, s, kind, c, me);
    var sent := Broadcast(checked, h, me);
    LeadsOn(st, toCheck, checked, toBroadcast, sent);
    BroadcastReaches(checked, h, me);
    if kind == MarkRead {
      assert toCheck + toBroadcast + toRecipient == toCheck + toBroadcast;
    } else {
      var done := RecipientReached(sent, h, s, kind, c, me, r);
      LeadsOn(st, toCheck + toBroadcast, sent, toRecipient, done);
    }
  }
}
