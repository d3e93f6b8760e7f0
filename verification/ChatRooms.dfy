/** Socket rooms and chat events of server.js as a step protocol. The lookup made
    at connect time, the shared-identity lookups and the asynchronous handlers of
    every socket interleave freely; each step below is one turn of the event loop
    or one answer of the database. */
module ChatRooms {
  import opened Wrappers
  import opened ChatAccess

  type SocketId = nat
  type HandlerId = nat
  type ConversationId = string

  datatype Room =
    | AdminRoom
    | ExpeditionRoom
    | UserRoom(user: Id)
    | ConversationRoom(conversation: ConversationId)

  /** What the server keeps on a socket. */
  datatype SocketView = SocketView(
    userId: Id, isAdmin: bool, isExpedition: bool, fields: SocketFields, rooms: set<Room>)

  // ----- What each callback does to its socket

  function Connected(userId: Id, isAdmin: bool, isExpedition: bool): SocketView {
    SocketView(userId, isAdmin, isExpedition, UNSET,
               (if isAdmin then {AdminRoom} else {})
               + (if isExpedition then {ExpeditionRoom} else {})
               + {UserRoom(userId)})
  }

  function JoinShared(v: SocketView, shared: Option<Id>): SocketView {
    if shared.Some? then v.(rooms := v.rooms + {UserRoom(shared.value)}) else v
  }

  function AccessLanded(v: SocketView, a: Access): SocketView {
    var joins := a.supplierId.Some? && a.supplierId != Some(v.userId) && a.canChat;
    v.(fields := AfterAccess(v.userId, v.fields, a),
       rooms := if joins then v.rooms + {UserRoom(a.supplierId.value)} else v.rooms)
  }

  function AccessFailed(v: SocketView): SocketView {
    v.(fields := AfterFailure(v.fields))
  }

  /** How a chat handler starts: refused, or with the identity it will use; an
      admin's identity still has to be looked up. */
  datatype Start = Denied | AsAdmin | As(id: Id)

  function StartOf(v: SocketView): Start {
    if !SocketAdmits(v.fields) then Denied
    else if v.isAdmin then AsAdmin
    else As(v.fields.supplierId.GetOr(v.userId))
  }

  /** A server socket: its fields are assigned and its rooms joined by callbacks. */
  class ChatSocket {
    const userId: Id
    const isAdmin: bool
    const isExpedition: bool
    var supplierId: Option<Id>
    var chatAllowed: Option<bool>
    var rooms: set<Room>

    function View(): SocketView
      reads this
    {
      SocketView(userId, isAdmin, isExpedition, SocketFields(supplierId, chatAllowed), rooms)
    }

    constructor (userId: Id, roles: seq<string>)
      ensures View() == Connected(userId, "admin" in roles, "expedition" in roles)
      ensures this.userId == userId && supplierId == None && chatAllowed == None
      ensures UserRoom(userId) in rooms && rooms <= {UserRoom(userId), AdminRoom, ExpeditionRoom}
      ensures (AdminRoom in rooms <==> "admin" in roles) && (ExpeditionRoom in rooms <==> "expedition" in roles)
    {
      this.userId := userId;
      isAdmin := "admin" in roles;
      isExpedition := "expedition" in roles;
      supplierId, chatAllowed := None, None;
      rooms := {};
      new;
      if "admin" in roles { Join(AdminRoom); }
      if "expedition" in roles { Join(ExpeditionRoom); }
      Join(UserRoom(userId));
    }

    method Join(room: Room)
      modifies this`rooms
      ensures rooms == old(rooms) + {room}
    {
      rooms := rooms + {room};
    }

    method Leave(room: Room)
      modifies this`rooms
      ensures rooms == old(rooms) - {room}
    {
      rooms := rooms - {room};
    }

    method OnSharedId(shared: Option<Id>)
      modifies this
      ensures View() == JoinShared(old(View()), shared)
      ensures supplierId == old(supplierId) && chatAllowed == old(chatAllowed)
      ensures forall room :: room in rooms <==> room in old(rooms) || (room.UserRoom? && shared == Some(room.user))
    {
      if shared.Some? { Join(UserRoom(shared.value)); }
    }

    method OnAccess(a: Access)
      modifies this
      ensures View() == AccessLanded(old(View()), a)
      ensures a.supplierId in {None, Some(userId)} ==> supplierId == old(supplierId) && rooms == old(rooms)
      ensures a.supplierId !in {None, Some(userId)} ==>
                && supplierId == a.supplierId
                && rooms == if a.canChat then old(rooms) + {UserRoom(a.supplierId.value)} else old(rooms)
      ensures chatAllowed == if a.viaMembership then Some(a.canChat) else old(chatAllowed)
    {
      if a.supplierId.Some? && a.supplierId.value != userId {
        supplierId := a.supplierId;
        if a.canChat { Join(UserRoom(a.supplierId.value)); }
      }
      if a.viaMembership { chatAllowed := Some(a.canChat); }
    }

    method OnAccessFailure()
      modifies this
      ensures View() == AccessFailed(old(View()))
      ensures supplierId == old(supplierId) && rooms == old(rooms)
      ensures chatAllowed.Some? && (chatAllowed.value <==> old(chatAllowed) in {None, Some(true)})
    {
      if chatAllowed == None { chatAllowed := Some(true); }
    }

    /** The check and the reading of the identity happen in the same turn. */
    method BeginChat() returns (s: Start)
      ensures s == StartOf(View())
      ensures s == Denied <==> chatAllowed == Some(false)
      ensures s == AsAdmin <==> chatAllowed != Some(false) && isAdmin
      ensures s.As? ==> s.id == if supplierId == None then userId else supplierId.value
    {
      if chatAllowed == Some(false) { return Denied; }
      if isAdmin { return AsAdmin; }
      return As(if supplierId.Some? then supplierId.value else userId);
    }
  }

  // ----- Handlers

  datatype Kind = JoinEvent | LeaveEvent | Message | Typing | MarkRead | Delivered

  /** Where a handler waits: for the shared admin id, for the participant check,
      with its answer, for a chat service call, for the other participant, with it. */
  datatype Stage =
    | AwaitShared
    | AwaitCheck(access: Id)
    | Checked(access: Id, found: bool)
    | AwaitService(access: Id)
    | AwaitRecipient(access: Id)
    | GotRecipient(access: Id, recipient: Option<Id>)

  datatype Handler = Handler(socket: SocketId, kind: Kind, conversation: ConversationId, stage: Stage)

  datatype LookupState = Pending | Landed(access: Access) | Broken

  /** A chat event that reached a socket, through a room, on behalf of `sender`. */
  datatype Delivery = Delivery(to: SocketId, kind: Kind, conversation: ConversationId, sender: Id, via: Room)

  datatype State = State(
    sockets: map<SocketId, SocketView>,
    lookups: map<SocketId, LookupState>,
    handlers: map<HandlerId, Handler>,
    participants: set<(ConversationId, Id)>,
    everParticipants: set<(ConversationId, Id)>,  // record: all participants there ever were
    adminIds: set<Id>,                            // record: answers of the shared admin lookup
    expeditionIds: set<Id>,                       // record: answers of the shared expedition lookup
    deliveries: set<Delivery>)                    // record: everything delivered

  datatype Event =
    | Connects(s: SocketId, userId: Id, isAdmin: bool, isExpedition: bool)
    | SharedAdminLands(s: SocketId, shared: Option<Id>)
    | SharedExpeditionLands(s: SocketId, shared: Option<Id>)
    | AccessLands(s: SocketId, access: Access)
    | AccessFails(s: SocketId)
    | Begins(h: HandlerId, s: SocketId, kind: Kind, conversation: ConversationId)
    | HandlerGetsShared(h: HandlerId, shared: Option<Id>)
    | DatabaseChecks(h: HandlerId)
    | Continues(h: HandlerId)
    | ServiceReturns(h: HandlerId)
    | DatabaseFindsRecipient(h: HandlerId, recipient: Option<Id>)
    | EmitsToRecipient(h: HandlerId)
    | Throws(h: HandlerId)
    | ParticipantsChange(participants: set<(ConversationId, Id)>)
    | Disconnects(s: SocketId)

  /** What a lookup can answer about a user: nobody but a member is restricted or
      acts for another account. */
  predicate Answerable(userId: Id, a: Access) {
    && (!a.viaMembership ==> a.canChat && a.supplierId in {None, Some(userId)})
    && (a.viaMembership ==> a.supplierId.Some?)
  }

  lemma ResolvedAnswerable(userId: Id, context: Option<Context>)
    requires Resolved(userId, context)
    ensures Answerable(userId, ResolveChatAccess(context))
  {
  }

  predicate AtWork(st: State, h: HandlerId) {
    h in st.handlers && st.handlers[h].socket in st.sockets
  }

  predicate Enabled(st: State, e: Event) {
    match e
    case Connects(s, _, _, _) => s !in st.sockets
    case SharedAdminLands(s, _) => s in st.sockets && st.sockets[s].isAdmin
    case SharedExpeditionLands(s, _) => s in st.sockets && st.sockets[s].isExpedition
    case AccessLands(s, a) =>
      s in st.sockets && s in st.lookups && st.lookups[s] == Pending && Answerable(st.sockets[s].userId, a)
    case AccessFails(s) => s in st.sockets && s in st.lookups && st.lookups[s] == Pending
    case Begins(h, s, _, _) => h !in st.handlers && s in st.sockets
    case HandlerGetsShared(h, _) => AtWork(st, h) && st.handlers[h].stage.AwaitShared?
    case DatabaseChecks(h) => AtWork(st, h) && st.handlers[h].stage.AwaitCheck?
    case Continues(h) => AtWork(st, h) && st.handlers[h].stage.Checked?
    case ServiceReturns(h) => AtWork(st, h) && st.handlers[h].stage.AwaitService?
    case DatabaseFindsRecipient(h, r) =>
      && AtWork(st, h) && st.handlers[h].stage.AwaitRecipient?
      && (r.Some? ==> r.value != st.handlers[h].stage.access && (st.handlers[h].conversation, r.value) in st.participants)
    case EmitsToRecipient(h) => AtWork(st, h) && st.handlers[h].stage.GotRecipient?
    case Throws(h) => h in st.handlers
    case ParticipantsChange(_) => true
    case Disconnects(s) => s in st.sockets
  }

  // ----- Steps

  function WithSocket(st: State, s: SocketId, v: SocketView): State {
    st.(sockets := st.sockets[s := v])
  }

  function AtStage(st: State, h: HandlerId, stage: Stage): State
    requires h in st.handlers
  {
    st.(handlers := st.handlers[h := st.handlers[h].(stage := stage)])
  }

  function Finish(st: State, h: HandlerId): State {
    st.(handlers := st.handlers - {h})
  }

  /** Everyone in the room gets the event; only `chat:message` goes to the sender's
      own socket too when it is in the conversation room. */
  function Emit(st: State, h: Handler, room: Room, sender: Id): State {
    var reached := set s | s in st.sockets && room in st.sockets[s].rooms
                           && (h.kind == Message || room.UserRoom? || s != h.socket);
    st.(deliveries := st.deliveries + set s | s in reached :: Delivery(s, h.kind, h.conversation, sender, room))
  }

  /** The broadcast to the conversation room; every kind but `chat:mark-read` goes
      on to look up the other participant. */
  function Broadcast(st: State, h: HandlerId, access: Id): State
    requires h in st.handlers
  {
    var handler := st.handlers[h];
    var st := Emit(st, handler, ConversationRoom(handler.conversation), access);
    if handler.kind == MarkRead then Finish(st, h) else AtStage(st, h, AwaitRecipient(access))
  }

  function ContinueChecked(st: State, h: HandlerId, access: Id, found: bool): State
    requires AtWork(st, h)
  {
    var handler := st.handlers[h];
    var v := st.sockets[handler.socket];
    var room := ConversationRoom(handler.conversation);
    if !found then Finish(st, h)
    else
      match handler.kind
      case JoinEvent => Finish(WithSocket(st, handler.socket, v.(rooms := v.rooms + {room})), h)
      case LeaveEvent => Finish(WithSocket(st, handler.socket, v.(rooms := v.rooms - {room})), h)
      case Message => AtStage(st, h, AwaitService(access))
      case MarkRead => AtStage(st, h, AwaitService(access))
      case Typing => Broadcast(st, h, access)
      case Delivered => Broadcast(st, h, access)
  }

  function Recorded(ids: set<Id>, shared: Option<Id>): set<Id> {
    if shared.Some? then ids + {shared.value} else ids
  }

  function Apply(st: State, e: Event): State
    requires Enabled(st, e)
  {
    match e
    case Connects(s, userId, isAdmin, isExpedition) =>
      WithSocket(st, s, Connected(userId, isAdmin, isExpedition)).(lookups := st.lookups[s := Pending])
    case SharedAdminLands(s, shared) =>
      WithSocket(st, s, JoinShared(st.sockets[s], shared)).(adminIds := Recorded(st.adminIds, shared))
    case SharedExpeditionLands(s, shared) =>
      WithSocket(st, s, JoinShared(st.sockets[s], shared)).(expeditionIds := Recorded(st.expeditionIds, shared))
    case AccessLands(s, a) =>
      WithSocket(st, s, AccessLanded(st.sockets[s], a)).(lookups := st.lookups[s := Landed(a)])
    case AccessFails(s) =>
      WithSocket(st, s, AccessFailed(st.sockets[s])).(lookups := st.lookups[s := Broken])
    case Begins(h, s, kind, conversation) =>
      (match StartOf(st.sockets[s])
       case Denied => st
       case AsAdmin => st.(handlers := st.handlers[h := Handler(s, kind, conversation, AwaitShared)])
       case As(id) => st.(handlers := st.handlers[h := Handler(s, kind, conversation, AwaitCheck(id))]))
    case HandlerGetsShared(h, shared) =>
      var access := shared.GetOr(st.sockets[st.handlers[h].socket].userId);
      AtStage(st, h, AwaitCheck(access)).(adminIds := Recorded(st.adminIds, shared))
    case DatabaseChecks(h) =>
      var access := st.handlers[h].stage.access;
      AtStage(st, h, Checked(access, (st.handlers[h].conversation, access) in st.participants))
    case Continues(h) =>
      ContinueChecked(st, h, st.handlers[h].stage.access, st.handlers[h].stage.found)
    case ServiceReturns(h) =>
      Broadcast(st, h, st.handlers[h].stage.access)
    case DatabaseFindsRecipient(h, r) =>
      AtStage(st, h, GotRecipient(st.handlers[h].stage.access, r))
    case EmitsToRecipient(h) =>
      var stage := st.handlers[h].stage;
      Finish(if stage.recipient.Some? then Emit(st, st.handlers[h], UserRoom(stage.recipient.value), stage.access) else st, h)
    case Throws(h) => Finish(st, h)
    case ParticipantsChange(p) =>
      st.(participants := p, everParticipants := st.everParticipants + p)
    case Disconnects(s) =>
      WithSocket(st, s, st.sockets[s].(rooms := {}))
  }

  const INITIAL := State(map[], map[], map[], {}, {}, {}, {}, {})

  predicate Feasible(st: State, es: seq<Event>)
    decreases |es|
  {
    es == [] || (Enabled(st, es[0]) && Feasible(Apply(st, es[0]), es[1..]))
  }

  function Run(st: State, es: seq<Event>): State
    requires Feasible(st, es)
    decreases |es|
  {
    if es == [] then st else Run(Apply(st, es[0]), es[1..])
  }

  // ----- What a socket may act as

  /** Its own id, a shared id of its role, or the supplier of a membership that may
      read the chat. */
  predicate MayActAs(st: State, s: SocketId, id: Id) {
    && s in st.sockets && s in st.lookups
    && var v := st.sockets[s];
       || id == v.userId
       || (v.isAdmin && id in st.adminIds)
       || (v.isExpedition && id in st.expeditionIds)
       || (st.lookups[s].Landed? && st.lookups[s].access.supplierId == Some(id) && st.lookups[s].access.canChat)
  }

  /** One of its identities was a participant of the conversation. */
  ghost predicate Entitled(st: State, s: SocketId, c: ConversationId) {
    exists id :: MayActAs(st, s, id) && (c, id) in st.everParticipants
  }

  ghost predicate RoomJustified(st: State, s: SocketId, room: Room)
    requires s in st.sockets
  {
    match room
    case AdminRoom => st.sockets[s].isAdmin
    case ExpeditionRoom => st.sockets[s].isExpedition
    case UserRoom(id) => MayActAs(st, s, id)
    case ConversationRoom(c) => Entitled(st, s, c)
  }

  /** The fields are what the lookup left, all of it in one callback. */
  predicate FieldsMatch(v: SocketView, l: LookupState) {
    match l
    case Pending => v.fields == UNSET
    case Landed(a) => v.fields == AfterAccess(v.userId, UNSET, a) && Answerable(v.userId, a)
    case Broken => v.fields == AfterFailure(UNSET)
  }

  ghost predicate SocketOk(st: State, s: SocketId) {
    && s in st.sockets && s in st.lookups
    && FieldsMatch(st.sockets[s], st.lookups[s])
    && forall room :: room in st.sockets[s].rooms ==> RoomJustified(st, s, room)
  }

  predicate HandlerOk(st: State, h: Handler) {
    && h.socket in st.sockets && h.socket in st.lookups
    && (h.stage.AwaitShared? ==> st.sockets[h.socket].isAdmin)
    && (!h.stage.AwaitShared? ==> MayActAs(st, h.socket, h.stage.access))
    && (h.stage.Checked? && h.stage.found ==> (h.conversation, h.stage.access) in st.everParticipants)
    && (h.stage.AwaitService? || h.stage.AwaitRecipient? || h.stage.GotRecipient? ==>
          (h.conversation, h.stage.access) in st.everParticipants)
    && (h.stage.GotRecipient? && h.stage.recipient.Some? ==>
          h.stage.recipient.value != h.stage.access && (h.conversation, h.stage.recipient.value) in st.everParticipants)
  }

  /** The sender's account took part in the conversation, and the event came through
      the conversation room or the user room of another participant, to a socket
      entitled to the conversation. */
  ghost predicate DeliveryJustified(st: State, d: Delivery) {
    && (d.conversation, d.sender) in st.everParticipants
    && Entitled(st, d.to, d.conversation)
    && match d.via
       case ConversationRoom(c) => c == d.conversation
       case UserRoom(r) => r != d.sender && (d.conversation, r) in st.everParticipants && MayActAs(st, d.to, r)
       case _ => false
  }

  ghost predicate Inv(st: State) {
    && st.participants <= st.everParticipants
    && (forall s :: s in st.sockets ==> SocketOk(st, s))
    && (forall h :: h in st.handlers ==> HandlerOk(st, st.handlers[h]))
    && (forall d :: d in st.deliveries ==> DeliveryJustified(st, d))
  }

  // ----- The invariant is kept

  /** Records only grow, a socket stays its user's, and a lookup that has settled
      stays as it is. */
  predicate Extends(st: State, st': State) {
    && st.everParticipants <= st'.everParticipants
    && st.adminIds <= st'.adminIds
    && st.expeditionIds <= st'.expeditionIds
    && (forall s :: s in st.sockets ==>
          && s in st'.sockets
          && st'.sockets[s].userId == st.sockets[s].userId
          && st'.sockets[s].isAdmin == st.sockets[s].isAdmin
          && st'.sockets[s].isExpedition == st.sockets[s].isExpedition)
    && (forall s :: s in st.lookups && s in st.sockets ==>
          s in st'.lookups && (st.lookups[s] == Pending || st'.lookups[s] == st.lookups[s]))
  }

  lemma IdentityStays(st: State, st': State, s: SocketId, id: Id)
    requires Extends(st, st') && MayActAs(st, s, id)
    ensures MayActAs(st', s, id)
  {
  }

  lemma DeliveryStays(st: State, st': State, d: Delivery)
    requires Extends(st, st') && DeliveryJustified(st, d)
    ensures DeliveryJustified(st', d)
  {
  }

  lemma HandlerStays(st: State, st': State, h: Handler)
    requires Extends(st, st') && HandlerOk(st, h)
    ensures HandlerOk(st', h)
  {
  }

  /** A socket whose fields still match and whose rooms are old ones or justified. */
  lemma SocketStays(st: State, st': State, s: SocketId)
    requires Extends(st, st') && SocketOk(st, s)
    requires FieldsMatch(st'.sockets[s], st'.lookups[s])
    requires forall room :: room in st'.sockets[s].rooms ==> room in st.sockets[s].rooms || RoomJustified(st', s, room)
    ensures SocketOk(st', s)
  {
  }

  lemma EmitFrame(st: State, h: Handler, room: Room, sender: Id)
    ensures var st' := Emit(st, h, room, sender);
            st' == st.(deliveries := st'.deliveries)
  {
  }

  /** A step changes the sockets, handlers, lookups and records as follows. */
  lemma ContinueFrame(st: State, h: HandlerId, access: Id, found: bool)
    requires AtWork(st, h)
    ensures var st' := ContinueChecked(st, h, access, found);
            && Extends(st, st')
            && st'.lookups == st.lookups && st'.participants == st.participants
            && st'.everParticipants == st.everParticipants
            && st'.sockets.Keys == st.sockets.Keys
  {
  }

  /** A callback of the connect-time code: it touches one socket. */
  predicate ConnectTime(e: Event) {
    e.Connects? || e.SharedAdminLands? || e.SharedExpeditionLands? || e.AccessLands? || e.AccessFails? || e.Disconnects?
  }

  lemma ConnectTimeExtends(st: State, e: Event)
    requires Enabled(st, e) && ConnectTime(e)
    ensures Extends(st, Apply(st, e))
  {
  }

  lemma OthersUntouched(st: State, e: Event)
    requires Enabled(st, e) && !ConnectTime(e) && !e.Continues?
    ensures Apply(st, e).sockets == st.sockets && Apply(st, e).lookups == st.lookups
    ensures Extends(st, Apply(st, e))
  {
  }

  lemma ApplyExtends(st: State, e: Event)
    requires Enabled(st, e)
    ensures Extends(st, Apply(st, e))
  {
    if e.Continues? {
      ContinueFrame(st, e.h, st.handlers[e.h].stage.access, st.handlers[e.h].stage.found);
    } else if ConnectTime(e) {
      ConnectTimeExtends(st, e);
    } else {
      OthersUntouched(st, e);
    }
  }

  lemma ConnectTimeKept(st: State, e: Event)
    requires Inv(st) && Enabled(st, e) && ConnectTime(e)
    ensures SocketOk(Apply(st, e), e.s)
  {
    var st' := Apply(st, e);
    ApplyExtends(st, e);
    if e.Connects? {
      assert MayActAs(st', e.s, e.userId);
    } else {
      assert SocketOk(st, e.s);
      if e.AccessLands? && e.access.canChat && e.access.supplierId.Some? {
        assert MayActAs(st', e.s, e.access.supplierId.value);
      } else if (e.SharedAdminLands? || e.SharedExpeditionLands?) && e.shared.Some? {
        assert MayActAs(st', e.s, e.shared.value);
      }
      SocketStays(st, st', e.s);
    }
  }

  /** What a processed check leaves of a socket: at most one room more. */
  lemma ContinueRooms(st: State, h: HandlerId, access: Id, found: bool, s: SocketId)
    requires AtWork(st, h) && s in st.sockets
    ensures var st', handler := ContinueChecked(st, h, access, found), st.handlers[h];
            && s in st'.sockets && st'.sockets[s].fields == st.sockets[s].fields
            && st'.sockets[s].userId == st.sockets[s].userId
            && forall room :: room in st'.sockets[s].rooms ==>
                 || room in st.sockets[s].rooms
                 || (found && s == handler.socket && room == ConversationRoom(handler.conversation))
  {
  }

  lemma OneRoomMore(st: State, st': State, h: Handler, s: SocketId)
    requires Extends(st, st') && SocketOk(st, s) && HandlerOk(st, h) && h.stage.Checked?
    requires st'.sockets[s].fields == st.sockets[s].fields && st'.lookups == st.lookups
    requires forall room :: room in st'.sockets[s].rooms ==>
               || room in st.sockets[s].rooms
               || (h.stage.found && s == h.socket && room == ConversationRoom(h.conversation))
    ensures SocketOk(st', s)
  {
    if h.stage.found && s == h.socket {
      IdentityStays(st, st', s, h.stage.access);
      assert RoomJustified(st', s, ConversationRoom(h.conversation));
    }
    SocketStays(st, st', s);
  }

  lemma ContinueKept(st: State, e: Event, s: SocketId)
    requires Inv(st) && Enabled(st, e) && e.Continues? && s in st.sockets
    ensures SocketOk(Apply(st, e), s)
  {
    var h := st.handlers[e.h];
    ContinueFrame(st, e.h, h.stage.access, h.stage.found);
    ContinueRooms(st, e.h, h.stage.access, h.stage.found, s);
    OneRoomMore(st, Apply(st, e), h, s);
  }

  lemma SocketsKept(st: State, e: Event, s: SocketId)
    requires Inv(st) && Enabled(st, e) && s in Apply(st, e).sockets
    ensures SocketOk(Apply(st, e), s)
  {
    var st' := Apply(st, e);
    if ConnectTime(e) && s == e.s {
      ConnectTimeKept(st, e);
    } else if e.Continues? {
      ContinueFrame(st, e.h, st.handlers[e.h].stage.access, st.handlers[e.h].stage.found);
      ContinueKept(st, e, s);
    } else {
      ApplyExtends(st, e);
      if !ConnectTime(e) {
        OthersUntouched(st, e);
      }
      assert SocketOk(st, s);
      SocketStays(st, st', s);
    }
  }

  /** The heart of the matter: the identity a handler starts with is one its
      socket may act as, because a member's supplier id is only ever visible
      together with the refusal of members who may not chat. */
  lemma StartIsSafe(st: State, s: SocketId)
    requires s in st.sockets && SocketOk(st, s)
    ensures StartOf(st.sockets[s]).As? ==> MayActAs(st, s, StartOf(st.sockets[s]).id)
    ensures StartOf(st.sockets[s]).AsAdmin? ==> st.sockets[s].isAdmin
  {
  }

  /** What becomes of a handler once its participant check is processed. */
  lemma ContinueHandlers(st: State, e: Event, h: HandlerId)
    requires Inv(st) && Enabled(st, e) && e.Continues? && h in Apply(st, e).handlers
    ensures HandlerOk(st, Apply(st, e).handlers[h])
  {
    assert HandlerOk(st, st.handlers[h]);
    assert HandlerOk(st, st.handlers[e.h]);
  }

  lemma BeginHandlers(st: State, e: Event, h: HandlerId)
    requires Inv(st) && Enabled(st, e) && e.Begins? && h in Apply(st, e).handlers
    ensures HandlerOk(st, Apply(st, e).handlers[h])
  {
    if h == e.h {
      assert SocketOk(st, e.s);
      StartIsSafe(st, e.s);
    } else {
      assert HandlerOk(st, st.handlers[h]);
    }
  }

  lemma HandlersKept(st: State, e: Event, h: HandlerId)
    requires Inv(st) && Enabled(st, e) && h in Apply(st, e).handlers
    ensures HandlerOk(Apply(st, e), Apply(st, e).handlers[h])
  {
    var st' := Apply(st, e);
    ApplyExtends(st, e);
    if e.Begins? {
      BeginHandlers(st, e, h);
      HandlerStays(st, st', st'.handlers[h]);
    } else if e.Continues? {
      ContinueHandlers(st, e, h);
      HandlerStays(st, st', st'.handlers[h]);
    } else {
      HandlerStays(st, st', st.handlers[h]);
    }
  }

  lemma EmitJustified(st: State, h: Handler, room: Room, sender: Id, d: Delivery)
    requires Inv(st) && (h.conversation, sender) in st.everParticipants
    requires room == ConversationRoom(h.conversation)
             || (room.UserRoom? && room.user != sender && (h.conversation, room.user) in st.everParticipants)
    requires d in Emit(st, h, room, sender).deliveries
    ensures DeliveryJustified(st, d)
  {
  }

  /** A step that delivers is an emission of a handler that passed its check. */
  lemma NewDelivery(st: State, e: Event, d: Delivery)
    requires Inv(st) && Enabled(st, e) && d in Apply(st, e).deliveries && d !in st.deliveries
    ensures e.Continues? || e.ServiceReturns? || e.EmitsToRecipient?
    ensures var h := st.handlers[e.h];
            && (e.Continues? ==> h.stage.found)
            && (e.EmitsToRecipient? ==> h.stage.recipient.Some?)
            && var room := if e.EmitsToRecipient? then UserRoom(h.stage.recipient.value)
                           else ConversationRoom(h.conversation);
               d in Emit(st, h, room, h.stage.access).deliveries
  {
  }

  lemma DeliveriesKept(st: State, e: Event, d: Delivery)
    requires Inv(st) && Enabled(st, e) && d in Apply(st, e).deliveries
    ensures DeliveryJustified(Apply(st, e), d)
  {
    ApplyExtends(st, e);
    if d !in st.deliveries {
      NewDelivery(st, e, d);
      var h := st.handlers[e.h];
      assert HandlerOk(st, h);
      var room := if e.EmitsToRecipient? then UserRoom(h.stage.recipient.value) else ConversationRoom(h.conversation);
      EmitJustified(st, h, room, h.stage.access, d);
    }
    DeliveryStays(st, Apply(st, e), d);
  }

  lemma ApplyKeepsInv(st: State, e: Event)
    requires Inv(st) && Enabled(st, e)
    ensures Inv(Apply(st, e))
  {
    var st' := Apply(st, e);
    forall s | s in st'.sockets ensures SocketOk(st', s) { SocketsKept(st, e, s); }
    forall h | h in st'.handlers ensures HandlerOk(st', st'.handlers[h]) { HandlersKept(st, e, h); }
    forall d | d in st'.deliveries ensures DeliveryJustified(st', d) { DeliveriesKept(st, e, d); }
  }

  lemma {:induction false} RunKeepsInv(st: State, es: seq<Event>)
    requires Inv(st) && Feasible(st, es)
    ensures Inv(Run(st, es))
    decreases |es|
  {
    if es == [] {
    } else {
      ApplyKeepsInv(st, es[0]);
      RunKeepsInv(Apply(st, es[0]), es[1..]);
    }
  }

  // ----- What a handler achieves

  /** A processed check joins or leaves the conversation room for a participant,
      and does nothing for anyone else. */
  lemma JoinOrLeaveExactly(st: State, h: HandlerId)
    requires Enabled(st, Continues(h)) && st.handlers[h].kind in {JoinEvent, LeaveEvent}
    ensures var st', me, room := Apply(st, Continues(h)), st.handlers[h].socket, ConversationRoom(st.handlers[h].conversation);
            var was, now := st.sockets[me], st'.sockets[me];
            && st'.deliveries == st.deliveries && h !in st'.handlers
            && st'.sockets - {me} == st.sockets - {me}
            && now.fields == was.fields && now.rooms - {room} == was.rooms - {room}
            && (room in now.rooms <==>
                  if st.handlers[h].stage.found then st.handlers[h].kind == JoinEvent else room in was.rooms)
  {
  }

  /** The broadcast reaches exactly the sockets of the conversation room, the
      sender's own only with a message. */
  lemma BroadcastExactly(st: State, h: HandlerId, access: Id, to: SocketId)
    requires h in st.handlers
    ensures var c, kind := st.handlers[h].conversation, st.handlers[h].kind;
            var d := Delivery(to, kind, c, access, ConversationRoom(c));
            d in Broadcast(st, h, access).deliveries <==>
              || d in st.deliveries
              || (to in st.sockets && ConversationRoom(c) in st.sockets[to].rooms
                  && (kind == Message || to != st.handlers[h].socket))
  {
  }

  // ----- Membership and delivery over whole runs

  lemma {:induction false} RunInit(st: State, es: seq<Event>)
    requires Feasible(st, es) && es != []
    ensures var n := |es| - 1;
            && Feasible(st, es[..n])
            && Enabled(Run(st, es[..n]), es[n])
            && Run(st, es) == Apply(Run(st, es[..n]), es[n])
    decreases |es|
  {
    var n := |es| - 1;
    if n == 0 {
      assert es[..0] == [] && es[1..] == [];
      assert Run(Apply(st, es[0]), es[1..]) == Apply(st, es[0]);
    } else {
      RunInit(Apply(st, es[0]), es[1..]);
      assert es[..n][1..] == es[1..][..n - 1];
    }
  }

  lemma {:induction false} FeasiblePrefix(es: seq<Event>, n: nat)
    requires Feasible(INITIAL, es) && n <= |es|
    ensures Feasible(INITIAL, es[..n])
    ensures n < |es| ==> Enabled(Run(INITIAL, es[..n]), es[n])
    decreases |es|
  {
    if n == |es| {
      assert es[..n] == es;
    } else {
      RunInit(INITIAL, es);
      FeasiblePrefix(es[..|es| - 1], n);
      assert es[..|es| - 1][..n] == es[..n];
    }
  }

  /** The state before the i-th event of a run, and after the last. */
  ghost function StateAt(es: seq<Event>, i: nat): (st: State)
    requires Feasible(INITIAL, es) && i <= |es|
    ensures i < |es| ==> Enabled(st, es[i])
  {
    FeasiblePrefix(es, i);
    Run(INITIAL, es[..i])
  }

  lemma NextState(es: seq<Event>, i: nat)
    requires Feasible(INITIAL, es) && i < |es|
    ensures StateAt(es, i + 1) == Apply(StateAt(es, i), es[i])
  {
    FeasiblePrefix(es, i + 1);
    RunInit(INITIAL, es[..i + 1]);
    assert es[..i + 1][..i] == es[..i];
  }

  predicate InRoom(st: State, s: SocketId, c: ConversationId) {
    s in st.sockets && ConversationRoom(c) in st.sockets[s].rooms
  }

  /** A join or a leave of this socket is carried out, its check passed. */
  predicate CarriedOut(st: State, e: Event, kind: Kind, s: SocketId, c: ConversationId)
    requires Enabled(st, e)
  {
    e.Continues? && var h := st.handlers[e.h]; h.stage.found && h.kind == kind && h.socket == s && h.conversation == c
  }

  predicate Ends(st: State, e: Event, s: SocketId, c: ConversationId)
    requires Enabled(st, e)
  {
    CarriedOut(st, e, LeaveEvent, s, c) || e == Disconnects(s)
  }

  lemma RoomStep(st: State, e: Event, s: SocketId, c: ConversationId)
    requires Enabled(st, e)
    ensures InRoom(Apply(st, e), s, c) <==>
            CarriedOut(st, e, JoinEvent, s, c) || (InRoom(st, s, c) && !Ends(st, e, s, c))
  {
    if e.Continues? && st.handlers[e.h].kind in {JoinEvent, LeaveEvent} {
      JoinOrLeaveExactly(st, e.h);
    }
  }

  /** Marks the events of a run that carry out a join of the socket. */
  ghost function Joins(es: seq<Event>, s: SocketId, c: ConversationId): (marks: seq<bool>)
    requires Feasible(INITIAL, es)
    ensures |marks| == |es|
  {
    seq(|es|, i requires 0 <= i < |es| => CarriedOut(StateAt(es, i), es[i], JoinEvent, s, c))
  }

  /** Marks the events that carry out a leave of it, or disconnect it. */
  ghost function Endings(es: seq<Event>, s: SocketId, c: ConversationId): (marks: seq<bool>)
    requires Feasible(INITIAL, es)
    ensures |marks| == |es|
  {
    seq(|es|, i requires 0 <= i < |es| => Ends(StateAt(es, i), es[i], s, c))
  }

  /** Among the first n marks there is a start with no ending after it. */
  predicate Stands(starts: seq<bool>, endings: seq<bool>, n: nat)
    requires n <= |starts| == |endings|
  {
    exists i :: 0 <= i < n && starts[i] && forall j :: i < j < n ==> !endings[j]
  }

  lemma StandsStep(starts: seq<bool>, endings: seq<bool>, n: nat)
    requires n < |starts| == |endings|
    ensures Stands(starts, endings, n + 1) <==> starts[n] || (Stands(starts, endings, n) && !endings[n])
  {
    if Stands(starts, endings, n) && !endings[n] {
      var i :| 0 <= i < n && starts[i] && forall j :: i < j < n ==> !endings[j];
      assert forall j :: i < j < n + 1 ==> !endings[j];
    }
  }

  lemma {:induction false} MembershipUpTo(es: seq<Event>, n: nat, s: SocketId, c: ConversationId)
    requires Feasible(INITIAL, es) && n <= |es|
    ensures InRoom(StateAt(es, n), s, c) <==> Stands(Joins(es, s, c), Endings(es, s, c), n)
    decreases n
  {
    if n == 0 {
      assert es[..0] == [];
    } else {
      MembershipUpTo(es, n - 1, s, c);
      NextState(es, n - 1);
      RoomStep(StateAt(es, n - 1), es[n - 1], s, c);
      StandsStep(Joins(es, s, c), Endings(es, s, c), n - 1);
    }
  }

  /** In every interleaving a socket is in a conversation room exactly when one of its
      joins was carried out and since then neither a leave nor a disconnect was. */
  lemma MembershipExactly(es: seq<Event>, s: SocketId, c: ConversationId)
    requires Feasible(INITIAL, es)
    ensures InRoom(Run(INITIAL, es), s, c) <==> Stands(Joins(es, s, c), Endings(es, s, c), |es|)
  {
    MembershipUpTo(es, |es|, s, c);
    assert es[..|es|] == es;
  }

  /** This event sends that delivery: a broadcast to the conversation room, or the copy
      for the user room of the other participant. */
  predicate Sends(st: State, e: Event, d: Delivery)
    requires Enabled(st, e)
  {
    && (e.Continues? || e.ServiceReturns? || e.EmitsToRecipient?)
    && var h := st.handlers[e.h];
       && d == Delivery(d.to, h.kind, h.conversation, h.stage.access, d.via)
       && d.to in st.sockets && d.via in st.sockets[d.to].rooms
       && if e.EmitsToRecipient? then
            h.stage.recipient.Some? && d.via == UserRoom(h.stage.recipient.value)
          else
            && d.via == ConversationRoom(h.conversation)
            && (e.Continues? ==> h.stage.found && h.kind in {Typing, Delivered})
            && (h.kind == Message || d.to != h.socket)
  }

  lemma DeliveryStep(st: State, e: Event, d: Delivery)
    requires Enabled(st, e)
    ensures d in Apply(st, e).deliveries <==> d in st.deliveries || Sends(st, e, d)
  {
    if e.Continues? || e.ServiceReturns? {
      BroadcastExactly(st, e.h, st.handlers[e.h].stage.access, d.to);
    }
  }

  /** Marks the events of a run that send the delivery. */
  ghost function Sendings(es: seq<Event>, d: Delivery): (marks: seq<bool>)
    requires Feasible(INITIAL, es)
    ensures |marks| == |es|
  {
    seq(|es|, i requires 0 <= i < |es| => Sends(StateAt(es, i), es[i], d))
  }

  lemma AnyStep(marks: seq<bool>, n: nat)
    requires n < |marks|
    ensures true in marks[..n + 1] <==> true in marks[..n] || marks[n]
  {
    assert marks[..n + 1] == marks[..n] + [marks[n]];
  }

  lemma {:induction false} DeliveredUpTo(es: seq<Event>, n: nat, d: Delivery)
    requires Feasible(INITIAL, es) && n <= |es|
    ensures d in StateAt(es, n).deliveries <==> true in Sendings(es, d)[..n]
    decreases n
  {
    if n == 0 {
      assert es[..0] == [];
    } else {
      DeliveredUpTo(es, n - 1, d);
      NextState(es, n - 1);
      DeliveryStep(StateAt(es, n - 1), es[n - 1], d);
      AnyStep(Sendings(es, d), n - 1);
    }
  }

  /** In every interleaving exactly what some turn sent has been delivered. */
  lemma DeliveredExactly(es: seq<Event>, d: Delivery)
    requires Feasible(INITIAL, es)
    ensures d in Run(INITIAL, es).deliveries <==> true in Sendings(es, d)
  {
    DeliveredUpTo(es, |es|, d);
    assert es[..|es|] == es && Sendings(es, d)[..|es|] == Sendings(es, d);
  }

  // ----- An undisturbed message

  ghost predicate Leads(st: State, es: seq<Event>, st': State) {
    Feasible(st, es) && Run(st, es) == st'
  }

  lemma LeadsOne(st: State, e: Event)
    requires Enabled(st, e)
    ensures Leads(st, [e], Apply(st, e))
  {
  }

  lemma {:induction false} LeadsOn(st: State, es: seq<Event>, st': State, fs: seq<Event>, st'': State)
    requires Leads(st, es, st') && Leads(st', fs, st'')
    ensures Leads(st, es + fs, st'')
    decreases |es|
  {
    if es == [] {
      assert es + fs == fs;
    } else {
      assert (es + fs)[1..] == es[1..] + fs;
      LeadsOn(Apply(st, es[0]), es[1..], st', fs, st'');
    }
  }

  function WithHandler(st: State, h: HandlerId, handler: Handler): State {
    st.(handlers := st.handlers[h := handler])
  }

  /** The turns of a `chat:message` up to the service call. */
  function ToService(h: HandlerId, s: SocketId, c: ConversationId): seq<Event> {
    [Begins(h, s, Message, c)] + [DatabaseChecks(h)] + [Continues(h)]
  }

  /** The turns after it. */
  function FromService(h: HandlerId, recipient: Option<Id>): seq<Event> {
    [ServiceReturns(h)] + [DatabaseFindsRecipient(h, recipient)] + [EmitsToRecipient(h)]
  }

  lemma MessageAccepted(st: State, h: HandlerId, s: SocketId, c: ConversationId, me: Id)
    requires h !in st.handlers && s in st.sockets && StartOf(st.sockets[s]) == As(me) && (c, me) in st.participants
    ensures Leads(st, ToService(h, s, c), WithHandler(st, h, Handler(s, Message, c, AwaitService(me))))
  {
    var st1 := WithHandler(st, h, Handler(s, Message, c, AwaitCheck(me)));
    var st2 := WithHandler(st, h, Handler(s, Message, c, Checked(me, true)));
    var st3 := WithHandler(st, h, Handler(s, Message, c, AwaitService(me)));
    LeadsOne(st, Begins(h, s, Message, c));
    LeadsOne(st1, DatabaseChecks(h));
    assert Apply(st1, DatabaseChecks(h)) == st2;
    LeadsOne(st2, Continues(h));
    assert Apply(st2, Continues(h)) == st3;
    LeadsOn(st, [Begins(h, s, Message, c)], st1, [DatabaseChecks(h)], st2);
    LeadsOn(st, [Begins(h, s, Message, c)] + [DatabaseChecks(h)], st2, [Continues(h)], st3);
  }

  /** The end of it: both rooms have been served and the handler is gone. */
  ghost predicate Served(st: State, st': State, c: ConversationId, me: Id, r: Id) {
    && st'.sockets == st.sockets
    && forall to, room :: to in st.sockets && room in st.sockets[to].rooms && room in {ConversationRoom(c), UserRoom(r)} ==>
         Delivery(to, Message, c, me, room) in st'.deliveries
  }

  lemma EmitServes(st: State, h: Handler, room: Room, sender: Id, to: SocketId)
    requires h.kind == Message && to in st.sockets && room in st.sockets[to].rooms
    ensures Delivery(to, Message, h.conversation, sender, room) in Emit(st, h, room, sender).deliveries
  {
  }

  lemma MessageServed(st: State, h: HandlerId, s: SocketId, c: ConversationId, me: Id, r: Id) returns (st': State)
    requires h in st.handlers && st.handlers[h] == Handler(s, Message, c, AwaitService(me)) && s in st.sockets
    requires (c, r) in st.participants && r != me
    ensures Leads(st, FromService(h, Some(r)), st') && Served(st, st', c, me, r)
  {
    var e1, e2, e3 := ServiceReturns(h), DatabaseFindsRecipient(h, Some(r)), EmitsToRecipient(h);
    var sent := Emit(st, st.handlers[h], ConversationRoom(c), me);
    EmitFrame(st, st.handlers[h], ConversationRoom(c), me);
    var st1 := WithHandler(sent, h, Handler(s, Message, c, AwaitRecipient(me)));
    var st2 := WithHandler(sent, h, Handler(s, Message, c, GotRecipient(me, Some(r))));
    assert Apply(st, e1) == st1;
    assert Apply(st1, e2) == st2;
    st' := Apply(st2, e3);
    LeadsOne(st, e1);
    LeadsOne(st1, e2);
    LeadsOne(st2, e3);
    LeadsOn(st, [e1], st1, [e2], st2);
    LeadsOn(st, [e1] + [e2], st2, [e3], st');
    EmitFrame(st2, st2.handlers[h], UserRoom(r), me);
    forall to, room | to in st.sockets && room in st.sockets[to].rooms && room in {ConversationRoom(c), UserRoom(r)}
      ensures Delivery(to, Message, c, me, room) in st'.deliveries
    {
      if room == ConversationRoom(c) {
        EmitServes(st, st.handlers[h], room, me, to);
      } else {
        EmitServes(st2, st2.handlers[h], room, me, to);
      }
    }
  }

  /** A message of a socket that acts for a participant, its turns undisturbed,
      reaches everyone in the conversation room and in the user room of the other
      participant. */
  lemma MessageArrives(st: State, h: HandlerId, s: SocketId, c: ConversationId, me: Id, r: Id)
    requires h !in st.handlers && s in st.sockets && StartOf(st.sockets[s]) == As(me)
    requires (c, me) in st.participants && (c, r) in st.participants && r != me
    ensures var es := ToService(h, s, c) + FromService(h, Some(r));
            Feasible(st, es) && Served(st, Run(st, es), c, me, r)
  {
    MessageAccepted(st, h, s, c, me);
    var accepted := WithHandler(st, h, Handler(s, Message, c, AwaitService(me)));
    var st' := MessageServed(accepted, h, s, c, me, r);
    LeadsOn(st, ToService(h, s, c), accepted, FromService(h, Some(r)), st');
  }

  // ----- Safety over whole runs

  /** In every interleaving, every room a socket is in is justified. */
  lemma RoomSafety(es: seq<Event>, s: SocketId, room: Room)
    requires Feasible(INITIAL, es) && s in Run(INITIAL, es).sockets
    requires room in Run(INITIAL, es).sockets[s].rooms
    ensures RoomJustified(Run(INITIAL, es), s, room)
  {
    RunKeepsInv(INITIAL, es);
    assert SocketOk(Run(INITIAL, es), s);
  }

  /** This event sends the delivery, for a socket that may act as its sender. */
  ghost predicate SentFor(es: seq<Event>, i: nat, d: Delivery)
    requires Feasible(INITIAL, es)
  {
    && i < |es| && Sends(StateAt(es, i), es[i], d)
    && MayActAs(StateAt(es, i), StateAt(es, i).handlers[es[i].h].socket, d.sender)
  }

  /** In every interleaving, everything ever delivered was justified, and was sent on
      behalf of an account that the sending socket may act as. */
  lemma DeliverySafety(es: seq<Event>, d: Delivery)
    requires Feasible(INITIAL, es) && d in Run(INITIAL, es).deliveries
    ensures DeliveryJustified(Run(INITIAL, es), d)
    ensures exists i: nat :: SentFor(es, i, d)
  {
    RunKeepsInv(INITIAL, es);
    DeliveredExactly(es, d);
    var i :| 0 <= i < |es| && Sendings(es, d)[i];
    FeasiblePrefix(es, i);
    RunKeepsInv(INITIAL, es[..i]);
    assert HandlerOk(StateAt(es, i), StateAt(es, i).handlers[es[i].h]);
    assert SentFor(es, i, d);
  }

  /** A run in which the lookup of a socket fails: whoever it is, the chat stays allowed
      to them, as themselves only. */
  lemma FailedLookup(s: SocketId, userId: Id) returns (es: seq<Event>)
    ensures Feasible(INITIAL, es) && s in Run(INITIAL, es).sockets && s in Run(INITIAL, es).lookups
    ensures Run(INITIAL, es).lookups[s] == Broken
    ensures StartOf(Run(INITIAL, es).sockets[s]) == As(userId)
    ensures Run(INITIAL, es).sockets[s].rooms == {UserRoom(userId)}
  {
    var connects, fails := Connects(s, userId, false, false), AccessFails(s);
    es := [connects] + [fails];
    LeadsOne(INITIAL, connects);
    LeadsOne(Apply(INITIAL, connects), fails);
    LeadsOn(INITIAL, [connects], Apply(INITIAL, connects), [fails], Apply(Apply(INITIAL, connects), fails));
  }

  /** What a chat event of a socket without the admin role meets, whatever has
      happened before: itself until the lookup lands and after it fails, refusal
      exactly for a member who may not chat, and otherwise the account it works for. */
  lemma StartExactly(es: seq<Event>, s: SocketId)
    requires Feasible(INITIAL, es) && s in Run(INITIAL, es).sockets && !Run(INITIAL, es).sockets[s].isAdmin
    ensures s in Run(INITIAL, es).lookups
    ensures var v := Run(INITIAL, es).sockets[s];
            StartOf(v) == match Run(INITIAL, es).lookups[s]
                          case Pending => As(v.userId)
                          case Broken => As(v.userId)
                          case Landed(a) => if a.viaMembership && !a.canChat then Denied else As(a.supplierId.GetOr(v.userId))
  {
    RunKeepsInv(INITIAL, es);
    assert SocketOk(Run(INITIAL, es), s);
  }

  /** A socket of a member whose lookup refused the chat. */
  predicate Refused(st: State, s: SocketId) {
    && s in st.sockets && s in st.lookups
    && st.lookups[s].Landed? && st.lookups[s].access.viaMembership && !st.lookups[s].access.canChat
  }

  /** Such a socket, when it has no shared role, is in no user room but its own, is
      in a conversation room only if its own user took part in that conversation,
      and has received nothing else; and every further chat event is refused. */
  lemma RefusedMemberSeesNothing(es: seq<Event>, s: SocketId)
    requires Feasible(INITIAL, es) && Refused(Run(INITIAL, es), s)
    requires var v := Run(INITIAL, es).sockets[s]; !v.isAdmin && !v.isExpedition
    ensures var st := Run(INITIAL, es);
            var v := st.sockets[s];
            && (forall id :: UserRoom(id) in v.rooms ==> id == v.userId)
            && (forall c :: ConversationRoom(c) in v.rooms ==> (c, v.userId) in st.everParticipants)
            && (forall d :: d in st.deliveries && d.to == s ==> (d.conversation, v.userId) in st.everParticipants)
            && StartOf(v) == Denied
  {
    RunKeepsInv(INITIAL, es);
    var st := Run(INITIAL, es);
    assert SocketOk(st, s);
    var v := st.sockets[s];
    forall c | Entitled(st, s, c)
      ensures (c, v.userId) in st.everParticipants
    {
      var id :| MayActAs(st, s, id) && (c, id) in st.everParticipants;
    }
    forall id | UserRoom(id) in v.rooms
      ensures id == v.userId
    {
      assert RoomJustified(st, s, UserRoom(id));
    }
    forall c | ConversationRoom(c) in v.rooms
      ensures (c, v.userId) in st.everParticipants
    {
      assert RoomJustified(st, s, ConversationRoom(c));
    }
    forall d | d in st.deliveries && d.to == s
      ensures (d.conversation, v.userId) in st.everParticipants
    {
      assert DeliveryJustified(st, d);
    }
  }
}
