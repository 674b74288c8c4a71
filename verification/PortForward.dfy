// The client's port-forward table (src/client.rs): forwards, their channels,
// and the requests waiting for the server.

module ForwardModel {
  type Id = nat

  datatype Forward = Forward(targetPort: nat, listening: bool, keepalive: bool)

  /**
   * The relay's table, with what its background tasks may still deliver:
   * connections accepted but not yet announced (forward and channel), and one
   * stop for every watch on a forward's controlling process.  `drawn` lists
   * every id the client ever drew from its counter.
   */
  datatype Table = Table(
    forwards: map<Id, Forward>,
    channels: map<Id, Id>,
    pending: set<Id>,
    initiated: map<Id, nat>,
    nextId: Id,
    announced: multiset<(Id, Id)>,
    watched: multiset<Id>,
    drawn: seq<Id>)

  const EMPTY := Table(map[], map[], {}, map[], 2, multiset{}, multiset{}, [])

  datatype Event =
    // frames from the server
    | ServerListen(forward: Id)
    | ServerOpen(forward: Id, channel: Id, connected: bool)
    | ServerData(channel: Id, backpressured: bool)
    | ServerClose(channel: Id)
    | ServerReady(forward: Id)
    | ServerStop(forward: Id)
    // events from local tasks
    | LocalAccept(forward: Id)                 // a listener task takes a connection and draws its id
    | Accepted(forward: Id, channel: Id)
    | LocalClosed(channel: Id)
    | ForwardStopped(forward: Id)
    // a request from `gritty lf` or `gritty rf`
    | Request(direction: nat, targetPort: nat, bound: bool, sent: bool)

  /** Tasks deliver only what was started: the one thing assumed of the environment. */
  predicate CanHappen(t: Table, e: Event) {
    match e
    case Accepted(f, c) => (f, c) in t.announced
    case ForwardStopped(f) => f in t.watched
    case _ => true
  }

  /** `fetch_add(2)` on a 32-bit counter. */
  function Allocate(t: Table): Table {
    t.(nextId := (t.nextId + 2) % 0x1_0000_0000, drawn := t.drawn + [t.nextId])
  }

  /** Everything a forward has: its entry, its registration and its channels. */
  function RemoveForward(t: Table, f: Id): Table {
    t.(forwards := t.forwards - {f},
       initiated := t.initiated - {f},
       channels := map c | c in t.channels && t.channels[c] != f :: t.channels[c])
  }

  /** Watches the controlling process; makes the entry if there is none. */
  function StartKeepalive(t: Table, f: Id, targetPort: nat): Table {
    var entry := if f in t.forwards then t.forwards[f] else Forward(targetPort, false, false);
    t.(forwards := t.forwards[f := entry.(keepalive := true)], watched := t.watched + multiset{f})
  }

  function HandleRequest(t: Table, direction: nat, targetPort: nat, bound: bool, sent: bool): Table {
    var f := t.nextId;
    var t := Allocate(t);
    if direction == 1 && !bound then t
    else
      var t := if direction == 1 then t.(forwards := t.forwards[f := Forward(targetPort, true, false)]) else t;
      var t := if direction == 0 then t.(initiated := t.initiated[f := targetPort]) else t;
      if !sent then t
      else if direction == 0 then t.(pending := t.pending + {f})
      else StartKeepalive(t, f, targetPort)
  }

  function Step(t: Table, e: Event): Table
    requires CanHappen(t, e)
  {
    match e
    case ServerListen(_) => t
    case ServerOpen(f, c, connected) =>
      if f in t.initiated && connected then t.(channels := t.channels[c := f]) else t
    case ServerData(c, backpressured) =>
      if c in t.channels && backpressured then t.(channels := t.channels - {c}) else t
    case ServerClose(c) => t.(channels := t.channels - {c})
    case ServerReady(f) =>
      if f in t.pending then
        StartKeepalive(t.(pending := t.pending - {f}), f, if f in t.initiated then t.initiated[f] else 0)
      else t
    case ServerStop(f) => RemoveForward(t.(pending := t.pending - {f}), f)
    case LocalAccept(f) => Allocate(t).(announced := t.announced + multiset{(f, t.nextId)})
    case Accepted(f, c) =>
      var t := t.(announced := t.announced - multiset{(f, c)});
      if f in t.forwards then t.(channels := t.channels[c := f]) else t
    case LocalClosed(c) => t.(channels := t.channels - {c})
    case ForwardStopped(f) => RemoveForward(t.(watched := t.watched - multiset{f}), f)
    case Request(direction, targetPort, bound, sent) => HandleRequest(t, direction, targetPort, bound, sent)
  }

  ghost predicate IsRun(t: Table, es: seq<Event>)
    decreases es
  {
    es != [] ==> CanHappen(t, es[0]) && IsRun(Step(t, es[0]), es[1..])
  }

  ghost function After(t: Table, es: seq<Event>): Table
    requires IsRun(t, es)
    decreases es
  {
    if es == [] then t else After(Step(t, es[0]), es[1..])
  }

  // ---------------------------------------------------------------------
  // Ids
  // ---------------------------------------------------------------------

  const HALF: nat := 0x8000_0000

  /** The counter and every id drawn so far, in closed form, wrap-around included. */
  ghost predicate IdsOk(t: Table) {
    && t.nextId == (2 + 2 * |t.drawn|) % 0x1_0000_0000
    && forall i :: 0 <= i < |t.drawn| ==> t.drawn[i] == (2 + 2 * i) % 0x1_0000_0000
  }

  ghost predicate NotWrapped(t: Table) {
    |t.drawn| < HALF - 1
  }

  lemma AllocateKeepsIds(t: Table)
    requires IdsOk(t)
    ensures IdsOk(Allocate(t))
  {
  }

  lemma StepKeepsIds(t: Table, e: Event)
    requires IdsOk(t) && CanHappen(t, e)
    ensures IdsOk(Step(t, e)) && |t.drawn| <= |Step(t, e).drawn|
  {
    AllocateKeepsIds(t);
  }

  lemma {:induction false} RunKeepsIds(t: Table, es: seq<Event>)
    requires IdsOk(t) && IsRun(t, es)
    ensures IdsOk(After(t, es)) && |t.drawn| <= |After(t, es).drawn|
    decreases es
  {
    if es == [] {
    } else {
      StepKeepsIds(t, es[0]);
      RunKeepsIds(Step(t, es[0]), es[1..]);
    }
  }

  /** Client ids are always even, so never a server's; two draws collide exactly 2^31 apart. */
  lemma ClientIds(es: seq<Event>, i: nat, j: nat)
    requires IsRun(EMPTY, es) && i < j < |After(EMPTY, es).drawn|
    ensures var ids := After(EMPTY, es).drawn;
            ids[i] % 2 == 0 && (ids[i] == ids[j] <==> (j - i) % HALF == 0)
  {
    RunKeepsIds(EMPTY, es);
  }

  // ---------------------------------------------------------------------
  // The table
  // ---------------------------------------------------------------------

  /** Every channel's forward is still registered. */
  ghost predicate ChannelsRegistered(t: Table) {
    forall c :: c in t.channels ==> t.channels[c] in t.forwards || t.channels[c] in t.initiated
  }

  /** A local forward waiting for the server is registered, and nobody watches it yet. */
  ghost predicate PendingRegistered(t: Table) {
    forall f :: f in t.pending ==> f in t.initiated && f !in t.watched
  }

  lemma {:induction false} RunKeepsChannels(t: Table, es: seq<Event>)
    requires ChannelsRegistered(t) && IsRun(t, es)
    ensures ChannelsRegistered(After(t, es))
    decreases es
  {
    if es == [] {
    } else {
      StepKeepsChannels(t, es[0]);
      RunKeepsChannels(Step(t, es[0]), es[1..]);
    }
  }

  lemma RequestKeepsChannels(t: Table, e: Event)
    requires ChannelsRegistered(t) && e.Request?
    ensures ChannelsRegistered(Step(t, e))
  {
  }

  lemma StepKeepsChannels(t: Table, e: Event)
    requires ChannelsRegistered(t) && CanHappen(t, e)
    ensures ChannelsRegistered(Step(t, e))
  {
    if e.Request? {
      RequestKeepsChannels(t, e);
    }
  }

  /** A request is sent under an id that an earlier forward still waits for or is watched by. */
  ghost predicate Clashes(t: Table, e: Event) {
    && e.Request? && e.sent
    && if e.direction == 0 then t.nextId in t.watched else (e.direction == 1 ==> e.bound) && t.nextId in t.pending
  }

  lemma RequestKeepsPendingExactly(t: Table, e: Event)
    requires PendingRegistered(t) && e.Request?
    ensures PendingRegistered(Step(t, e)) <==> !Clashes(t, e)
  {
    var t' := Step(t, e);
    if Clashes(t, e) {
      assert t.nextId in t'.pending && t.nextId in t'.watched;
    }
  }

  /** One step keeps the pending forwards in order exactly when it is no such request. */
  lemma StepKeepsPendingExactly(t: Table, e: Event)
    requires PendingRegistered(t) && CanHappen(t, e)
    ensures PendingRegistered(Step(t, e)) <==> !Clashes(t, e)
  {
    if e.Request? {
      RequestKeepsPendingExactly(t, e);
    }
  }

  ghost predicate NeverClashes(t: Table, es: seq<Event>)
    requires IsRun(t, es)
    decreases es
  {
    es != [] ==> !Clashes(t, es[0]) && NeverClashes(Step(t, es[0]), es[1..])
  }

  /** Over every run, counter wraps included, the channels are in order, and the pending forwards while no request clashes. */
  lemma {:induction false} RunKeepsTable(t: Table, es: seq<Event>)
    requires ChannelsRegistered(t) && PendingRegistered(t) && IsRun(t, es)
    ensures ChannelsRegistered(After(t, es))
    ensures NeverClashes(t, es) ==> PendingRegistered(After(t, es))
    decreases es
  {
    RunKeepsChannels(t, es);
    if es == [] {
    } else if NeverClashes(t, es) {
      StepKeepsChannels(t, es[0]);
      StepKeepsPendingExactly(t, es[0]);
      RunKeepsTable(Step(t, es[0]), es[1..]);
    }
  }

  /** Whatever waits or is watched was drawn from the counter. */
  ghost predicate TasksDrawn(t: Table) {
    forall f :: f in t.pending || f in t.watched ==> f in t.drawn
  }

  lemma DrawnGrows(drawn: seq<Id>, id: Id)
    ensures id in drawn + [id] && forall f :: f in drawn ==> f in drawn + [id]
  {
  }

  lemma RequestKeepsDrawn(t: Table, e: Event)
    requires TasksDrawn(t) && e.Request?
    ensures TasksDrawn(Step(t, e))
  {
    DrawnGrows(t.drawn, t.nextId);
  }

  lemma StepKeepsDrawn(t: Table, e: Event)
    requires TasksDrawn(t) && CanHappen(t, e)
    ensures TasksDrawn(Step(t, e))
  {
    if e.Request? {
      RequestKeepsDrawn(t, e);
    } else if e.LocalAccept? {
      DrawnGrows(t.drawn, t.nextId);
    }
  }

  lemma NextIsNew(t: Table)
    requires IdsOk(t) && NotWrapped(t)
    ensures t.nextId !in t.drawn
  {
  }

  /** Before the counter comes round no request can clash. */
  lemma {:induction false} NoClashBeforeWrap(t: Table, es: seq<Event>)
    requires IdsOk(t) && TasksDrawn(t) && IsRun(t, es) && NotWrapped(After(t, es))
    ensures NeverClashes(t, es)
    decreases es
  {
    RunKeepsIds(t, es);
    if es == [] {
    } else {
      NextIsNew(t);
      StepKeepsIds(t, es[0]);
      StepKeepsDrawn(t, es[0]);
      NoClashBeforeWrap(Step(t, es[0]), es[1..]);
    }
  }

  lemma TableAlwaysConsistent(es: seq<Event>)
    requires IsRun(EMPTY, es)
    ensures ChannelsRegistered(After(EMPTY, es))
    ensures NotWrapped(After(EMPTY, es)) ==> PendingRegistered(After(EMPTY, es))
  {
    RunKeepsTable(EMPTY, es);
    if NotWrapped(After(EMPTY, es)) {
      NoClashBeforeWrap(EMPTY, es);
    }
  }

  // ---------------------------------------------------------------------
  // When the counter comes round
  // ---------------------------------------------------------------------

  /** A local forward whose bind the server never answers. */
  const WAITING := Request(0, 80, false, true)

  /** A remote forward that is set up at once. */
  const AT_ONCE := Request(1, 81, true, true)

  function Connections(n: nat): seq<Event> {
    if n == 0 then [] else [LocalAccept(0)] + Connections(n - 1)
  }

  /** Only forward 2 waits, and `n` ids have been drawn. */
  ghost predicate OnlyWaiting(t: Table, n: nat) {
    && t.pending == {2} && t.initiated == map[2 := 80] && t.watched == multiset{}
    && t.nextId == (2 + 2 * n) % 0x1_0000_0000
  }

  lemma {:induction false} ConnectionsKeepWaiting(t: Table, n: nat, k: nat)
    requires OnlyWaiting(t, k)
    ensures IsRun(t, Connections(n)) && OnlyWaiting(After(t, Connections(n)), k + n)
    decreases n
  {
    if n == 0 {
    } else {
      ConnectionsKeepWaiting(Step(t, LocalAccept(0)), n - 1, k + 1);
      assert Connections(n)[0] == LocalAccept(0) && Connections(n)[1..] == Connections(n - 1);
    }
  }

  lemma {:induction false} RunThen(t: Table, es: seq<Event>, later: seq<Event>)
    requires IsRun(t, es) && IsRun(After(t, es), later)
    ensures IsRun(t, es + later) && After(t, es + later) == After(After(t, es), later)
    decreases es
  {
    if es == [] {
      assert es + later == later;
    } else {
      assert (es + later)[1..] == es[1..] + later;
      RunThen(Step(t, es[0]), es[1..], later);
    }
  }

  lemma TwoSteps(t: Table, a: Event, b: Event)
    requires CanHappen(t, a) && CanHappen(Step(t, a), b)
    ensures IsRun(t, [a, b]) && After(t, [a, b]) == Step(Step(t, a), b)
  {
    assert [a, b][1..] == [b] && [b][1..] == [];
    var v := Step(Step(t, a), b);
    assert IsRun(v, []) && After(v, []) == v;
    assert IsRun(Step(t, a), [b]) && After(Step(t, a), [b]) == v;
  }

  /**
   * What a clash does: a forward that has waited while 2^31 ids were drawn
   * shares its id with a new one, and when that one stops, the old one waits
   * on without being registered.
   */
  lemma WrappedRequestBreaksPending(n: nat) returns (es: seq<Event>)
    requires n == HALF - 1
    ensures IsRun(EMPTY, es) && 2 in After(EMPTY, es).pending && 2 !in After(EMPTY, es).initiated
  {
    var t := Step(EMPTY, WAITING);
    ConnectionsKeepWaiting(t, n, 1);
    var full := After(t, Connections(n));
    TwoSteps(full, AT_ONCE, ForwardStopped(2));
    RunThen(t, Connections(n), [AT_ONCE, ForwardStopped(2)]);
    var later := Connections(n) + [AT_ONCE, ForwardStopped(2)];
    es := [WAITING] + later;
    assert es[1..] == later;
  }

  // ---------------------------------------------------------------------
  // Stopping
  // ---------------------------------------------------------------------

  /** Some step of the run draws this id from the counter. */
  ghost predicate DrawnAgain(t: Table, id: Id, es: seq<Event>)
    requires IsRun(t, es)
    decreases es
  {
    es != [] && ((Draws(es[0]) && t.nextId == id) || DrawnAgain(Step(t, es[0]), id, es[1..]))
  }

  predicate Draws(e: Event) {
    e.Request? || e.LocalAccept?
  }

  /** No id is drawn again before the counter comes round. */
  lemma {:induction false} NotDrawnAgain(t: Table, id: Id, es: seq<Event>)
    requires IdsOk(t) && id in t.drawn && IsRun(t, es) && NotWrapped(After(t, es))
    ensures !DrawnAgain(t, id, es)
    decreases es
  {
    RunKeepsIds(t, es);
    if es == [] {
    } else {
      NextIsNew(t);
      StepKeepsIds(t, es[0]);
      NotDrawnAgain(Step(t, es[0]), id, es[1..]);
    }
  }

  /** However a forward stops, it takes all and only its own channels with it, and nothing re-adds them. */
  lemma StopRemovesExactly(t: Table, e: Event, c: Id)
    requires CanHappen(t, e) && (e.ServerStop? || e.ForwardStopped?)
    ensures c in Step(t, e).channels <==> c in t.channels && t.channels[c] != e.forward
    ensures c in Step(t, e).channels ==> Step(t, e).channels[c] == t.channels[c]
    ensures e.forward !in Step(t, e).forwards && e.forward !in Step(t, e).initiated
  {
  }

  /** Is this forward stopped for good: gone from the table and waiting for nothing? */
  ghost predicate Gone(t: Table, f: Id) {
    f !in t.forwards && f !in t.initiated && f !in t.pending
    && forall c :: c in t.channels ==> t.channels[c] != f
  }

  lemma RequestKeepsGone(t: Table, f: Id, e: Event)
    requires Gone(t, f) && e.Request? && t.nextId != f
    ensures Gone(Step(t, e), f)
  {
  }

  lemma StopKeepsGone(t: Table, f: Id, e: Event)
    requires Gone(t, f) && CanHappen(t, e) && (e.ServerStop? || e.ForwardStopped?)
    ensures Gone(Step(t, e), f)
  {
  }

  lemma GoneStays(t: Table, f: Id, e: Event)
    requires Gone(t, f) && CanHappen(t, e) && !(Draws(e) && t.nextId == f)
    ensures Gone(Step(t, e), f)
  {
    if e.Request? {
      RequestKeepsGone(t, f, e);
    } else if e.ServerStop? || e.ForwardStopped? {
      StopKeepsGone(t, f, e);
    }
  }

  /** Late data, late connections and late frames for a stopped forward never bring it back. */
  lemma {:induction false} GoneForever(t: Table, f: Id, es: seq<Event>)
    requires Gone(t, f) && IsRun(t, es) && !DrawnAgain(t, f, es)
    ensures Gone(After(t, es), f)
    decreases es
  {
    if es == [] {
    } else {
      GoneStays(t, f, es[0]);
      GoneForever(Step(t, es[0]), f, es[1..]);
    }
  }

  // ---------------------------------------------------------------------
  // The life of a client channel
  // ---------------------------------------------------------------------

  /** Ends channel `c` of forward `f`: closed by either side, given up under back-pressure, or its forward stops. */
  predicate Closes(e: Event, c: Id, f: Id) {
    e in {ServerClose(c), LocalClosed(c), ServerData(c, true), ServerStop(f), ForwardStopped(f)}
  }

  predicate OddIfServers(e: Event) {
    e.ServerOpen? ==> e.channel % 2 == 1
  }

  /** The channel is the client's own: even, no longer waiting to be announced, and in the table for `f`. */
  ghost predicate Entered(t: Table, c: Id, f: Id) {
    && c % 2 == 0 && (forall p :: p in t.announced ==> p.1 != c)
    && c in t.channels && t.channels[c] == f
  }

  ghost predicate StaysIff(t: Table, e: Event, c: Id, f: Id)
    requires CanHappen(t, e)
  {
    && (Closes(e, c, f) ==> c !in Step(t, e).channels)
    && (!Closes(e, c, f) ==> Entered(Step(t, e), c, f))
  }

  lemma RequestKeepsEntered(t: Table, e: Event, c: Id, f: Id)
    requires Entered(t, c, f) && e.Request?
    ensures StaysIff(t, e, c, f)
  {
  }

  lemma StopKeepsEntered(t: Table, e: Event, c: Id, f: Id)
    requires CanHappen(t, e) && Entered(t, c, f) && (e.ServerStop? || e.ForwardStopped?)
    ensures StaysIff(t, e, c, f)
  {
  }

  lemma TaskKeepsEntered(t: Table, e: Event, c: Id, f: Id)
    requires CanHappen(t, e) && Entered(t, c, f) && (e.Accepted? || (e.LocalAccept? && t.nextId != c))
    ensures StaysIff(t, e, c, f)
  {
  }

  /** One step keeps a client channel for its forward exactly when it does not close it. */
  lemma EnteredStep(t: Table, e: Event, c: Id, f: Id)
    requires CanHappen(t, e) && Entered(t, c, f) && OddIfServers(e) && !(Draws(e) && t.nextId == c)
    ensures StaysIff(t, e, c, f)
  {
    if e.Request? {
      RequestKeepsEntered(t, e, c, f);
    } else if e.ServerStop? || e.ForwardStopped? {
      StopKeepsEntered(t, e, c, f);
    } else if e.Accepted? || e.LocalAccept? {
      TaskKeepsEntered(t, e, c, f);
    }
  }

  /**
   * While the server's channels are odd, a connection the client announced
   * keeps its channel and its forward through every run that neither closes
   * it, nor stops the forward, nor draws its id again: no server frame and no
   * other connection takes the id.
   */
  lemma {:induction false} EnteredRun(t: Table, es: seq<Event>, c: Id, f: Id)
    requires IsRun(t, es) && Entered(t, c, f) && !DrawnAgain(t, c, es)
    requires forall i :: 0 <= i < |es| ==> OddIfServers(es[i]) && !Closes(es[i], c, f)
    ensures Entered(After(t, es), c, f)
    decreases es
  {
    if es == [] {
    } else {
      EnteredStep(t, es[0], c, f);
      EnteredRun(Step(t, es[0]), es[1..], c, f);
    }
  }

  /** Every connection waiting to be announced has an id of its own from the counter. */
  ghost predicate AllOnce(waiting: multiset<(Id, Id)>, drawn: seq<Id>) {
    && (forall p :: p in waiting ==> p.1 in drawn && waiting[p] == 1)
    && (forall p, q :: p in waiting && q in waiting && p.1 == q.1 ==> p == q)
  }

  ghost predicate AnnouncedOnce(t: Table) {
    AllOnce(t.announced, t.drawn)
  }

  lemma OnceAdds(waiting: multiset<(Id, Id)>, drawn: seq<Id>, f: Id, c: Id)
    requires AllOnce(waiting, drawn) && c !in drawn
    ensures AllOnce(waiting + multiset{(f, c)}, drawn + [c])
  {
    DrawnGrows(drawn, c);
  }

  lemma OnceRemoves(waiting: multiset<(Id, Id)>, drawn: seq<Id>, p: (Id, Id))
    requires AllOnce(waiting, drawn)
    ensures AllOnce(waiting - multiset{p}, drawn)
  {
  }

  lemma OnceGrows(waiting: multiset<(Id, Id)>, drawn: seq<Id>, c: Id)
    requires AllOnce(waiting, drawn)
    ensures AllOnce(waiting, drawn + [c])
  {
    DrawnGrows(drawn, c);
  }

  lemma AnnouncedStep(t: Table, e: Event)
    requires AnnouncedOnce(t) && CanHappen(t, e) && IdsOk(t) && NotWrapped(t)
    ensures AnnouncedOnce(Step(t, e))
  {
    match e {
      case LocalAccept(f) =>
        NextIsNew(t);
        OnceAdds(t.announced, t.drawn, f, t.nextId);
      case Accepted(f, c) => OnceRemoves(t.announced, t.drawn, (f, c));
      case Request(_, _, _, _) => OnceGrows(t.announced, t.drawn, t.nextId);
      case _ =>
    }
  }

  lemma {:induction false} RunKeepsAnnounced(t: Table, es: seq<Event>)
    requires AnnouncedOnce(t) && IdsOk(t) && IsRun(t, es) && NotWrapped(After(t, es))
    ensures AnnouncedOnce(After(t, es))
    decreases es
  {
    RunKeepsIds(t, es);
    if es == [] {
    } else {
      AnnouncedStep(t, es[0]);
      StepKeepsIds(t, es[0]);
      RunKeepsAnnounced(Step(t, es[0]), es[1..]);
    }
  }

  lemma DrawnIsEven(t: Table, c: Id)
    requires IdsOk(t) && c in t.drawn
    ensures c % 2 == 0
  {
    var i :| 0 <= i < |t.drawn| && t.drawn[i] == c;
    DoubledIsEven(1 + i);
  }

  lemma DoubledIsEven(n: nat)
    ensures (2 * n) % 0x1_0000_0000 % 2 == 0
  {
  }

  /**
   * From the empty table on, before the counter comes round: a connection the
   * client accepted for a standing forward keeps its channel and forward
   * until either side closes it or the forward stops.
   */
  lemma ServerOpenKeepsClientChannels(before: seq<Event>, f: Id, c: Id, later: seq<Event>)
    requires IsRun(EMPTY, before) && CanHappen(After(EMPTY, before), Accepted(f, c))
    requires f in After(EMPTY, before).forwards
    requires var t := Step(After(EMPTY, before), Accepted(f, c)); IsRun(t, later) && NotWrapped(After(t, later))
    requires forall i :: 0 <= i < |later| ==> OddIfServers(later[i]) && !Closes(later[i], c, f)
    ensures Entered(After(Step(After(EMPTY, before), Accepted(f, c)), later), c, f)
  {
    ReachableOnce(before);
    AcceptedRun(After(EMPTY, before), f, c, later);
  }

  lemma ReachableOnce(es: seq<Event>)
    requires IsRun(EMPTY, es)
    ensures IdsOk(After(EMPTY, es)) && (NotWrapped(After(EMPTY, es)) ==> AnnouncedOnce(After(EMPTY, es)))
  {
    RunKeepsIds(EMPTY, es);
    if NotWrapped(After(EMPTY, es)) {
      RunKeepsAnnounced(EMPTY, es);
    }
  }

  lemma AcceptedRun(t: Table, f: Id, c: Id, later: seq<Event>)
    requires IdsOk(t) && (NotWrapped(t) ==> AnnouncedOnce(t)) && CanHappen(t, Accepted(f, c)) && f in t.forwards
    requires IsRun(Step(t, Accepted(f, c)), later) && NotWrapped(After(Step(t, Accepted(f, c)), later))
    requires forall i :: 0 <= i < |later| ==> OddIfServers(later[i]) && !Closes(later[i], c, f)
    ensures Entered(After(Step(t, Accepted(f, c)), later), c, f)
  {
    StepKeepsIds(t, Accepted(f, c));
    RunKeepsIds(Step(t, Accepted(f, c)), later);
    AcceptedEnters(t, f, c);
    NotDrawnAgain(Step(t, Accepted(f, c)), c, later);
    EnteredRun(Step(t, Accepted(f, c)), later, c, f);
  }

  lemma AcceptedEnters(t: Table, f: Id, c: Id)
    requires IdsOk(t) && AnnouncedOnce(t) && CanHappen(t, Accepted(f, c)) && f in t.forwards
    ensures Entered(Step(t, Accepted(f, c)), c, f) && c in Step(t, Accepted(f, c)).drawn
  {
    AnnouncedLeaves(t, f, c);
    DrawnIsEven(t, c);
  }

  /** A connection is announced once: afterwards nothing waits under its id. */
  lemma AnnouncedLeaves(t: Table, f: Id, c: Id)
    requires AnnouncedOnce(t) && CanHappen(t, Accepted(f, c))
    ensures forall p :: p in Step(t, Accepted(f, c)).announced ==> p.1 != c
    ensures Step(t, Accepted(f, c)).drawn == t.drawn && c in t.drawn
  {
    var left := t.announced - multiset{(f, c)};
    forall p | p in left
      ensures p.1 != c
    {
      assert p in t.announced;
    }
  }
}

module PortForwarding {
  import opened ForwardModel

  class ClientPortForwardTable {
    var forwards: map<Id, Forward>
    var channels: map<Id, Id>
    var pendingLf: set<Id>
    var clientInitiated: map<Id, nat>
    var nextChannelId: Id
    ghost var announced: multiset<(Id, Id)>
    ghost var watched: multiset<Id>
    ghost var drawn: seq<Id>

    ghost function Model(): Table
      reads this
    {
      Table(forwards, channels, pendingLf, clientInitiated, nextChannelId, announced, watched, drawn)
    }

    constructor ()
      ensures Model() == EMPTY
    {
      forwards, channels, pendingLf, clientInitiated, nextChannelId := map[], map[], {}, map[], 2;
      announced, watched, drawn := multiset{}, multiset{}, [];
    }

    method Handle(e: Event)
      requires CanHappen(Model(), e)
      modifies this
      ensures Model() == Step(old(Model()), e)
    {
      if IsServerFrame(e) {
        HandleServerFrame(e);
      } else {
        HandleLocalEvent(e);
      }
    }

    static predicate IsServerFrame(e: Event) {
      e.ServerListen? || e.ServerOpen? || e.ServerData? || e.ServerClose? || e.ServerReady? || e.ServerStop?
    }

    method HandleServerFrame(e: Event)
      requires CanHappen(Model(), e) && IsServerFrame(e)
      modifies this
      ensures Model() == Step(old(Model()), e)
    {
      match e {
        case ServerListen(_) =>
        case ServerOpen(f, c, connected) =>
          if f in clientInitiated {
            if connected {
              channels := channels[c := f];
            }
          }
        case ServerData(c, backpressured) =>
          if c in channels && backpressured {
            channels := channels - {c};
          }
        case ServerClose(c) =>
          channels := channels - {c};
        case ServerReady(f) =>
          if f in pendingLf {
            pendingLf := pendingLf - {f};
            StartPfKeepalive(f, if f in clientInitiated then clientInitiated[f] else 0);
          }
        case ServerStop(f) =>
          pendingLf := pendingLf - {f};
          StopForward(f);
      }
    }

    method HandleLocalEvent(e: Event)
      requires CanHappen(Model(), e) && !IsServerFrame(e)
      modifies this
      ensures Model() == Step(old(Model()), e)
    {
      match e {
        case LocalAccept(f) =>
          var c := FetchAdd();
          announced := announced + multiset{(f, c)};
        case Accepted(f, c) =>
          announced := announced - multiset{(f, c)};
          if f in forwards {
            channels := channels[c := f];
          }
        case LocalClosed(c) =>
          channels := channels - {c};
        case ForwardStopped(f) =>
          watched := watched - multiset{f};
          StopForward(f);
        case Request(direction, targetPort, bound, sent) =>
          FwdRequest(direction, targetPort, bound, sent);
      }
    }

    method FetchAdd() returns (id: Id)
      modifies this`nextChannelId, this`drawn
      ensures id == old(nextChannelId) && Model() == Allocate(old(Model()))
    {
      id := nextChannelId;
      nextChannelId := (nextChannelId + 2) % 0x1_0000_0000;
      drawn := drawn + [id];
    }

    method StopForward(f: Id)
      modifies this`forwards, this`channels, this`clientInitiated
      ensures Model() == RemoveForward(old(Model()), f)
    {
      forwards := forwards - {f};
      channels := map c | c in channels && channels[c] != f :: channels[c];
      clientInitiated := clientInitiated - {f};
    }

    method FwdRequest(direction: nat, targetPort: nat, bound: bool, sent: bool)
      modifies this
      ensures Model() == HandleRequest(old(Model()), direction, targetPort, bound, sent)
    {
      var f := FetchAdd();
      if direction == 1 {
        if !bound {
          return;
        }
        forwards := forwards[f := Forward(targetPort, true, false)];
      }
      if direction == 0 {
        clientInitiated := clientInitiated[f := targetPort];
      }
      if !sent {
        return;
      }
      if direction == 0 {
        pendingLf := pendingLf + {f};
        return;
      }
      StartPfKeepalive(f, targetPort);
    }

    method StartPfKeepalive(f: Id, targetPort: nat)
      modifies this`forwards, this`watched
      ensures Model() == StartKeepalive(old(Model()), f, targetPort)
    {
      if f !in forwards {
        forwards := forwards[f := Forward(targetPort, false, false)];
      }
      forwards := forwards[f := forwards[f].(keepalive := true)];
      watched := watched + multiset{f};
    }
  }
}
