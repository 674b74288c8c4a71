// The daemon's session table (src/daemon.rs): naming, ids, ownership, and
// what a client that reconnects by id can reach.  Clocks, sends that may
// fail and the session tasks are inputs of each step.

module SessionTable {
  import opened Wrappers
  import opened Bytes

  type Id = nat
  type Device = nat

  /** How many values the id counter has. */
  const ID_COUNT: nat := 0x1_0000_0000

  const DASH: bytes := [0x2d]

  /** What a session's task has published about it. */
  datatype Meta = Meta(owner: Device, attached: bool, lastHeartbeat: nat, createdAt: nat, linger: nat)

  /** One entry; `shell` is the session task and shell it stands for. */
  datatype Session = Session(
    name: Option<bytes>, shell: nat, creator: Device, meta: Option<Meta>, finished: bool, closed: bool)

  type Sessions = map<Id, Session>

  datatype ErrorCode = NoSuchSession | NameAlreadyExists | InvalidName | EmptyName | AlreadyAttached | OwnerChanged

  datatype Reply = Done | Created(id: Id) | AttachAck(id: Id) | Refused(code: ErrorCode) | Unsent

  datatype Daemon = Daemon(
    serverId: nat, sessions: Sessions, nextId: Id, lastAttached: Option<Id>, created: nat, nextShell: nat)

  // ---------------------------------------------------------------------
  // Names
  // ---------------------------------------------------------------------

  predicate HasControl(name: bytes) {
    exists i :: 0 <= i < |name| && (name[i] < 0x20 || name[i] == 0x7f)
  }

  ghost predicate Named(s: Sessions, id: Id, name: bytes) {
    id in s && s[id].name == Some(name)
  }

  ghost predicate NameTaken(s: Sessions, name: bytes) {
    exists id :: Named(s, id, name)
  }

  ghost function ValidateName(name: bytes, s: Sessions): Option<ErrorCode> {
    if HasControl(name) then Some(InvalidName)
    else if ParseUint(name, U32_MAX).Some? then Some(InvalidName)
    else if name == DASH then Some(InvalidName)
    else if NameTaken(s, name) then Some(NameAlreadyExists)
    else None
  }

  /** A name that can be neither an id nor the last-attached mark. */
  ghost predicate ProperName(name: bytes) {
    name != [] && !HasControl(name) && ParseUint(name, U32_MAX).None? && name != DASH
  }

  // ---------------------------------------------------------------------
  // Resolution
  // ---------------------------------------------------------------------

  /** What walking the map in some order may answer. */
  ghost predicate MayResolve(s: Sessions, target: bytes, last: Option<Id>, r: Option<Id>) {
    if target == DASH then r == if last.Some? && last.value in s then last else None
    else if NameTaken(s, target) then r.Some? && Named(s, r.value, target)
    else
      var id := ParseUint(target, U32_MAX);
      r == if id.Some? && id.value in s then id else None
  }

  ghost predicate NamesUnique(s: Sessions) {
    forall i, j, name :: Named(s, i, name) && Named(s, j, name) ==> i == j
  }

  /** With unique names the answer does not depend on the iteration order. */
  lemma ResolutionIsOrderFree(s: Sessions, target: bytes, last: Option<Id>, a: Option<Id>, b: Option<Id>)
    requires NamesUnique(s) && MayResolve(s, target, last, a) && MayResolve(s, target, last, b)
    ensures a == b
  {
  }

  ghost function Resolve(s: Sessions, target: bytes, last: Option<Id>): (r: Option<Id>)
    ensures MayResolve(s, target, last, r)
    ensures r.Some? ==> r.value in s
  {
    if target == DASH then (if last.Some? && last.value in s then last else None)
    else if NameTaken(s, target) then
      var id :| Named(s, id, target);
      Some(id)
    else
      var id := ParseUint(target, U32_MAX);
      if id.Some? && id.value in s then id else None
  }

  // ---------------------------------------------------------------------
  // Reaping
  // ---------------------------------------------------------------------

  function Reap(s: Sessions): Sessions {
    map id | id in s && !s[id].finished :: s[id]
  }

  /** Unattached, with a linger set, and nobody present for that long. */
  predicate LingerExpired(s: Session, now: nat) {
    s.meta.Some? && s.meta.value.linger != 0 && !s.meta.value.attached
    && SaturatingSub(now, Max(s.meta.value.lastHeartbeat, s.meta.value.createdAt)) >= s.meta.value.linger
  }

  function ReapLingering(s: Sessions, now: nat): Sessions {
    map id | id in s && !LingerExpired(s[id], now) :: s[id]
  }

  // ---------------------------------------------------------------------
  // Control frames
  // ---------------------------------------------------------------------

  datatype Dispatched = Dispatched(daemon: Daemon, reply: Reply)

  /** `acked`: both hand-off frames were sent; `meta`: what the task published within the wait, if anything. */
  ghost function NewSession(d: Daemon, name: bytes, device: Device, acked: bool, meta: Option<Meta>, now: nat): Dispatched {
    var d := d.(sessions := Reap(d.sessions));
    var named := if name == [] then None else Some(name);
    var error := if name == [] then None else ValidateName(name, d.sessions);
    if error.Some? then Dispatched(d, Refused(error.value))
    else
      HandOffNew(Register(d, named, device), d.nextId, device, acked, meta, now)
  }

  /** The next id and a new shell go into the table. */
  function Register(d: Daemon, name: Option<bytes>, device: Device): Daemon {
    d.(nextId := (d.nextId + 1) % ID_COUNT, created := d.created + 1, nextShell := d.nextShell + 1,
       sessions := d.sessions[d.nextId := Session(name, d.nextShell, device, None, false, false)])
  }

  /** Both hand-off frames reach the creator, or the session is taken back. */
  function HandOffNew(d: Daemon, id: Id, device: Device, acked: bool, meta: Option<Meta>, now: nat): Dispatched
    requires id in d.sessions
  {
    if !acked then Dispatched(d.(sessions := d.sessions - {id}), Unsent)
    else
      Dispatched(d.(sessions := d.sessions[id := d.sessions[id].(meta := Published(meta, device, now))],
                    lastAttached := Some(id)),
                 Created(id))
  }

  /** Metadata as the task publishes it for a creator, then marked attached. */
  function Published(meta: Option<Meta>, owner: Device, now: nat): Option<Meta> {
    match meta
    case None => None
    case Some(m) => Some(m.(owner := owner, attached := true, lastHeartbeat := now))
  }

  ghost function Attach(d: Daemon, target: bytes, device: Device, token: nat, force: bool, noReplay: bool,
                        meta: Option<Meta>, acked: bool, now: nat): Dispatched {
    var d := d.(sessions := Reap(d.sessions));
    var resolved := Resolve(d.sessions, target, d.lastAttached);
    if resolved.None? then Dispatched(d, Refused(NoSuchSession))
    else
      var id, s := resolved.value, d.sessions[resolved.value];
      if s.closed then Dispatched(d.(sessions := d.sessions - {id}), Refused(NoSuchSession))
      else if noReplay then Dispatched(d, Done)
      else if token != 0 && device != CurrentOwner(s) then Dispatched(d, Refused(OwnerChanged))
      else if s.meta.Some? && s.meta.value.attached && !force then Dispatched(d, Refused(AlreadyAttached))
      else AttachReady(d, id, device, meta, acked, now)
  }

  function CurrentOwner(s: Session): Device {
    match s.meta case Some(m) => m.owner case None => 0
  }

  /** Past every check: wait for metadata, acknowledge, and only then take ownership. */
  function AttachReady(d: Daemon, id: Id, device: Device, meta: Option<Meta>, acked: bool, now: nat): Dispatched
    requires id in d.sessions
  {
    var s := d.sessions[id];
    var ready :=
      if s.meta.Some? then s.meta
      else match meta case Some(m) => Some(m.(owner := s.creator)) case None => None;
    if ready.None? then Dispatched(d, Refused(NoSuchSession))
    else if !acked then Dispatched(d.(sessions := d.sessions[id := s.(meta := ready)]), Unsent)
    else
      Dispatched(d.(sessions := d.sessions[id := s.(meta := Published(ready, device, now))], lastAttached := Some(id)),
                 AttachAck(id))
  }

  /** Reap, resolve, and sweep an entry whose task is dead. */
  ghost function ResolveLive(d: Daemon, target: bytes): (Daemon, Option<Id>) {
    var d := d.(sessions := Reap(d.sessions));
    var resolved := Resolve(d.sessions, target, d.lastAttached);
    if resolved.Some? && d.sessions[resolved.value].closed then
      (d.(sessions := d.sessions - {resolved.value}), None)
    else (d, resolved)
  }

  ghost function Kill(d: Daemon, target: bytes): Dispatched {
    var (d, live) := ResolveLive(d, target);
    match live
    case None => Dispatched(d, Refused(NoSuchSession))
    case Some(id) => Dispatched(d.(sessions := d.sessions - {id}), Done)
  }

  ghost function Rename(d: Daemon, target: bytes, name: bytes): Dispatched {
    var (d, live) := ResolveLive(d, target);
    if live.None? then Dispatched(d, Refused(NoSuchSession))
    else if name == [] then Dispatched(d, Refused(EmptyName))
    else
      var error := ValidateName(name, d.sessions);
      if error.Some? then Dispatched(d, Refused(error.value))
      else Dispatched(d.(sessions := d.sessions[live.value := d.sessions[live.value].(name := Some(name))]), Done)
  }

  ghost function SetLinger(d: Daemon, target: bytes, linger: nat): Dispatched {
    var (d, live) := ResolveLive(d, target);
    if live.None? then Dispatched(d, Refused(NoSuchSession))
    else
      var s := d.sessions[live.value];
      match s.meta
      case None => Dispatched(d, Refused(NoSuchSession))
      case Some(m) => Dispatched(d.(sessions := d.sessions[live.value := s.(meta := Some(m.(linger := linger)))]), Done)
  }
}

module SessionRuns {
  import opened Wrappers
  import opened Bytes
  import opened SessionTable

  datatype Event =
    | ENew(name: bytes, device: Device, acked: bool, meta: Option<Meta>, now: nat)
    | EAttach(target: bytes, device: Device, token: nat, force: bool, noReplay: bool,
              meta: Option<Meta>, acked: bool, now: nat)
    | EKill(target: bytes)
    | ERename(target: bytes, name: bytes)
    | ESetLinger(target: bytes, linger: nat)
    | EReap(now: nat)
    | ETask(id: Id, next: Session)      // a session task publishes, detaches, ends
    | ERestart(serverId: nat)

  datatype World = World(daemon: Daemon, servers: set<nat>)

  function Fresh(serverId: nat, nextShell: nat): Daemon {
    Daemon(serverId, map[], 0, None, 0, nextShell)
  }

  function Start(serverId: nat): World {
    World(Fresh(serverId, 0), {serverId})
  }

  /** A task never touches its name or identity, and metadata once published keeps its owner. */
  predicate TaskMay(old_: Session, next: Session) {
    && next.name == old_.name && next.shell == old_.shell && next.creator == old_.creator
    && (old_.meta.Some? ==> next.meta.Some? && next.meta.value.owner == old_.meta.value.owner)
    && (old_.meta.None? && next.meta.Some? ==> next.meta.value.owner == old_.creator)
  }

  /** Restarts pick a new server id. */
  predicate CanHappen(w: World, e: Event) {
    match e
    case ETask(id, next) => id in w.daemon.sessions && TaskMay(w.daemon.sessions[id], next)
    case ERestart(serverId) => serverId !in w.servers
    case _ => true
  }

  ghost function Dispatch(d: Daemon, e: Event): Dispatched
    requires !e.ERestart? && (e.ETask? ==> e.id in d.sessions)
  {
    match e
    case ENew(name, device, acked, meta, now) => NewSession(d, name, device, acked, meta, now)
    case EAttach(target, device, token, force, noReplay, meta, acked, now) =>
      Attach(d, target, device, token, force, noReplay, meta, acked, now)
    case EKill(target) => Kill(d, target)
    case ERename(target, name) => Rename(d, target, name)
    case ESetLinger(target, linger) => SetLinger(d, target, linger)
    case EReap(now) => Dispatched(d.(sessions := Reap(ReapLingering(d.sessions, now))), Done)
    case ETask(id, next) => Dispatched(d.(sessions := d.sessions[id := next]), Done)
  }

  ghost function Step(w: World, e: Event): World
    requires CanHappen(w, e)
  {
    match e
    case ERestart(serverId) => World(Fresh(serverId, w.daemon.nextShell), w.servers + {serverId})
    case _ => World(Dispatch(w.daemon, e).daemon, w.servers)
  }

  ghost predicate IsRun(w: World, es: seq<Event>)
    decreases es
  {
    es != [] ==> CanHappen(w, es[0]) && IsRun(Step(w, es[0]), es[1..])
  }

  ghost function After(w: World, es: seq<Event>): World
    requires IsRun(w, es)
    decreases es
  {
    if es == [] then w else After(Step(w, es[0]), es[1..])
  }

  // ---------------------------------------------------------------------
  // The table
  // ---------------------------------------------------------------------

  ghost predicate NamesProper(s: Sessions) {
    forall id :: id in s && s[id].name.Some? ==> ProperName(s[id].name.value)
  }

  /** How many shells were started before this daemon's first. */
  function FirstShell(d: Daemon): nat
    requires d.created <= d.nextShell
  {
    d.nextShell - d.created
  }

  /** Every entry sits under the number of its creation, and no later one has drawn that number again. */
  ghost predicate Births(d: Daemon) {
    && d.created <= d.nextShell && d.nextId == d.created % ID_COUNT
    && forall id :: id in d.sessions ==>
         BornHere(d, id, d.sessions[id].shell) && CounterNotRound(d, d.sessions[id].shell)
  }

  predicate BornHere(d: Daemon, id: Id, shell: nat)
    requires d.created <= d.nextShell
  {
    FirstShell(d) <= shell < d.nextShell && id == (shell - FirstShell(d)) % ID_COUNT
  }

  /** Fewer than 2^32 creations have followed the one that made this session. */
  predicate CounterNotRound(d: Daemon, shell: nat) {
    d.nextShell <= shell + ID_COUNT
  }

  ghost predicate TableOk(d: Daemon) {
    && NamesUnique(d.sessions) && NamesProper(d.sessions) && Births(d)
    && (d.lastAttached.Some? ==> d.lastAttached.value < ID_COUNT)
  }

  /** Dropping entries and changing anything but names keeps the names in order. */
  ghost predicate NamesFrom(s': Sessions, s: Sessions) {
    forall id :: id in s' ==> id in s && s'[id].name == s[id].name
  }

  lemma NamesFromKeeps(s': Sessions, s: Sessions)
    requires NamesFrom(s', s) && NamesUnique(s) && NamesProper(s)
    ensures NamesUnique(s') && NamesProper(s')
  {
    forall i, j, name | Named(s', i, name) && Named(s', j, name)
      ensures i == j
    {
      assert Named(s, i, name) && Named(s, j, name);
    }
  }

  lemma NamingKeeps(s: Sessions, id: Id, entry: Session)
    requires NamesUnique(s) && NamesProper(s)
    requires entry.name.Some? ==> ProperName(entry.name.value) && !NameTaken(s, entry.name.value)
    ensures NamesUnique(s[id := entry]) && NamesProper(s[id := entry])
  {
    var s' := s[id := entry];
    forall i, j, name | Named(s', i, name) && Named(s', j, name)
      ensures i == j
    {
      assert i != id ==> Named(s, i, name);
      assert j != id ==> Named(s, j, name);
    }
  }

  lemma ReapedOk(d: Daemon)
    requires TableOk(d)
    ensures TableOk(d.(sessions := Reap(d.sessions)))
  {
    NamesFromKeeps(Reap(d.sessions), d.sessions);
  }

  lemma NewKeepsNames(d: Daemon, e: Event)
    requires TableOk(d) && e.ENew?
    ensures NamesUnique(Dispatch(d, e).daemon.sessions) && NamesProper(Dispatch(d, e).daemon.sessions)
  {
    ReapedOk(d);
    var s := Reap(d.sessions);
    var named := if e.name == [] then None else Some(e.name);
    var entry := Session(named, d.nextShell, e.device, None, false, false);
    if e.name == [] || ValidateName(e.name, s).None? {
      var s1 := s[d.nextId := entry];
      NamingKeeps(s, d.nextId, entry);
      NamesFromKeeps(s1 - {d.nextId}, s1);
      NamesFromKeeps(s1[d.nextId := entry.(meta := Published(e.meta, e.device, e.now))], s1);
    }
  }

  lemma CountersStep(created: nat)
    ensures (created % ID_COUNT + 1) % ID_COUNT == (created + 1) % ID_COUNT
  {
  }

  /** The one session whose number comes round next sits under the next id. */
  lemma OldestIsNext(created: nat, born: nat)
    requires created == born + ID_COUNT
    ensures created % ID_COUNT == born % ID_COUNT
  {
  }

  /** A creation that goes ahead draws the next id, whose entry is replaced or taken back. */
  lemma NewKeepsBirths(d: Daemon, e: Event)
    requires Births(d) && e.ENew? && !Dispatch(d, e).reply.Refused?
    ensures Births(Dispatch(d, e).daemon)
  {
    var d' := Dispatch(d, e).daemon;
    CountersStep(d.created);
    forall id | id in d'.sessions
      ensures BornHere(d', id, d'.sessions[id].shell) && CounterNotRound(d', d'.sessions[id].shell)
    {
      if id != d.nextId {
        var shell := d.sessions[id].shell;
        if d.nextShell == shell + ID_COUNT {
          OldestIsNext(d.created, shell - FirstShell(d));
        }
      }
    }
  }

  lemma NewKeepsTable(d: Daemon, e: Event)
    requires TableOk(d) && e.ENew?
    ensures TableOk(Dispatch(d, e).daemon)
  {
    NewKeepsNames(d, e);
    if !Dispatch(d, e).reply.Refused? {
      NewKeepsBirths(d, e);
    }
  }

  lemma LiveKeepsTable(d: Daemon, target: bytes)
    requires TableOk(d)
    ensures TableOk(ResolveLive(d, target).0) && NamesFrom(ResolveLive(d, target).0.sessions, d.sessions)
  {
    ReapedOk(d);
    NamesFromKeeps(ResolveLive(d, target).0.sessions, d.sessions);
  }

  lemma RenameKeepsTable(d: Daemon, target: bytes, name: bytes)
    requires TableOk(d)
    ensures TableOk(Rename(d, target, name).daemon)
  {
    LiveKeepsTable(d, target);
    var (live, id) := ResolveLive(d, target);
    if id.Some? && name != [] && ValidateName(name, live.sessions).None? {
      NamingKeeps(live.sessions, id.value, live.sessions[id.value].(name := Some(name)));
    }
  }

  lemma DropKeepsTable(d: Daemon, id: Id)
    requires TableOk(d)
    ensures TableOk(d.(sessions := d.sessions - {id}))
  {
    NamesFromKeeps(d.sessions - {id}, d.sessions);
  }

  lemma TaskKeepsTable(d: Daemon, id: Id, next: Session)
    requires TableOk(d) && id in d.sessions && TaskMay(d.sessions[id], next)
    ensures TableOk(d.(sessions := d.sessions[id := next]))
  {
    NamesFromKeeps(d.sessions[id := next], d.sessions);
  }

  lemma KillKeepsTable(d: Daemon, target: bytes)
    requires TableOk(d)
    ensures TableOk(Kill(d, target).daemon)
  {
    LiveKeepsTable(d, target);
    var (live, id) := ResolveLive(d, target);
    if id.Some? {
      DropKeepsTable(live, id.value);
    }
  }

  lemma SetLingerKeepsTable(d: Daemon, target: bytes, linger: nat)
    requires TableOk(d)
    ensures TableOk(SetLinger(d, target, linger).daemon)
  {
    LiveKeepsTable(d, target);
    var (live, id) := ResolveLive(d, target);
    if id.Some? && live.sessions[id.value].meta.Some? {
      var s := live.sessions[id.value];
      TaskKeepsTable(live, id.value, s.(meta := Some(s.meta.value.(linger := linger))));
    }
  }

  lemma AttachKeepsNames(d: Daemon, e: Event)
    requires e.EAttach?
    ensures NamesFrom(Dispatch(d, e).daemon.sessions, d.sessions)
  {
  }

  lemma AttachKeepsCounters(d: Daemon, e: Event)
    requires e.EAttach?
    ensures var d' := Dispatch(d, e).daemon;
            && d'.created == d.created && d'.nextShell == d.nextShell && d'.nextId == d.nextId
            && (d'.lastAttached == d.lastAttached || (d'.lastAttached.Some? && d'.lastAttached.value in d.sessions))
  {
  }

  lemma AttachKeepsTable(d: Daemon, e: Event)
    requires TableOk(d) && e.EAttach?
    ensures TableOk(Dispatch(d, e).daemon)
  {
    var d' := Dispatch(d, e).daemon;
    AttachKeepsNames(d, e);
    AttachKeepsCounters(d, e);
    NamesFromKeeps(d'.sessions, d.sessions);
    forall id | id in d'.sessions
      ensures BornHere(d, id, d'.sessions[id].shell) && CounterNotRound(d, d'.sessions[id].shell)
    {
      DispatchKeepsShells(d, e, id);
    }
  }

  lemma ReapKeepsTable(d: Daemon, now: nat)
    requires TableOk(d)
    ensures TableOk(d.(sessions := Reap(ReapLingering(d.sessions, now))))
  {
    LingeringOk(d, now);
    ReapedOk(d.(sessions := ReapLingering(d.sessions, now)));
  }

  lemma LingeringOk(d: Daemon, now: nat)
    requires TableOk(d)
    ensures TableOk(d.(sessions := ReapLingering(d.sessions, now)))
  {
    NamesFromKeeps(ReapLingering(d.sessions, now), d.sessions);
  }

  lemma StepKeepsTable(w: World, e: Event)
    requires TableOk(w.daemon) && CanHappen(w, e)
    ensures TableOk(Step(w, e).daemon)
  {
    match e {
      case ENew(_, _, _, _, _) => NewKeepsTable(w.daemon, e);
      case EAttach(_, _, _, _, _, _, _, _) => AttachKeepsTable(w.daemon, e);
      case EKill(target) => KillKeepsTable(w.daemon, target);
      case ERename(target, name) => RenameKeepsTable(w.daemon, target, name);
      case ESetLinger(target, linger) => SetLingerKeepsTable(w.daemon, target, linger);
      case EReap(now) => ReapKeepsTable(w.daemon, now);
      case ETask(id, next) => TaskKeepsTable(w.daemon, id, next);
      case ERestart(_) =>
    }
  }

  /**
   * In every reachable table, counter wraps included, names are unique and
   * proper and every id is its session's creation number modulo 2^32.
   */
  lemma {:induction false} RunKeepsTable(w: World, es: seq<Event>)
    requires TableOk(w.daemon) && IsRun(w, es)
    ensures TableOk(After(w, es).daemon)
    decreases es
  {
    if es == [] {
    } else {
      StepKeepsTable(w, es[0]);
      RunKeepsTable(Step(w, es[0]), es[1..]);
    }
  }

  /** Until the counter comes round, every id is below the next one. */
  lemma IdsBelowNext(d: Daemon, id: Id)
    requires TableOk(d) && d.created < ID_COUNT && id in d.sessions
    ensures id < d.nextId
  {
    assert BornHere(d, id, d.sessions[id].shell);
  }

  // ---------------------------------------------------------------------
  // Creation
  // ---------------------------------------------------------------------

  /** Some session of `s` is gone or its id means another one. */
  ghost predicate LosesSession(s: Sessions, s': Sessions) {
    exists id :: id in s && (id !in s' || s'[id].shell != s[id].shell)
  }

  /** What a creation does to the reaped table: it touches the entry under the next id and no other. */
  lemma CreationTouchesNextId(d: Daemon, name: bytes, device: Device, acked: bool, meta: Option<Meta>, now: nat)
    ensures var r, s := NewSession(d, name, device, acked, meta, now), Reap(d.sessions);
            match r.reply
            case Created(id) =>
              id == d.nextId && id in r.daemon.sessions && r.daemon.sessions[id].shell == d.nextShell
              && r.daemon.sessions - {id} == s - {id}
            case Unsent => r.daemon.sessions == s - {d.nextId} && r.daemon.lastAttached == d.lastAttached
            case _ => r.daemon.sessions == s && r.daemon.lastAttached == d.lastAttached
  {
    var s := Reap(d.sessions);
    var entry := Session(if name == [] then None else Some(name), d.nextShell, device, None, false, false);
    assert s[d.nextId := entry] - {d.nextId} == s - {d.nextId};
    var done := entry.(meta := Published(meta, device, now));
    assert s[d.nextId := entry][d.nextId := done] - {d.nextId} == s - {d.nextId};
  }

  /** An accepted creation costs a live session its place exactly when the next id is still in use. */
  lemma CreationOverwritesExactly(d: Daemon, name: bytes, device: Device, acked: bool, meta: Option<Meta>, now: nat)
    requires TableOk(d) && !NewSession(d, name, device, acked, meta, now).reply.Refused?
    ensures LosesSession(Reap(d.sessions), NewSession(d, name, device, acked, meta, now).daemon.sessions)
       <==> d.nextId in Reap(d.sessions)
  {
    var r, s := NewSession(d, name, device, acked, meta, now), Reap(d.sessions);
    CreationTouchesNextId(d, name, device, acked, meta, now);
    if d.nextId in s {
      assert BornHere(d, d.nextId, d.sessions[d.nextId].shell);
    } else {
      assert s - {d.nextId} == s;
      forall id | id in s
        ensures id in r.daemon.sessions && r.daemon.sessions[id].shell == s[id].shell
      {
        assert id in r.daemon.sessions - {d.nextId} && (r.daemon.sessions - {d.nextId})[id] == s[id];
      }
    }
  }

  /** With a free next id, a creation adds one entry, and one whose hand-off fails leaves the reaped table as it was. */
  lemma CreationIsClean(d: Daemon, name: bytes, device: Device, acked: bool, meta: Option<Meta>, now: nat)
    requires TableOk(d)
    ensures var r := NewSession(d, name, device, acked, meta, now);
            && (d.created < ID_COUNT ==> d.nextId !in d.sessions)
            && (d.nextId !in Reap(d.sessions) ==>
                  && (r.reply.Created? ==> r.reply.id == d.nextId && r.daemon.sessions - {d.nextId} == Reap(d.sessions))
                  && (!r.reply.Created? ==>
                        r.daemon.sessions == Reap(d.sessions) && r.daemon.lastAttached == d.lastAttached))
  {
    CreationTouchesNextId(d, name, device, acked, meta, now);
    if d.nextId !in Reap(d.sessions) {
      assert Reap(d.sessions) - {d.nextId} == Reap(d.sessions);
    }
    if d.created < ID_COUNT && d.nextId in d.sessions {
      IdsBelowNext(d, d.nextId);
      assert false;
    }
  }

  // ---------------------------------------------------------------------
  // What a target means after a request
  // ---------------------------------------------------------------------

  lemma NameResolves(s: Sessions, id: Id, name: bytes, last: Option<Id>)
    requires NamesUnique(s) && NamesProper(s) && Named(s, id, name)
    ensures Resolve(s, name, last) == Some(id)
  {
    assert NameTaken(s, name);
  }

  /** A created session is reached by its name, by its id and as the last attached one. */
  lemma CreatedResolves(d: Daemon, e: Event)
    requires TableOk(d) && e.ENew? && Dispatch(d, e).reply.Created?
    ensures var r := Dispatch(d, e);
            && (e.name != [] ==> Resolve(r.daemon.sessions, e.name, r.daemon.lastAttached) == Some(r.reply.id))
            && Resolve(r.daemon.sessions, Decimal(r.reply.id), r.daemon.lastAttached) == Some(r.reply.id)
            && Resolve(r.daemon.sessions, DASH, r.daemon.lastAttached) == Some(r.reply.id)
  {
    var r := Dispatch(d, e);
    NewKeepsTable(d, e);
    IdResolves(r.daemon.sessions, r.reply.id, r.daemon.lastAttached);
    if e.name != [] {
      NameResolves(r.daemon.sessions, r.reply.id, e.name, r.daemon.lastAttached);
    }
  }

  /** A renamed session answers to its new name, not to its old one; a refused rename changes nothing. */
  lemma RenamedResolves(d: Daemon, target: bytes, name: bytes)
    requires TableOk(d)
    ensures var r, live := Rename(d, target, name), ResolveLive(d, target);
            if !r.reply.Done? then r.daemon == live.0
            else
              && live.1.Some? && Resolve(r.daemon.sessions, name, r.daemon.lastAttached) == live.1
              && (forall old_ :: old_ != name && Named(live.0.sessions, live.1.value, old_) ==>
                    !NameTaken(r.daemon.sessions, old_))
              && r.daemon == live.0.(sessions := r.daemon.sessions)
              && r.daemon.sessions - {live.1.value} == live.0.sessions - {live.1.value}
  {
    var r, live := Rename(d, target, name), ResolveLive(d, target);
    if r.reply.Done? {
      LiveKeepsTable(d, target);
      RenameKeepsTable(d, target, name);
      NameResolves(r.daemon.sessions, live.1.value, name, r.daemon.lastAttached);
      forall old_ | old_ != name && Named(live.0.sessions, live.1.value, old_)
        ensures !NameTaken(r.daemon.sessions, old_)
      {
        forall id
          ensures !Named(r.daemon.sessions, id, old_)
        {
          if Named(r.daemon.sessions, id, old_) {
            assert Named(live.0.sessions, id, old_);
          }
        }
      }
    }
  }

  /** A killed target resolves to nothing afterwards, however it was named, and no other session is touched. */
  lemma KilledIsGone(d: Daemon, target: bytes)
    requires TableOk(d) && Kill(d, target).reply.Done?
    ensures var r, live := Kill(d, target), ResolveLive(d, target);
            && live.1.Some? && r.daemon.sessions == live.0.sessions - {live.1.value}
            && Resolve(r.daemon.sessions, target, r.daemon.lastAttached) == None
  {
    var r, live := Kill(d, target), ResolveLive(d, target);
    LiveKeepsTable(d, target);
    if target != DASH && NameTaken(r.daemon.sessions, target) {
      var id :| Named(r.daemon.sessions, id, target);
      assert Named(live.0.sessions, id, target);
      NameResolves(live.0.sessions, id, target, live.0.lastAttached);
      assert false;
    }
  }

  // ---------------------------------------------------------------------
  // Reconnecting by id
  // ---------------------------------------------------------------------

  /** What a client keeps from its attach; `shell` is the session it was really attached to. */
  datatype Client = Client(serverId: nat, id: Id, shell: nat, device: Device)

  ghost predicate AttachedTo(w: World, c: Client) {
    && w.daemon.serverId == c.serverId && c.serverId in w.servers
    && c.id in w.daemon.sessions && w.daemon.sessions[c.id].shell == c.shell
  }

  /** As long as this daemon runs and the counter has not come round, the id can only mean the client's session. */
  ghost predicate IdStillMeans(w: World, c: Client) {
    && c.serverId in w.servers
    && (w.daemon.serverId == c.serverId ==>
          && w.daemon.created <= w.daemon.nextShell && BornHere(w.daemon, c.id, c.shell)
          && (CounterNotRound(w.daemon, c.shell) && c.id in w.daemon.sessions ==>
                w.daemon.sessions[c.id].shell == c.shell))
  }

  /** Entries keep their shell through every dispatch, and only a creation puts a new one under the next id. */
  lemma DispatchKeepsShells(d: Daemon, e: Event, id: Id)
    requires TableOk(d) && !e.ERestart? && (e.ETask? ==> e.id in d.sessions && TaskMay(d.sessions[e.id], e.next))
    ensures var d' := Dispatch(d, e).daemon;
            && d'.nextShell >= d.nextShell && d'.nextShell - d.nextShell == d'.created - d.created
            && (id in d'.sessions ==>
                  || (id in d.sessions && d'.sessions[id].shell == d.sessions[id].shell
                      && d'.sessions[id].creator == d.sessions[id].creator)
                  || (e.ENew? && id == d.nextId && d'.sessions[id].shell == d.nextShell
                      && d'.nextShell == d.nextShell + 1))
  {
  }

  /** A session's id is not the next one again before the counter has come round. */
  lemma NextIsAnother(created: nat, born: nat)
    requires born < created < born + ID_COUNT
    ensures created % ID_COUNT != born % ID_COUNT
  {
  }

  lemma StepKeepsMeaning(w: World, e: Event, c: Client)
    requires TableOk(w.daemon) && CanHappen(w, e) && IdStillMeans(w, c)
    ensures IdStillMeans(Step(w, e), c)
  {
    if !e.ERestart? && w.daemon.serverId == c.serverId {
      DispatchKeepsShells(w.daemon, e, c.id);
      var d, d' := w.daemon, Step(w, e).daemon;
      if CounterNotRound(d', c.shell) && d'.nextShell > d.nextShell {
        NextIsAnother(d.created, c.shell - FirstShell(d));
      }
    }
  }

  lemma {:induction false} RunKeepsMeaning(w: World, es: seq<Event>, c: Client)
    requires TableOk(w.daemon) && IsRun(w, es) && IdStillMeans(w, c)
    ensures TableOk(After(w, es).daemon) && IdStillMeans(After(w, es), c)
    decreases es
  {
    if es == [] {
    } else {
      StepKeepsTable(w, es[0]);
      StepKeepsMeaning(w, es[0], c);
      RunKeepsMeaning(Step(w, es[0]), es[1..], c);
    }
  }

  /** A printed id resolves to that id or to nothing, whatever the sessions are called. */
  lemma IdResolves(s: Sessions, id: Id, last: Option<Id>)
    requires NamesProper(s) && id <= U32_MAX
    ensures Resolve(s, Decimal(id), last) == if id in s then Some(id) else None
  {
    ParseDecimal(id, U32_MAX);
    assert IsDigit(Decimal(id)[0]);
  }

  datatype Attempt = ServerRestarted | Answered(target: Option<Id>, reply: Reply)

  /** The client's attempt: check the server id, then attach by decimal id with its device as the token. */
  ghost function Reconnect(w: World, c: Client, meta: Option<Meta>, acked: bool, now: nat): Attempt {
    if w.daemon.serverId != c.serverId then ServerRestarted
    else
      var target := Decimal(c.id);
      Answered(Resolve(Reap(w.daemon.sessions), target, w.daemon.lastAttached),
               Attach(w.daemon, target, c.device, c.device, true, false, meta, acked, now).reply)
  }

  /** The answer is about the client's own session, or refuses. */
  ghost predicate RightAnswer(w: World, c: Client, a: Attempt) {
    match a
    case ServerRestarted => true
    case Answered(target, reply) =>
      && (target.Some? ==> target.value in w.daemon.sessions && w.daemon.sessions[target.value].shell == c.shell)
      && (reply.AttachAck? ==> target == Some(reply.id) && reply.id == c.id)
      && (target.None? ==> reply == Refused(NoSuchSession))
  }

  /** The daemon was restarted, or fewer than 2^32 creations have followed the client's session, or its id is out of use. */
  ghost predicate IdIsSafe(w: World, c: Client) {
    w.daemon.serverId != c.serverId || CounterNotRound(w.daemon, c.shell) || c.id !in Reap(w.daemon.sessions)
  }

  /** After any run whatever, a reconnect is right exactly then; otherwise the id means another session. */
  lemma ReconnectIsRight(w: World, es: seq<Event>, c: Client, meta: Option<Meta>, acked: bool, now: nat)
    requires TableOk(w.daemon) && AttachedTo(w, c) && IsRun(w, es)
    ensures RightAnswer(After(w, es), c, Reconnect(After(w, es), c, meta, acked, now)) <==> IdIsSafe(After(w, es), c)
  {
    assert BornHere(w.daemon, c.id, c.shell);
    RunKeepsMeaning(w, es, c);
    var v := After(w, es);
    if v.daemon.serverId == c.serverId {
      ReapedOk(v.daemon);
      IdResolves(Reap(v.daemon.sessions), c.id, v.daemon.lastAttached);
    }
  }

  // ---------------------------------------------------------------------
  // When the counter comes round
  // ---------------------------------------------------------------------

  const QUIET: Device := 7

  /** A creation whose client vanishes before the hand-off. */
  const LOST := ENew([], QUIET, false, None, 0)

  /** A creation that succeeds. */
  const KEPT := ENew([], QUIET, true, Some(Meta(QUIET, true, 0, 0, 0)), 0)

  function Losses(n: nat): seq<Event> {
    if n == 0 then [] else [LOST] + Losses(n - 1)
  }

  /** One session, alive, after `created` creations. */
  ghost predicate OnlySession(w: World, created: nat, serverId: nat) {
    && w.daemon.serverId == serverId && w.daemon.created == created && w.daemon.nextShell == created
    && w.daemon.nextId == created % ID_COUNT && w.daemon.sessions.Keys == {0}
    && w.daemon.sessions[0] == Session(None, 0, QUIET, Some(Meta(QUIET, true, 0, 0, 0)), false, false)
  }

  lemma LossKeepsOnly(w: World, created: nat, serverId: nat)
    requires OnlySession(w, created, serverId) && 1 <= created < ID_COUNT
    ensures CanHappen(w, LOST) && OnlySession(Step(w, LOST), created + 1, serverId)
  {
    var d := w.daemon;
    CountersStep(d.created);
    CreationTouchesNextId(d, [], QUIET, false, None, 0);
    assert Reap(d.sessions) - {d.nextId} == d.sessions;
  }

  lemma {:induction false} LossesKeepOnly(w: World, created: nat, n: nat, serverId: nat)
    requires OnlySession(w, created, serverId) && 1 <= created && created + n <= ID_COUNT
    ensures IsRun(w, Losses(n)) && OnlySession(After(w, Losses(n)), created + n, serverId)
    decreases n
  {
    if n == 0 {
    } else {
      LossKeepsOnly(w, created, serverId);
      LossesKeepOnly(Step(w, LOST), created + 1, n - 1, serverId);
      assert Losses(n)[0] == LOST && Losses(n)[1..] == Losses(n - 1);
    }
  }

  /**
   * The bound is sharp and its failure reachable: a daemon's first session,
   * still alive after 2^32 creations, is replaced by the next one, and its
   * client's reconnect then lands in the other session.
   */
  lemma WrappedCreationOverwrites(serverId: nat, n: nat) returns (es: seq<Event>, c: Client)
    requires n == ID_COUNT - 1
    ensures |es| >= 1 && IsRun(Start(serverId), [KEPT] + es)
    ensures var w := Step(Start(serverId), KEPT);
            && AttachedTo(w, c) && IsRun(w, es)
            && var v := After(w, es);
               && !CounterNotRound(v.daemon, c.shell) && v.daemon.nextShell == c.shell + ID_COUNT + 1
               && !RightAnswer(v, c, Reconnect(v, c, None, true, 0))
  {
    var w := Step(Start(serverId), KEPT);
    CreationTouchesNextId(Start(serverId).daemon, [], QUIET, true, KEPT.meta, 0);
    assert w.daemon.sessions.Keys == {0};
    c := Client(serverId, 0, 0, QUIET);
    LossesKeepOnly(w, 1, n, serverId);
    var full := After(w, Losses(n));
    var v := Step(full, KEPT);
    es := Losses(n) + [KEPT];
    RunThen(w, Losses(n), KEPT);
    assert ([KEPT] + es)[1..] == es;
    ReplacedAnswer(full, serverId);
  }

  lemma {:induction false} RunThen(w: World, es: seq<Event>, e: Event)
    requires IsRun(w, es) && CanHappen(After(w, es), e)
    ensures IsRun(w, es + [e]) && After(w, es + [e]) == Step(After(w, es), e)
    decreases es
  {
    if es == [] {
      assert es + [e] == [e] && [e][1..] == [];
      assert IsRun(Step(w, e), []) && After(Step(w, e), []) == Step(w, e);
    } else {
      assert (es + [e])[1..] == es[1..] + [e];
      RunThen(Step(w, es[0]), es[1..], e);
    }
  }

  lemma ReplacedAnswer(full: World, serverId: nat)
    requires OnlySession(full, ID_COUNT, serverId)
    ensures var v := Step(full, KEPT);
            && v.daemon.nextShell == ID_COUNT + 1 && v.daemon.serverId == serverId
            && !RightAnswer(v, Client(serverId, 0, 0, QUIET),
                            Reconnect(v, Client(serverId, 0, 0, QUIET), None, true, 0))
  {
    var v := Step(full, KEPT);
    CreationTouchesNextId(full.daemon, [], QUIET, true, KEPT.meta, 0);
    assert v.daemon.sessions[0].shell == ID_COUNT && !v.daemon.sessions[0].finished;
    assert v.daemon.sessions.Keys == {0};
    IdResolves(Reap(v.daemon.sessions), 0, v.daemon.lastAttached);
  }

  // ---------------------------------------------------------------------
  // Ownership
  // ---------------------------------------------------------------------

  /** The session `shell`, wherever it still is under `id` on server `srv`, belongs to somebody else than `a`. */
  ghost predicate OwnedByOther(w: World, srv: nat, id: Id, shell: nat, a: Device) {
    && srv in w.servers
    && (w.daemon.serverId == srv ==>
          && shell < w.daemon.nextShell
          && (id in w.daemon.sessions && w.daemon.sessions[id].shell == shell ==>
                w.daemon.sessions[id].meta.Some? && w.daemon.sessions[id].meta.value.owner != a))
  }

  ghost function ShellAt(w: World, id: Id): nat {
    if id in w.daemon.sessions then w.daemon.sessions[id].shell else 0
  }

  /** The step is an explicit attach by `a` to the session that was acknowledged. */
  ghost predicate TakesOver(w: World, e: Event, id: Id, shell: nat, a: Device)
    requires CanHappen(w, e)
  {
    && e.EAttach? && e.token == 0 && e.device == a && Dispatch(w.daemon, e).reply == AttachAck(id)
    && id in w.daemon.sessions && w.daemon.sessions[id].shell == shell
  }

  ghost predicate NeverTakesOver(w: World, es: seq<Event>, id: Id, shell: nat, a: Device)
    requires IsRun(w, es)
    decreases es
  {
    es != [] ==> !TakesOver(w, es[0], id, shell, a) && NeverTakesOver(Step(w, es[0]), es[1..], id, shell, a)
  }

  /** An acknowledged attach makes its device the owner of a session with published metadata. */
  lemma AckMakesOwner(w: World, e: Event, id: Id)
    requires CanHappen(w, e) && e.EAttach? && Dispatch(w.daemon, e).reply == AttachAck(id)
    ensures var s := Step(w, e).daemon.sessions;
            id in s && s[id].meta.Some? && s[id].meta.value.owner == e.device && s[id].meta.value.attached
  {
  }

  lemma StepKeepsOther(w: World, e: Event, srv: nat, id: Id, shell: nat, a: Device)
    requires TableOk(w.daemon) && CanHappen(w, e)
    requires OwnedByOther(w, srv, id, shell, a) && !TakesOver(w, e, id, shell, a)
    ensures OwnedByOther(Step(w, e), srv, id, shell, a)
  {
    if !e.ERestart? {
      DispatchKeepsShells(w.daemon, e, id);
    }
  }

  lemma {:induction false} RunKeepsOther(w: World, es: seq<Event>, srv: nat, id: Id, shell: nat, a: Device)
    requires TableOk(w.daemon) && IsRun(w, es)
    requires OwnedByOther(w, srv, id, shell, a) && NeverTakesOver(w, es, id, shell, a)
    ensures TableOk(After(w, es).daemon) && OwnedByOther(After(w, es), srv, id, shell, a)
    decreases es
  {
    if es == [] {
    } else {
      StepKeepsTable(w, es[0]);
      StepKeepsOther(w, es[0], srv, id, shell, a);
      RunKeepsOther(Step(w, es[0]), es[1..], srv, id, shell, a);
    }
  }

  /** An attach changes neither the session an id means nor the counter. */
  lemma AckKeepsSession(w: World, e: Event, id: Id)
    requires CanHappen(w, e) && e.EAttach? && Dispatch(w.daemon, e).reply == AttachAck(id)
    ensures id in w.daemon.sessions && id in Step(w, e).daemon.sessions
    ensures Step(w, e).daemon.sessions[id].shell == w.daemon.sessions[id].shell
  {
  }

  /**
   * Once `b` has taken a session over, `a` cannot slip back in: until an
   * acknowledged explicit attach of its own to it, every auto-reconnect of
   * `a` to that session is answered `OwnerChanged`, or finds the session
   * gone.  Its id alone names that session until the counter comes round.
   */
  lemma DisplacedStaysOut(w: World, takeover: Event, id: Id, es: seq<Event>, back: Event)
    requires TableOk(w.daemon) && w.daemon.serverId in w.servers && CanHappen(w, takeover)
    requires takeover.EAttach? && Dispatch(w.daemon, takeover).reply == AttachAck(id)
    requires IsRun(Step(w, takeover), es)
    requires back.EAttach? && back.token != 0 && !back.noReplay && back.device != takeover.device
    requires NeverTakesOver(Step(w, takeover), es, id, ShellAt(w, id), back.device)
    ensures var v, shell := After(Step(w, takeover), es), ShellAt(w, id);
            v.daemon.serverId == w.daemon.serverId
            && Resolve(Reap(v.daemon.sessions), back.target, v.daemon.lastAttached) == Some(id)
            && CounterNotRound(v.daemon, shell) ==>
              var r := Dispatch(v.daemon, back);
              && r.reply == Refused(if v.daemon.sessions[id].closed then NoSuchSession else OwnerChanged)
              && (!v.daemon.sessions[id].closed ==> r.daemon.sessions == Reap(v.daemon.sessions))
  {
    var shell, w' := ShellAt(w, id), Step(w, takeover);
    var c := Client(w.daemon.serverId, id, shell, back.device);
    AckMakesOwner(w, takeover, id);
    AckKeepsSession(w, takeover, id);
    StepKeepsTable(w, takeover);
    assert BornHere(w'.daemon, id, shell);
    assert OwnedByOther(w', w.daemon.serverId, id, shell, back.device);
    RunKeepsOther(w', es, w.daemon.serverId, id, shell, back.device);
    RunKeepsMeaning(w', es, c);
  }

  /** An attach that is not acknowledged changes no published owner or attachment. */
  lemma UnackedChangesNothing(w: World, e: Event, id: Id)
    requires CanHappen(w, e) && e.EAttach? && !Dispatch(w.daemon, e).reply.AttachAck?
    requires id in Step(w, e).daemon.sessions
    ensures id in w.daemon.sessions
    ensures w.daemon.sessions[id].meta.Some? ==> Step(w, e).daemon.sessions[id] == w.daemon.sessions[id]
  {
  }

  /** An unforced attach never displaces an attached client. */
  lemma UnforcedNeverDisplaces(w: World, e: Event, id: Id)
    requires CanHappen(w, e) && e.EAttach? && !e.force
    requires id in w.daemon.sessions && w.daemon.sessions[id].meta.Some? && w.daemon.sessions[id].meta.value.attached
    ensures Dispatch(w.daemon, e).reply != AttachAck(id)
    ensures id in Step(w, e).daemon.sessions ==> Step(w, e).daemon.sessions[id] == w.daemon.sessions[id]
  {
  }

  /**
   * The one device the owner check cannot hold off: id zero, whose reconnect
   * reads as an explicit attach.  gritty's own client never has it; a peer
   * whose Hello carries zero or is too short to carry an id does.
   */
  lemma ReconnectChecksOwner(w: World, c: Client, meta: Option<Meta>, now: nat)
    requires TableOk(w.daemon) && w.daemon.serverId == c.serverId && c.id in Reap(w.daemon.sessions)
    requires var s := w.daemon.sessions[c.id]; !s.closed && s.meta.Some? && s.meta.value.owner != c.device
    ensures Reconnect(w, c, meta, true, now).reply
         == if c.device == 0 then AttachAck(c.id) else Refused(OwnerChanged)
  {
    ReapedOk(w.daemon);
    IdResolves(Reap(w.daemon.sessions), c.id, w.daemon.lastAttached);
  }

  /** The linger reaper spares every attached session and every pinned one, and takes the rest on time. */
  lemma LingerSpares(w: World, now: nat, id: Id)
    requires id in w.daemon.sessions && !w.daemon.sessions[id].finished
    ensures id !in Step(w, EReap(now)).daemon.sessions <==>
              var m := w.daemon.sessions[id].meta;
              && m.Some? && m.value.linger > 0 && !m.value.attached
              && now >= Max(m.value.lastHeartbeat, m.value.createdAt) + m.value.linger
  {
  }
}

module Daemons {
  import opened Wrappers
  import opened Bytes
  import opened SessionTable
  import opened SessionRuns

  class ControlDaemon {
    const serverId: nat
    var sessions: Sessions
    var nextId: Id
    var lastAttached: Option<Id>
    ghost var created: nat
    var nextShell: nat

    ghost function Model(): Daemon
      reads this
    {
      Daemon(serverId, sessions, nextId, lastAttached, created, nextShell)
    }

    ghost predicate Valid()
      reads this
    {
      TableOk(Model())
    }

    constructor (serverId: nat, nextShell: nat)
      ensures Valid() && Model() == SessionRuns.Fresh(serverId, nextShell)
    {
      this.serverId := serverId;
      sessions, nextId, lastAttached, created := map[], 0, None, 0;
      this.nextShell := nextShell;
    }

    /** Finds the finished entries, then removes each. */
    method ReapSessions()
      requires Valid()
      modifies this`sessions
      ensures Valid() && Model() == old(Model()).(sessions := Reap(old(sessions)))
    {
      ReapedOk(Model());
      var finished := set id | id in sessions && sessions[id].finished;
      RemoveAll(finished);
      assert sessions == Reap(old(sessions));
    }

    method ReapLinger(now: nat)
      modifies this`sessions
      ensures sessions == ReapLingering(old(sessions), now)
    {
      var expired := set id | id in sessions && LingerExpired(sessions[id], now);
      RemoveAll(expired);
    }

    method RemoveAll(ids: set<Id>)
      modifies this`sessions
      ensures sessions == old(sessions) - ids
    {
      var left := ids;
      while left != {}
        invariant left <= ids && sessions == old(sessions) - (ids - left)
      {
        var id :| id in left;
        AbortSession(id);
        left := left - {id};
      }
    }

    method AbortSession(id: Id)
      modifies this`sessions
      ensures sessions == old(sessions) - {id}
    {
      sessions := sessions - {id};
    }

    /** Walks the map in whatever order it comes; the answer is the same in every one. */
    method ResolveSession(target: bytes) returns (r: Option<Id>)
      requires Valid()
      ensures r == Resolve(sessions, target, lastAttached)
    {
      r := None;
      if target == DASH {
        if lastAttached.Some? && lastAttached.value in sessions {
          r := lastAttached;
        }
        return;
      }
      var left := sessions.Keys;
      while left != {}
        invariant left <= sessions.Keys
        invariant forall id :: Named(sessions, id, target) ==> id in left
      {
        var id :| id in left;
        if sessions[id].name == Some(target) {
          assert Named(sessions, id, target);
          ResolutionIsOrderFree(sessions, target, lastAttached, Some(id), Resolve(sessions, target, lastAttached));
          return Some(id);
        }
        left := left - {id};
      }
      var id := ParseUint(target, U32_MAX);
      if id.Some? && id.value in sessions {
        r := id;
      }
    }

    method ValidateSessionName(name: bytes) returns (error: Option<ErrorCode>)
      ensures error == ValidateName(name, sessions)
    {
      if HasControl(name) {
        return Some(InvalidName);
      }
      if ParseUint(name, U32_MAX).Some? {
        return Some(InvalidName);
      }
      if name == DASH {
        return Some(InvalidName);
      }
      var left := sessions.Keys;
      while left != {}
        invariant left <= sessions.Keys
        invariant forall id :: Named(sessions, id, name) ==> id in left
      {
        var id :| id in left;
        if sessions[id].name == Some(name) {
          assert Named(sessions, id, name);
          return Some(NameAlreadyExists);
        }
        left := left - {id};
      }
      return None;
    }

    method ResolveLiveSession(target: bytes) returns (live: Option<Id>)
      requires Valid()
      modifies this`sessions
      ensures Valid() && (Model(), live) == ResolveLive(old(Model()), target)
    {
      LiveKeepsTable(Model(), target);
      ReapSessions();
      live := ResolveSession(target);
      if live.Some? && sessions[live.value].closed {
        sessions := sessions - {live.value};
        live := None;
      }
    }

    method OnNewSession(name: bytes, device: Device, acked: bool, meta: Option<Meta>, now: nat) returns (reply: Reply)
      requires Valid()
      modifies this
      ensures Valid() && Dispatched(Model(), reply) == NewSession(old(Model()), name, device, acked, meta, now)
    {
      NewKeepsTable(Model(), ENew(name, device, acked, meta, now));
      ReapSessions();
      var named := if name == [] then None else Some(name);
      if named.Some? {
        var error := ValidateSessionName(name);
        if error.Some? {
          return Refused(error.value);
        }
      }
      var id := AddSession(named, device);
      reply := HandOffCreated(id, device, acked, meta, now);
    }

    method AddSession(name: Option<bytes>, device: Device) returns (id: Id)
      modifies this
      ensures id == old(nextId) && Model() == Register(old(Model()), name, device)
    {
      id := nextId;
      nextId := (nextId + 1) % ID_COUNT;
      created := created + 1;
      sessions := sessions[id := Session(name, nextShell, device, None, false, false)];
      nextShell := nextShell + 1;
    }

    method HandOffCreated(id: Id, device: Device, acked: bool, meta: Option<Meta>, now: nat) returns (reply: Reply)
      requires id in sessions
      modifies this`sessions, this`lastAttached
      ensures Dispatched(Model(), reply) == HandOffNew(old(Model()), id, device, acked, meta, now)
    {
      if !acked {
        AbortSession(id);
        return Unsent;
      }
      sessions := sessions[id := sessions[id].(meta := Published(meta, device, now))];
      lastAttached := Some(id);
      return Created(id);
    }

    method OnAttach(target: bytes, device: Device, token: nat, force: bool, noReplay: bool,
                    meta: Option<Meta>, acked: bool, now: nat) returns (reply: Reply)
      requires Valid()
      modifies this
      ensures Valid()
      ensures Dispatched(Model(), reply)
           == Attach(old(Model()), target, device, token, force, noReplay, meta, acked, now)
    {
      AttachKeepsTable(Model(), EAttach(target, device, token, force, noReplay, meta, acked, now));
      ReapSessions();
      var resolved := ResolveSession(target);
      if resolved.None? {
        return Refused(NoSuchSession);
      }
      var id := resolved.value;
      var s := sessions[id];
      if s.closed {
        sessions := sessions - {id};
        return Refused(NoSuchSession);
      }
      if noReplay {
        return Done;
      }
      var currentOwner := if s.meta.Some? then s.meta.value.owner else 0;
      if token != 0 && device != currentOwner {
        return Refused(OwnerChanged);
      }
      var isAttached := s.meta.Some? && s.meta.value.attached;
      if isAttached && !force {
        return Refused(AlreadyAttached);
      }
      reply := HandOff(id, device, meta, acked, now);
    }

    method HandOff(id: Id, device: Device, meta: Option<Meta>, acked: bool, now: nat) returns (reply: Reply)
      requires id in sessions
      modifies this`sessions, this`lastAttached
      ensures Dispatched(Model(), reply) == AttachReady(old(Model()), id, device, meta, acked, now)
    {
      var s := sessions[id];
      if s.meta.None? {
        if meta.None? {
          return Refused(NoSuchSession);
        }
        s := s.(meta := Some(meta.value.(owner := s.creator)));
        sessions := sessions[id := s];
      }
      if !acked {
        assert sessions[id := s] == sessions;
        return Unsent;
      }
      sessions := sessions[id := s.(meta := Some(s.meta.value.(owner := device, attached := true, lastHeartbeat := now)))];
      lastAttached := Some(id);
      return AttachAck(id);
    }

    method OnKill(target: bytes) returns (reply: Reply)
      requires Valid()
      modifies this`sessions
      ensures Valid() && Dispatched(Model(), reply) == Kill(old(Model()), target)
    {
      KillKeepsTable(Model(), target);
      var live := ResolveLiveSession(target);
      if live.None? {
        return Refused(NoSuchSession);
      }
      AbortSession(live.value);
      return Done;
    }

    method OnRename(target: bytes, name: bytes) returns (reply: Reply)
      requires Valid()
      modifies this`sessions
      ensures Valid() && Dispatched(Model(), reply) == Rename(old(Model()), target, name)
    {
      RenameKeepsTable(Model(), target, name);
      var live := ResolveLiveSession(target);
      if live.None? {
        return Refused(NoSuchSession);
      }
      if name == [] {
        return Refused(EmptyName);
      }
      var error := ValidateSessionName(name);
      if error.Some? {
        return Refused(error.value);
      }
      sessions := sessions[live.value := sessions[live.value].(name := Some(name))];
      return Done;
    }

    method OnSetLinger(target: bytes, linger: nat) returns (reply: Reply)
      requires Valid()
      modifies this`sessions
      ensures Valid() && Dispatched(Model(), reply) == SetLinger(old(Model()), target, linger)
    {
      SetLingerKeepsTable(Model(), target, linger);
      var live := ResolveLiveSession(target);
      if live.None? {
        return Refused(NoSuchSession);
      }
      var s := sessions[live.value];
      if s.meta.None? {
        return Refused(NoSuchSession);
      }
      sessions := sessions[live.value := s.(meta := Some(s.meta.value.(linger := linger)))];
      return Done;
    }
  }
}
