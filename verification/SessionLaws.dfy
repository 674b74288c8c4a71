// Which reply every control request gets and what it leaves behind, in terms
// of the table's own fields: over every table the daemon can reach.

module SessionLaws {
  import opened Wrappers
  import opened Bytes
  import opened SessionTable
  import opened SessionRuns

  // ---------------------------------------------------------------------
  // What a target means
  // ---------------------------------------------------------------------

  /** An entry a request still finds: one whose task is not finished. */
  predicate Present(d: Daemon, id: Id) {
    id in d.sessions && !d.sessions[id].finished
  }

  ghost predicate Carries(d: Daemon, id: Id, name: bytes) {
    Present(d, id) && d.sessions[id].name == Some(name)
  }

  /** The target means that entry: `-` the last attached one, a name its bearer, and otherwise a number its id. */
  ghost predicate Means(d: Daemon, target: bytes, id: Id) {
    && Present(d, id)
    && (if target == [0x2d] then d.lastAttached == Some(id)
        else
          || d.sessions[id].name == Some(target)
          || (ParseUint(target, 0xffff_ffff) == Some(id) && forall other: Id :: !Carries(d, other, target)))
  }

  /** The target means an entry whose task can still be reached. */
  ghost predicate Reaches(d: Daemon, target: bytes, id: Id) {
    Means(d, target, id) && !d.sessions[id].closed
  }

  lemma ReapedIs(d: Daemon, id: Id)
    ensures id in Reap(d.sessions) <==> Present(d, id)
    ensures id in Reap(d.sessions) ==> Reap(d.sessions)[id] == d.sessions[id]
  {
  }

  lemma CarriesIsNamed(d: Daemon, name: bytes)
    ensures forall id: Id :: Carries(d, id, name) <==> Named(Reap(d.sessions), id, name)
  {
  }

  /** A target means the entry it resolves to, and no other. */
  lemma MeansExactly(d: Daemon, target: bytes, id: Id)
    requires TableOk(d)
    ensures Means(d, target, id) <==> Resolve(Reap(d.sessions), target, d.lastAttached) == Some(id)
  {
    var s := Reap(d.sessions);
    ReapedIs(d, id);
    CarriesIsNamed(d, target);
    if Named(s, id, target) {
      assert Named(d.sessions, id, target);
      if NameTaken(s, target) {
        OneBearer(d, target, id);
      }
    }
  }

  lemma OneBearer(d: Daemon, name: bytes, id: Id)
    requires TableOk(d) && Named(Reap(d.sessions), id, name)
    ensures name != DASH && Resolve(Reap(d.sessions), name, d.lastAttached) == Some(id)
  {
    ReapedOk(d);
    assert ProperName(name);
    NameResolves(Reap(d.sessions), id, name, d.lastAttached);
  }

  // ---------------------------------------------------------------------
  // What stays
  // ---------------------------------------------------------------------

  function At(s: Sessions, id: Id): Option<Session> {
    if id in s then Some(s[id]) else None
  }

  /** Every other entry is as it was, finished ones gone. */
  ghost predicate OthersKept(d: Daemon, d': Daemon, id: Id) {
    forall j: Id :: j != id ==> At(d'.sessions, j) == if Present(d, j) then Some(d.sessions[j]) else None
  }

  /** The whole table is as it was, finished entries gone. */
  ghost predicate OnlyReaped(d: Daemon, d': Daemon) {
    && d' == d.(sessions := d'.sessions)
    && forall j: Id :: At(d'.sessions, j) == if Present(d, j) then Some(d.sessions[j]) else None
  }

  /** One entry is now `now`, or gone; finished entries are gone; the rest is as it was. */
  ghost predicate OnlyChanged(d: Daemon, d': Daemon, id: Id, now: Option<Session>) {
    && d' == d.(sessions := d'.sessions, lastAttached := d'.lastAttached)
    && OthersKept(d, d', id) && At(d'.sessions, id) == now
  }

  /** What a request does that finds nothing to act on: at most an entry whose task is dead goes. */
  ghost predicate FoundNothing(d: Daemon, d': Daemon, target: bytes) {
    && d' == d.(sessions := d'.sessions)
    && forall j: Id :: At(d'.sessions, j) ==
                     if Present(d, j) && !Means(d, target, j) then Some(d.sessions[j]) else None
  }

  // ---------------------------------------------------------------------
  // Attach
  // ---------------------------------------------------------------------

  /** The device an entry belongs to; none is published yet in a new one. */
  function OwnerOf(s: Session): Device {
    if s.meta.Some? then s.meta.value.owner else 0
  }

  predicate IsAttached(s: Session) {
    s.meta.Some? && s.meta.value.attached
  }

  /** The client reconnects by itself, and another device has taken the session over. */
  predicate TakenOver(s: Session, e: Event)
    requires e.EAttach?
  {
    e.token != 0 && e.device != OwnerOf(s)
  }

  /** Somebody is there, and the client does not insist. */
  predicate InUse(s: Session, e: Event)
    requires e.EAttach?
  {
    IsAttached(s) && !e.force
  }

  predicate MetaComes(s: Session, e: Event)
    requires e.EAttach?
  {
    s.meta.Some? || e.meta.Some?
  }

  /** The one reply each attach to a reachable entry gets. */
  function AttachAnswer(id: Id, s: Session, e: Event): Reply
    requires e.EAttach?
  {
    if e.noReplay then Done
    else if TakenOver(s, e) then Refused(OwnerChanged)
    else if InUse(s, e) then Refused(AlreadyAttached)
    else if !MetaComes(s, e) then Refused(NoSuchSession)
    else if !e.acked then Unsent
    else AttachAck(id)
  }

  lemma AttachDecides(d: Daemon, e: Event, id: Id)
    requires TableOk(d) && e.EAttach? && Reaches(d, e.target, id)
    ensures Dispatch(d, e).reply == AttachAnswer(id, d.sessions[id], e)
  {
    MeansExactly(d, e.target, id);
    ReapedIs(d, id);
  }

  lemma AttachFindsNothing(d: Daemon, e: Event)
    requires TableOk(d) && e.EAttach? && forall id: Id :: !Reaches(d, e.target, id)
    ensures Dispatch(d, e).reply == Refused(NoSuchSession) && FoundNothing(d, Dispatch(d, e).daemon, e.target)
  {
    NothingLive(d, e.target);
    var resolved := Resolve(Reap(d.sessions), e.target, d.lastAttached);
    if resolved.Some? {
      MeansExactly(d, e.target, resolved.value);
      ReapedIs(d, resolved.value);
    }
  }

  /** Nothing but the entry it resolves to is meant by a target. */
  lemma ResolvedAlone(d: Daemon, target: bytes)
    requires TableOk(d)
    ensures forall j: Id :: Means(d, target, j) <==> Resolve(Reap(d.sessions), target, d.lastAttached) == Some(j)
  {
    forall j: Id
      ensures Means(d, target, j) <==> Resolve(Reap(d.sessions), target, d.lastAttached) == Some(j)
    {
      MeansExactly(d, target, j);
    }
  }

  /** `AttachAck(id)` comes exactly to an attach that reaches `id` and that nothing stands in the way of. */
  lemma AttachAckExactly(d: Daemon, e: Event, id: Id)
    requires TableOk(d) && e.EAttach?
    ensures Dispatch(d, e).reply == AttachAck(id) <==> Acknowledged(d, e, id)
  {
    if live :| Reaches(d, e.target, live) {
      AttachDecides(d, e, live);
      ResolvedAlone(d, e.target);
    } else {
      AttachFindsNothing(d, e);
    }
  }

  ghost predicate Acknowledged(d: Daemon, e: Event, id: Id)
    requires e.EAttach?
  {
    && Reaches(d, e.target, id) && !e.noReplay
    && (e.token == 0 || e.device == OwnerOf(d.sessions[id]))
    && (!IsAttached(d.sessions[id]) || e.force)
    && (d.sessions[id].meta.Some? || e.meta.Some?)
    && e.acked
  }

  /** Each other reply has its own condition. */
  lemma AttachRefusalsExactly(d: Daemon, e: Event, id: Id)
    requires TableOk(d) && e.EAttach? && Reaches(d, e.target, id)
    ensures var s, reply := d.sessions[id], Dispatch(d, e).reply;
            && (reply == Done <==> e.noReplay)
            && (reply == Refused(OwnerChanged) <==> !e.noReplay && e.token != 0 && e.device != OwnerOf(s))
            && (reply == Refused(AlreadyAttached) <==>
                  !e.noReplay && (e.token == 0 || e.device == OwnerOf(s)) && IsAttached(s) && !e.force)
            && (reply == Refused(NoSuchSession) <==>
                  !e.noReplay && (e.token == 0 || e.device == OwnerOf(s)) && s.meta.None? && e.meta.None?)
            && (reply == Unsent <==>
                  && !e.noReplay && (e.token == 0 || e.device == OwnerOf(s)) && (!IsAttached(s) || e.force)
                  && (s.meta.Some? || e.meta.Some?) && !e.acked)
  {
    AttachDecides(d, e, id);
  }

  /** What the task published, or publishes within the wait: a new session belongs to its creator. */
  function MetaThen(s: Session, e: Event): Option<Meta>
    requires e.EAttach?
  {
    if s.meta.Some? then s.meta
    else if e.meta.Some? then Some(e.meta.value.(owner := s.creator))
    else None
  }

  /** What each reply to an attach leaves: an acknowledged client owns the session and is present; nothing else shows. */
  lemma AttachLeaves(d: Daemon, e: Event, id: Id)
    requires TableOk(d) && e.EAttach? && Reaches(d, e.target, id)
    ensures var s, r := d.sessions[id], Dispatch(d, e);
            match r.reply
            case AttachAck(_) =>
              var m := MetaThen(s, e);
              && m.Some? && r.daemon.lastAttached == Some(id)
              && OnlyChanged(d, r.daemon, id,
                   Some(s.(meta := Some(Meta(e.device, true, e.now, m.value.createdAt, m.value.linger)))))
            case Unsent =>
              r.daemon.lastAttached == d.lastAttached
              && OnlyChanged(d, r.daemon, id, Some(s.(meta := MetaThen(s, e))))
            case _ => OnlyReaped(d, r.daemon)
  {
    MeansExactly(d, e.target, id);
    ReapedIs(d, id);
  }

  // ---------------------------------------------------------------------
  // Creation
  // ---------------------------------------------------------------------

  /** A name no session may have: a control byte in it, a number, or the last-attached mark. */
  ghost predicate Forbidden(name: bytes) {
    || (exists i :: 0 <= i < |name| && (name[i] <= 0x1f || name[i] == 0x7f))
    || ParseUint(name, 0xffff_ffff).Some?
    || name == [0x2d]
  }

  ghost predicate InTheTable(d: Daemon, name: bytes) {
    exists id: Id :: Carries(d, id, name)
  }

  lemma NamesAreChecked(d: Daemon, name: bytes)
    ensures ValidateName(name, Reap(d.sessions)) ==
              if Forbidden(name) then Some(InvalidName)
              else if InTheTable(d, name) then Some(NameAlreadyExists)
              else None
  {
    CarriesIsNamed(d, name);
    if id :| Carries(d, id, name) {
      assert Named(Reap(d.sessions), id, name);
    }
    if NameTaken(Reap(d.sessions), name) {
      var id :| Named(Reap(d.sessions), id, name);
      assert Carries(d, id, name);
    }
    assert Forbidden(name) <==> HasControl(name) || ParseUint(name, U32_MAX).Some? || name == DASH by {
      if i :| 0 <= i < |name| && (name[i] <= 0x1f || name[i] == 0x7f) {
        assert HasControl(name);
      }
    }
  }

  /** Which reply a creation gets; an empty name means none and is never refused. */
  lemma NewRepliesExactly(d: Daemon, e: Event)
    requires e.ENew?
    ensures Dispatch(d, e).reply ==
              if e.name != [] && Forbidden(e.name) then Refused(InvalidName)
              else if e.name != [] && InTheTable(d, e.name) then Refused(NameAlreadyExists)
              else if !e.acked then Unsent
              else Created(d.nextId)
  {
    NamesAreChecked(d, e.name);
  }

  /** What a creation leaves: the counters move whenever it is accepted, and the entry stays when the creator has it. */
  lemma NewLeaves(d: Daemon, e: Event)
    requires e.ENew?
    ensures var r := Dispatch(d, e);
            match r.reply
            case Refused(_) => OnlyReaped(d, r.daemon)
            case Created(id) => id == d.nextId && r.daemon.lastAttached == Some(id)
                                && Grown(d, r.daemon, Some(NewEntry(d, e)))
            case _ => r.daemon.lastAttached == d.lastAttached && Grown(d, r.daemon, None)
  {
  }

  /** One creation was counted, and its entry is `entry`, or was taken back. */
  ghost predicate Grown(d: Daemon, d': Daemon, entry: Option<Session>) {
    && d'.serverId == d.serverId && d'.created == d.created + 1 && d'.nextShell == d.nextShell + 1
    && d'.nextId == (d.nextId + 1) % 0x1_0000_0000
    && OthersKept(d, d', d.nextId) && At(d'.sessions, d.nextId) == entry
  }

  /** The entry of a creation: the creator owns it and is present as soon as its task has published anything. */
  function NewEntry(d: Daemon, e: Event): Session
    requires e.ENew?
  {
    Session(if e.name == [] then None else Some(e.name), d.nextShell, e.device,
            if e.meta.None? then None
            else Some(Meta(e.device, true, e.now, e.meta.value.createdAt, e.meta.value.linger)),
            false, false)
  }

  // ---------------------------------------------------------------------
  // Kill, rename and linger
  // ---------------------------------------------------------------------

  lemma LiveIs(d: Daemon, target: bytes, id: Id)
    requires TableOk(d) && Reaches(d, target, id)
    ensures ResolveLive(d, target) == (d.(sessions := Reap(d.sessions)), Some(id))
  {
    MeansExactly(d, target, id);
    ReapedIs(d, id);
  }

  lemma NothingLive(d: Daemon, target: bytes)
    requires TableOk(d) && forall id: Id :: !Reaches(d, target, id)
    ensures ResolveLive(d, target).1 == None && FoundNothing(d, ResolveLive(d, target).0, target)
  {
    var resolved := Resolve(Reap(d.sessions), target, d.lastAttached);
    if resolved.Some? {
      MeansExactly(d, target, resolved.value);
      ReapedIs(d, resolved.value);
      assert !Reaches(d, target, resolved.value);
    }
    var d' := ResolveLive(d, target).0;
    forall j: Id
      ensures At(d'.sessions, j) == if Present(d, j) && !Means(d, target, j) then Some(d.sessions[j]) else None
    {
      MeansExactly(d, target, j);
      ReapedIs(d, j);
    }
  }

  /** Kill, rename and linger answer `NoSuchSession` to a target that reaches nothing. */
  lemma TargetMissing(d: Daemon, e: Event)
    requires TableOk(d) && (e.EKill? || e.ERename? || e.ESetLinger?)
    requires forall id: Id :: !Reaches(d, e.target, id)
    ensures var r := Dispatch(d, e); r.reply == Refused(NoSuchSession) && FoundNothing(d, r.daemon, e.target)
  {
    NothingLive(d, e.target);
  }

  /** A kill is answered once the entry it reaches is gone, and no other. */
  lemma KillExactly(d: Daemon, target: bytes, id: Id)
    requires TableOk(d) && Reaches(d, target, id)
    ensures var r := Dispatch(d, EKill(target));
            r.reply == Done && r.daemon.lastAttached == d.lastAttached && OnlyChanged(d, r.daemon, id, None)
  {
    LiveIs(d, target, id);
  }

  /** A rename: to a name that is not empty, allowed and free, and nothing changes otherwise. */
  lemma RenameExactly(d: Daemon, target: bytes, name: bytes, id: Id)
    requires TableOk(d) && Reaches(d, target, id)
    ensures var r := Dispatch(d, ERename(target, name));
            && r.reply == (if name == [] then Refused(EmptyName)
                           else if Forbidden(name) then Refused(InvalidName)
                           else if InTheTable(d, name) then Refused(NameAlreadyExists)
                           else Done)
            && (r.reply != Done ==> OnlyReaped(d, r.daemon))
            && (r.reply == Done ==>
                  && r.daemon.lastAttached == d.lastAttached
                  && OnlyChanged(d, r.daemon, id, Some(d.sessions[id].(name := Some(name)))))
  {
    LiveIs(d, target, id);
    NamesAreChecked(d, name);
  }

  /** A linger is set on what the task has published, and on nothing before that. */
  lemma SetLingerExactly(d: Daemon, target: bytes, linger: nat, id: Id)
    requires TableOk(d) && Reaches(d, target, id)
    ensures var r, s := Dispatch(d, ESetLinger(target, linger)), d.sessions[id];
            if s.meta.None? then r.reply == Refused(NoSuchSession) && OnlyReaped(d, r.daemon)
            else
              && r.reply == Done && r.daemon.lastAttached == d.lastAttached
              && OnlyChanged(d, r.daemon, id, Some(s.(meta := Some(s.meta.value.(linger := linger)))))
  {
    LiveIs(d, target, id);
  }

  /** The reaper's tick and the tasks: what goes and what is published. */
  lemma ReapLeaves(d: Daemon, now: nat, id: Id)
    ensures var r := Dispatch(d, EReap(now));
            && r.daemon == d.(sessions := r.daemon.sessions)
            && At(r.daemon.sessions, id) ==
                 if Present(d, id) && !RanOut(d.sessions[id], now) then Some(d.sessions[id]) else None
  {
  }

  /** Nobody has been there for as long as the session lingers. */
  predicate RanOut(s: Session, now: nat) {
    && s.meta.Some? && s.meta.value.linger > 0 && !s.meta.value.attached
    && now >= s.meta.value.lastHeartbeat + s.meta.value.linger
    && now >= s.meta.value.createdAt + s.meta.value.linger
  }
}
