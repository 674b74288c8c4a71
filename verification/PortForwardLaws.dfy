// What every event does to every part of the port-forward table, key by key,
// and how long a connection opened by the server lasts.

module ForwardLaws {
  import opened Wrappers
  import opened ForwardModel

  function At<K, V>(m: map<K, V>, k: K): Option<V> {
    if k in m then Some(m[k]) else None
  }

  /** The forward an event opens `c` for: the server's connection came up, or the client's listener accepted one. */
  function OpenedFor(t: Table, e: Event, c: Id): Option<Id> {
    match e
    case ServerOpen(f, d, connected) => if d == c && connected && f in t.initiated then Some(f) else None
    case Accepted(f, d) => if d == c && f in t.forwards then Some(f) else None
    case _ => None
  }

  /** The forward of a channel after an event: the one it was opened for, none once closed, else the one it had. */
  predicate ChannelAfter(t: Table, e: Event, c: Id, now: Option<Id>) {
    now == if OpenedFor(t, e, c).Some? then OpenedFor(t, e, c)
           else if c in t.channels && Closes(e, c, t.channels[c]) then None
           else At(t.channels, c)
  }

  /** Which channels there are after an event, and whose. */
  lemma ChannelsExactly(t: Table, e: Event, c: Id)
    requires CanHappen(t, e)
    ensures ChannelAfter(t, e, c, At(Step(t, e).channels, c))
  {
    if e.ServerOpen? || e.Accepted? {
      OpeningChannels(t, e, c);
    } else if e.ServerStop? || e.ForwardStopped? {
      StoppingChannels(t, e, c);
    } else if e.Request? {
      RequestKeepsChannelMap(t, e);
    } else {
      ClosingChannels(t, e, c);
    }
  }

  lemma OpeningChannels(t: Table, e: Event, c: Id)
    requires CanHappen(t, e) && (e.ServerOpen? || e.Accepted?)
    ensures ChannelAfter(t, e, c, At(Step(t, e).channels, c))
  {
  }

  lemma StoppingChannels(t: Table, e: Event, c: Id)
    requires CanHappen(t, e) && (e.ServerStop? || e.ForwardStopped?)
    ensures ChannelAfter(t, e, c, At(Step(t, e).channels, c))
  {
  }

  lemma ClosingChannels(t: Table, e: Event, c: Id)
    requires e.ServerListen? || e.ServerData? || e.ServerClose? || e.ServerReady? || e.LocalAccept? || e.LocalClosed?
    ensures ChannelAfter(t, e, c, At(Step(t, e).channels, c))
  {
  }

  lemma RequestKeepsChannelMap(t: Table, e: Event)
    requires e.Request?
    ensures Step(t, e).channels == t.channels
  {
  }

  /**
   * A connection the server opens: it becomes a channel of its forward when
   * the client asked for that forward and the connection came up; in every
   * other case, and for every other part of the table, nothing changes.
   */
  lemma ServerOpenExactly(t: Table, f: Id, c: Id, connected: bool)
    ensures var t' := Step(t, ServerOpen(f, c, connected));
            && t' == t.(channels := t'.channels)
            && t'.channels == if f in t.initiated && connected then t.channels + map[c := f] else t.channels
  {
    var t' := Step(t, ServerOpen(f, c, connected));
    if f in t.initiated && connected {
      assert t'.channels == t.channels + map[c := f];
    }
  }

  // ---------------------------------------------------------------------
  // The life of any channel
  // ---------------------------------------------------------------------

  /** The event takes the id away from `f`: it closes the channel, stops the forward, or opens the id anew. */
  predicate Ousts(t: Table, e: Event, c: Id, f: Id) {
    if OpenedFor(t, e, c).Some? then OpenedFor(t, e, c) != Some(f) else Closes(e, c, f)
  }

  ghost predicate NeverOusted(t: Table, es: seq<Event>, c: Id, f: Id)
    requires IsRun(t, es)
    decreases es
  {
    es != [] ==> !Ousts(t, es[0], c, f) && NeverOusted(Step(t, es[0]), es[1..], c, f)
  }

  lemma OustedStep(t: Table, e: Event, c: Id, f: Id)
    requires CanHappen(t, e) && At(t.channels, c) == Some(f)
    ensures At(Step(t, e).channels, c) == Some(f) <==> !Ousts(t, e, c, f)
  {
    ChannelsExactly(t, e, c);
  }

  /** A channel, the server's or the client's, keeps its forward through every run that does not take it away. */
  lemma {:induction false} ChannelStays(t: Table, es: seq<Event>, c: Id, f: Id)
    requires IsRun(t, es) && At(t.channels, c) == Some(f) && NeverOusted(t, es, c, f)
    ensures At(After(t, es).channels, c) == Some(f)
    decreases es
  {
    if es == [] {
    } else {
      OustedStep(t, es[0], c, f);
      ChannelStays(Step(t, es[0]), es[1..], c, f);
    }
  }

  // ---------------------------------------------------------------------
  // Forwards, registrations and what waits
  // ---------------------------------------------------------------------

  /** The forwards after an event. */
  ghost predicate ForwardAfter(t: Table, e: Event, f: Id, was: Option<Forward>, now: Option<Forward>) {
    if e == ServerStop(f) || e == ForwardStopped(f) then now == None
    else if e == ServerReady(f) && f in t.pending then
      // the server confirmed the bind: the forward is watched, and made if it is new
      now == match was
             case Some(w) => Some(Forward(w.targetPort, w.listening, true))
             case None => Some(Forward(if f in t.initiated then t.initiated[f] else 0, false, true))
    else if e.Request? && f == t.nextId && e.direction == 1 && e.bound then
      // a bound remote forward listens, and is watched once the server knows of it
      now == Some(Forward(e.targetPort, true, e.sent))
    else if e.Request? && f == t.nextId && e.direction > 1 && e.sent then
      now == match was
             case Some(w) => Some(Forward(w.targetPort, w.listening, true))
             case None => Some(Forward(e.targetPort, false, true))
    else now == was
  }

  lemma ForwardsExactly(t: Table, e: Event, f: Id)
    requires CanHappen(t, e)
    ensures ForwardAfter(t, e, f, At(t.forwards, f), At(Step(t, e).forwards, f))
  {
    if e.Request? {
      RequestForwards(t, e, f);
    }
  }

  lemma RequestForwards(t: Table, e: Event, f: Id)
    requires e.Request?
    ensures ForwardAfter(t, e, f, At(t.forwards, f), At(Step(t, e).forwards, f))
  {
  }

  /** The local forwards asked for after an event, with the port the user meant. */
  lemma InitiatedExactly(t: Table, e: Event, f: Id)
    requires CanHappen(t, e)
    ensures At(Step(t, e).initiated, f) ==
              if e == ServerStop(f) || e == ForwardStopped(f) then None
              else if e.Request? && e.direction == 0 && f == t.nextId then Some(e.targetPort)
              else At(t.initiated, f)
  {
    match e {
      case Request(_, _, _, _) => RequestInitiated(t, e, f);
      case ServerReady(_) =>
      case _ =>
    }
  }

  lemma RequestInitiated(t: Table, e: Event, f: Id)
    requires e.Request?
    ensures At(Step(t, e).initiated, f) ==
              if e.direction == 0 && f == t.nextId then Some(e.targetPort) else At(t.initiated, f)
  {
  }

  /** The local forwards the server still owes an answer. */
  lemma PendingExactly(t: Table, e: Event, f: Id)
    requires CanHappen(t, e)
    ensures f in Step(t, e).pending <==>
              || (e.Request? && e.direction == 0 && e.sent && f == t.nextId)
              || (f in t.pending && e != ServerReady(f) && e != ServerStop(f))
  {
    match e {
      case Request(_, _, _, _) => RequestPending(t, e, f);
      case ServerReady(_) =>
      case _ =>
    }
  }

  lemma RequestPending(t: Table, e: Event, f: Id)
    requires e.Request?
    ensures f in Step(t, e).pending <==>
              (e.direction == 0 && e.sent && f == t.nextId) || f in t.pending
  {
  }

  /** Watches on a forward's process: one more when it comes up, one less when that process is seen to end. */
  lemma WatchedExactly(t: Table, e: Event, f: Id)
    requires CanHappen(t, e)
    ensures Step(t, e).watched[f] ==
              if e == ForwardStopped(f) then t.watched[f] - 1
              else if WatchStarts(t, e, f) then t.watched[f] + 1
              else t.watched[f]
  {
    match e {
      case Request(_, _, _, _) => RequestWatched(t, e, f);
      case ServerReady(_) =>
      case _ =>
    }
  }

  /** The server confirmed a local forward, or a remote forward was sent to it. */
  predicate WatchStarts(t: Table, e: Event, f: Id) {
    || (e == ServerReady(f) && f in t.pending)
    || (e.Request? && f == t.nextId && e.sent && (e.direction > 1 || (e.direction == 1 && e.bound)))
  }

  lemma RequestWatched(t: Table, e: Event, f: Id)
    requires e.Request?
    ensures Step(t, e).watched[f] == t.watched[f] + (if WatchStarts(t, e, f) then 1 else 0)
  {
  }

  /** Connections a listener took that are still to be announced. */
  lemma AnnouncedExactly(t: Table, e: Event, f: Id, c: Id)
    requires CanHappen(t, e)
    ensures Step(t, e).announced[(f, c)] ==
              if e == Accepted(f, c) then t.announced[(f, c)] - 1
              else if e == LocalAccept(f) && c == t.nextId then t.announced[(f, c)] + 1
              else t.announced[(f, c)]
  {
    match e {
      case Request(_, _, _, _) => RequestKeepsAnnounced(t, e);
      case ServerReady(_) =>
      case _ =>
    }
  }

  lemma RequestKeepsAnnounced(t: Table, e: Event)
    requires e.Request?
    ensures Step(t, e).announced == t.announced
  {
  }

  /** A local forward from request to connection: asked for, confirmed, and then every connection that comes up is relayed. */
  lemma LocalForwardWorks(t: Table, port: nat, bound: bool, c: Id)
    ensures var f := t.nextId;
            var asked := Step(t, Request(0, port, bound, true));
            var ready := Step(asked, ServerReady(f));
            var open := Step(ready, ServerOpen(f, c, true));
            && f in asked.pending && f !in ready.pending
            && f in ready.forwards && ready.forwards[f].keepalive && At(ready.initiated, f) == Some(port)
            && open.channels == ready.channels + map[c := f]
  {
    var f := t.nextId;
    var asked := Step(t, Request(0, port, bound, true));
    var ready := Step(asked, ServerReady(f));
    PendingExactly(t, Request(0, port, bound, true), f);
    InitiatedExactly(t, Request(0, port, bound, true), f);
    PendingExactly(asked, ServerReady(f), f);
    InitiatedExactly(asked, ServerReady(f), f);
    ForwardsExactly(asked, ServerReady(f), f);
    ServerOpenExactly(ready, f, c, true);
  }

  /** A remote forward from request to connection: listening at once, and every connection it takes is announced and relayed. */
  lemma RemoteForwardWorks(t: Table, port: nat)
    ensures var f := t.nextId;
            var asked := Step(t, Request(1, port, true, true));
            var taken := Step(asked, LocalAccept(f));
            var c := asked.nextId;
            && At(asked.forwards, f) == Some(Forward(port, true, true))
            && CanHappen(taken, Accepted(f, c))
            && At(Step(taken, Accepted(f, c)).channels, c) == Some(f)
  {
    var f := t.nextId;
    var asked := Step(t, Request(1, port, true, true));
    var taken := Step(asked, LocalAccept(f));
    var c := asked.nextId;
    ForwardsExactly(t, Request(1, port, true, true), f);
    ForwardsExactly(asked, LocalAccept(f), f);
    assert (f, c) in taken.announced;
    ChannelsExactly(taken, Accepted(f, c), c);
  }
}
